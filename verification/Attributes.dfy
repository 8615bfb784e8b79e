/**
  The attribute tree of an entity (MapAttr.go, ListAttr.go, attr.go): nested maps and lists, each
  linked to its parent, filled from a native document and turned into one again.
*/
module Attributes {
  import opened Bytes

  /** A native value that is neither a map nor a list; floats stand for the numbers they are. */
  datatype Scalar =
    | Bool(b: bool)
    | Text(s: Str)
    | Float64(x: real)
    | Float32(x: real)
    | Int64(n: int)
    | Uint64(u: nat)
    | Uint(u: nat)
    | Narrow(n: int, signed: bool, width: int)
    | Other(tag: nat)

  datatype Doc = Scalar(v: Scalar) | Map(m: map<Str, Doc>) | List(l: seq<Doc>)

  const TWO63: int := 0x8000_0000_0000_0000

  /** The signed number with the same 64 bits. */
  function Signed(u: nat): int
  {
    (u + TWO63) % (2 * TWO63) - TWO63
  }

  /** uniformAttrType; the unsigned types of 64 bits are `uint64` and `uint`. */
  function UniformAttrType(v: Scalar): Option<Scalar>
  {
    match v
    case Bool(_) => Some(v)
    case Text(_) => Some(v)
    case Float64(_) => Some(v)
    case Float32(x) => Some(Float64(x))
    case Int64(_) => Some(v)
    case Uint64(u) => Some(Int64(Signed(u)))
    case Uint(u) => Some(Int64(Signed(u)))
    case Narrow(n, _, _) => Some(Int64(n))
    case Other(_) => None
  }

  // ---------- What values mean ----------

  function Truth(v: Scalar): Option<bool>
  {
    if v.Bool? then Some(v.b) else None
  }

  function Words(v: Scalar): Option<Str>
  {
    if v.Text? then Some(v.s) else None
  }

  function Real(v: Scalar): Option<real>
  {
    if v.Float64? || v.Float32? then Some(v.x) else None
  }

  function Whole(v: Scalar): Option<int>
  {
    if v.Int64? || v.Narrow? then Some(v.n) else if v.Uint64? || v.Uint? then Some(v.u) else None
  }

  /** A value of one of the four types of attributes. */
  predicate OfAttribute(v: Scalar)
  {
    v.Bool? || v.Text? || v.Float64? || v.Int64?
  }

  /** `u` stands for what `v` stands for; unsigned numbers of 64 bits do so modulo 2^64, as signed ones. */
  predicate SameMeaning(v: Scalar, u: Scalar)
  {
    && Truth(u) == Truth(v) && Words(u) == Words(v) && Real(u) == Real(v)
    && match Whole(v)
       case None => Whole(u) == None
       case Some(n) =>
         if v.Uint64? || v.Uint? then u.Int64? && -TWO63 <= u.n < TWO63 && (u.n - n) % 0x1_0000_0000_0000_0000 == 0
         else Whole(u) == Some(n)
  }

  lemma MeaningKept(v: Scalar)
    ensures UniformAttrType(v).Some? <==> !v.Other?
    ensures !v.Other? ==> OfAttribute(UniformAttrType(v).value) && SameMeaning(v, UniformAttrType(v).value)
  {
    if v.Uint64? || v.Uint? {
      SignedIs(v.u);
    }
  }

  lemma SignedIs(u: nat)
    ensures -TWO63 <= Signed(u) < TWO63 && (Signed(u) - u) % (2 * TWO63) == 0
  {
    var q := (u + TWO63) / (2 * TWO63);
    assert Signed(u) - u == -(2 * TWO63) * q;
    Multiple(-q);
  }

  lemma Multiple(q: int)
    ensures ((2 * TWO63) * q) % (2 * TWO63) == 0
  {
  }

  /** The same shape, with values of attributes that stand for the same at every leaf. */
  ghost predicate SameDoc(d: Doc, e: Doc)
  {
    match d
    case Scalar(v) => e.Scalar? && OfAttribute(e.v) && SameMeaning(v, e.v)
    case Map(m) => e.Map? && e.m.Keys == m.Keys && forall k | k in m :: SameDoc(m[k], e.m[k])
    case List(l) => e.List? && |e.l| == |l| && forall i | 0 <= i < |l| :: SameDoc(l[i], e.l[i])
  }

  lemma {:induction false} UniformMeans(d: Doc)
    requires Supported(d)
    ensures SameDoc(d, Uniform(d))
  {
    match d
    case Scalar(v) => MeaningKept(v);
    case Map(m) =>
      forall k | k in m
        ensures SameDoc(m[k], Uniform(m[k]))
      {
        UniformMeans(m[k]);
      }
    case List(l) =>
      forall i | 0 <= i < |l|
        ensures SameDoc(l[i], Uniform(l[i]))
      {
        UniformMeans(l[i]);
      }
  }

  /** No value of a type that an attribute cannot hold. */
  predicate Supported(d: Doc)
  {
    match d
    case Scalar(v) => !v.Other?
    case Map(m) => forall k | k in m :: Supported(m[k])
    case List(l) => forall i | 0 <= i < |l| :: Supported(l[i])
  }

  /** A document with every scalar made uniform. */
  function Uniform(d: Doc): Doc
  {
    match d
    case Scalar(v) => Scalar(if v.Other? then v else UniformAttrType(v).value)
    case Map(m) => Map(map k | k in m :: Uniform(m[k]))
    case List(l) => List(seq(|l|, i requires 0 <= i < |l| => Uniform(l[i])))
  }

  /** A second round changes nothing. */
  lemma {:induction false} UniformTwice(d: Doc)
    requires Supported(d)
    ensures Supported(Uniform(d)) && Uniform(Uniform(d)) == Uniform(d)
  {
    match d
    case Scalar(v) =>
    case Map(m) =>
      forall k | k in m
        ensures Supported(Uniform(m[k])) && Uniform(Uniform(m[k])) == Uniform(m[k])
      {
        UniformTwice(m[k]);
      }
      assert Uniform(Uniform(d)).m == Uniform(d).m;
    case List(l) =>
      forall i | 0 <= i < |l|
        ensures Supported(Uniform(l[i])) && Uniform(Uniform(l[i])) == Uniform(l[i])
      {
        UniformTwice(l[i]);
      }
      assert Uniform(Uniform(d)).l == Uniform(d).l;
  }

  // ---------- The tree ----------

  datatype Val = Leaf(v: Scalar) | M(m: MapAttr) | L(l: ListAttr)
  datatype Key = Name(s: Str) | Index(i: nat)

  /** The link of a value to the map or list that holds it. */
  ghost predicate Linked(c: Val, parent: Val, key: Key, r: set<object>)
    reads r
  {
    match c
    case Leaf(_) => true
    case M(m) => m in r && m.parent == Some(parent) && m.pkey == Some(key)
    case L(l) => l in r && l.parent == Some(parent) && l.pkey == Some(key)
  }

  /** The tree below `v`, within the objects `r`, holds the document `d`; no node is below itself. */
  ghost predicate Rep(v: Val, d: Doc, r: set<object>)
    reads r
    decreases d
  {
    match d
    case Scalar(s) => v == Leaf(s)
    case Map(m) => v.M? && v.m in r && v.m.attrs.Keys == m.Keys && forall k | k in m ::
      Linked(v.m.attrs[k], v, Name(k), r - {v.m}) && Rep(v.m.attrs[k], m[k], r - {v.m})
    case List(l) => v.L? && v.l in r && |v.l.items| == |l| && forall i | 0 <= i < |l| ::
      Linked(v.l.items[i], v, Index(i), r - {v.l}) && Rep(v.l.items[i], l[i], r - {v.l})
  }

  lemma {:induction false} RepWider(v: Val, d: Doc, r: set<object>, r': set<object>)
    requires Rep(v, d, r) && r <= r'
    ensures Rep(v, d, r')
    decreases d
  {
    match d
    case Scalar(s) =>
    case Map(m) =>
      forall k | k in m
        ensures Rep(v.m.attrs[k], m[k], r' - {v.m}) && Linked(v.m.attrs[k], v, Name(k), r' - {v.m})
      {
        RepWider(v.m.attrs[k], m[k], r - {v.m}, r' - {v.m});
      }
    case List(l) =>
      forall i | 0 <= i < |l|
        ensures Rep(v.l.items[i], l[i], r' - {v.l}) && Linked(v.l.items[i], v, Index(i), r' - {v.l})
      {
        RepWider(v.l.items[i], l[i], r - {v.l}, r' - {v.l});
      }
  }

  /** The map or list that a value refers to. */
  function Node(v: Val): set<object>
  {
    match v
    case Leaf(_) => {}
    case M(m) => {m}
    case L(l) => {l}
  }

  predicate Unlinked(v: Val)
    reads Node(v)
  {
    match v
    case Leaf(_) => true
    case M(m) => m.parent == None && m.pkey == None
    case L(l) => l.parent == None && l.pkey == None
  }

  /** A map whose value under `k` is replaced by one that holds `d` in objects of its own. */
  lemma RepSet(a: MapAttr, m: map<Str, Doc>, r: set<object>, k: Str, d: Doc, rk: set<object>)
    requires a in r && a !in rk && a.attrs.Keys == m.Keys + {k}
    requires forall j | j in m && j != k ::
               Linked(a.attrs[j], M(a), Name(j), r - {a}) && Rep(a.attrs[j], m[j], r - {a})
    requires Linked(a.attrs[k], M(a), Name(k), rk) && Rep(a.attrs[k], d, rk)
    ensures Rep(M(a), Map(m[k := d]), r + rk)
  {
    forall j | j in m[k := d]
      ensures Linked(a.attrs[j], M(a), Name(j), r + rk - {a}) && Rep(a.attrs[j], m[k := d][j], r + rk - {a})
    {
      if j == k {
        RepWider(a.attrs[k], d, rk, r + rk - {a});
      } else {
        RepWider(a.attrs[j], m[j], r - {a}, r + rk - {a});
      }
    }
  }

  lemma RepAppend(a: ListAttr, l: seq<Doc>, r: set<object>, d: Doc, rk: set<object>)
    requires a in r && a !in rk && |a.items| == |l| + 1
    requires forall i | 0 <= i < |l| ::
               Linked(a.items[i], L(a), Index(i), r - {a}) && Rep(a.items[i], l[i], r - {a})
    requires Linked(a.items[|l|], L(a), Index(|l|), rk) && Rep(a.items[|l|], d, rk)
    ensures Rep(L(a), List(l + [d]), r + rk)
  {
    forall i | 0 <= i < |l + [d]|
      ensures Linked(a.items[i], L(a), Index(i), r + rk - {a}) && Rep(a.items[i], (l + [d])[i], r + rk - {a})
    {
      if i == |l| {
        RepWider(a.items[i], d, rk, r + rk - {a});
      } else {
        RepWider(a.items[i], l[i], r - {a}, r + rk - {a});
      }
    }
  }

  /** A map with the keys in `done` taken from a document, made uniform. */
  ghost function Over(m0: map<Str, Doc>, m: map<Str, Doc>, done: set<Str>): map<Str, Doc>
  {
    m0 + map k | k in m && k in done :: Uniform(m[k])
  }

  ghost predicate AllIn(m: map<Str, Doc>, done: set<Str>)
  {
    forall k | k in m && k in done :: Supported(m[k])
  }

  lemma OverNone(m0: map<Str, Doc>, m: map<Str, Doc>)
    ensures Over(m0, m, {}) == m0 && Over(m0, m, m.Keys) == m0 + Uniform(Map(m)).m
    ensures AllIn(m, {}) && (AllIn(m, m.Keys) <==> Supported(Map(m)))
  {
    assert (map k | k in m && k in m.Keys :: Uniform(m[k])) == Uniform(Map(m)).m;
  }

  lemma OverMore(m0: map<Str, Doc>, m: map<Str, Doc>, done: set<Str>, k: Str)
    requires k in m
    ensures Over(m0, m, done + {k}) == Over(m0, m, done)[k := Uniform(m[k])]
    ensures Supported(Map(m)) ==> Supported(m[k])
    ensures AllIn(m, done + {k}) <==> AllIn(m, done) && Supported(m[k])
  {
  }

  class MapAttr {
    var parent: Option<Val>
    var pkey: Option<Key>
    var attrs: map<Str, Val>

    constructor ()
      ensures attrs == map[] && parent == None && pkey == None
    {
      attrs, parent, pkey := map[], None, None;
    }

    /** The value goes under the key; a map or list that has a parent already is refused, too late. */
    method Set(key: Str, val: Val) returns (ok: bool)
      modifies this, Node(val)
      ensures attrs == old(attrs)[key := val] && (val != M(this) ==> parent == old(parent) && pkey == old(pkey))
      ensures ok <==> old(Unlinked(val))
      ensures ok ==> Linked(val, M(this), Name(key), Node(val))
      ensures val.M? && val.m != this ==> val.m.attrs == old(val.m.attrs)
      ensures val.L? ==> val.l.items == old(val.l.items)
    {
      attrs := attrs[key := val];
      match val
      case Leaf(_) =>
        return true;
      case M(sa) =>
        if sa.parent != None || sa.pkey != None {
          return false;
        }
        sa.parent, sa.pkey := Some(M(this)), Some(Name(key));
        return true;
      case L(sa) =>
        if sa.parent != None || sa.pkey != None {
          return false;
        }
        sa.parent, sa.pkey := Some(M(this)), Some(Name(key));
        return true;
    }

    /** The key goes, and its value has no parent any more. */
    method Pop(key: Str) returns (val: Option<Val>)
      modifies this, if key in attrs then Node(attrs[key]) else {}
      ensures val == if key in old(attrs) then Some(old(attrs)[key]) else None
      ensures val.Some? ==> Unlinked(val.value)
      ensures val != Some(M(this)) ==> attrs == old(attrs) - {key} && parent == old(parent) && pkey == old(pkey)
    {
      if key !in attrs {
        assert attrs - {key} == attrs;
        return None;
      }
      var v := attrs[key];
      attrs := attrs - {key};
      match v {
      case Leaf(_) =>
      case M(sa) =>
        sa.parent, sa.pkey := None, None;
      case L(sa) =>
        sa.parent, sa.pkey := None, None;
      }
      val := Some(v);
    }

    /**
      AssignMap: a tree that held `m0` holds the document over it, made uniform. It stops at the
      first value that no attribute can hold.
    */
    method AssignMap(m: map<Str, Doc>, ghost m0: map<Str, Doc>, ghost r0: set<object>) returns (ok: bool, ghost r: set<object>)
      requires Rep(M(this), Map(m0), r0)
      modifies this
      ensures ok <==> Supported(Map(m))
      ensures ok ==> Rep(M(this), Map(m0 + Uniform(Map(m)).m), r) && SameDoc(Map(m), Uniform(Map(m)))
      ensures parent == old(parent) && pkey == old(pkey) && fresh(r - r0)
      decreases Map(m), 1
    {
      hide Rep, Uniform, Supported, Over, AllIn, SameDoc;
      OverNone(m0, m);
      r := r0;
      ghost var cur, done: set<Str> := m0, {};
      var left := m.Keys;
      while left != {}
        invariant done <= m.Keys && left == m.Keys - done
        invariant Rep(M(this), Map(cur), r) && cur == Over(m0, m, done) && AllIn(m, done)
        invariant parent == old(parent) && pkey == old(pkey) && fresh(r - r0)
        decreases left
      {
        var k :| k in left;
        left := left - {k};
        OverMore(m0, m, done, k);
        ok, r := AssignKey(k, m[k], cur, r);
        if !ok {
          return;
        }
        cur := cur[k := Uniform(m[k])];
        done := done + {k};
      }
      ok := true;
      assert done == m.Keys;
      UniformMeans(Map(m));
    }

    /** One round of the loop. */
    method AssignKey(k: Str, d: Doc, ghost m0: map<Str, Doc>, ghost r0: set<object>) returns (ok: bool, ghost r: set<object>)
      requires Rep(M(this), Map(m0), r0)
      modifies this
      ensures ok <==> Supported(d)
      ensures ok ==> Rep(M(this), Map(m0[k := Uniform(d)]), r)
      ensures parent == old(parent) && pkey == old(pkey) && fresh(r - r0)
      decreases d, 3
    {
      r := r0;
      var val, rk := Build(d);
      ok := val.Some?;
      if ok {
        var set_ := Set(k, val.value);
        RepSet(this, m0, r0, k, Uniform(d), rk);
        r := r0 + rk;
      }
    }

    /** ToMap: the document that the tree holds. */
    method ToMap(ghost d: Doc, ghost r: set<object>) returns (doc: map<Str, Doc>)
      requires Rep(M(this), d, r)
      ensures Map(doc) == d
      decreases d, 1
    {
      doc := map[];
      var left := attrs.Keys;
      while left != {}
        invariant left <= attrs.Keys && doc.Keys == attrs.Keys - left
        invariant forall k | k in doc :: doc[k] == d.m[k]
        decreases left
      {
        var k :| k in left;
        left := left - {k};
        var v := Native(attrs[k], d.m[k], r - {this});
        doc := doc[k := v];
      }
      assert doc == d.m;
    }
  }

  class ListAttr {
    var parent: Option<Val>
    var pkey: Option<Key>
    var items: seq<Val>

    constructor ()
      ensures items == [] && parent == None && pkey == None
    {
      items, parent, pkey := [], None, None;
    }

    method Append(val: Val) returns (ok: bool)
      modifies this, Node(val)
      ensures items == old(items) + [val] && (val != L(this) ==> parent == old(parent) && pkey == old(pkey))
      ensures ok <==> old(Unlinked(val))
      ensures ok ==> Linked(val, L(this), Index(|old(items)|), Node(val))
      ensures val.L? && val.l != this ==> val.l.items == old(val.l.items)
      ensures val.M? ==> val.m.attrs == old(val.m.attrs)
    {
      var index := |items|;
      items := items + [val];
      match val
      case Leaf(_) =>
        return true;
      case M(sa) =>
        if sa.parent != None || sa.pkey != None {
          return false;
        }
        sa.parent, sa.pkey := Some(L(this)), Some(Index(index));
        return true;
      case L(sa) =>
        if sa.parent != None || sa.pkey != None {
          return false;
        }
        sa.parent, sa.pkey := Some(L(this)), Some(Index(index));
        return true;
    }

    /** AssignList: the document's items, made uniform, follow those that the list has. */
    method AssignList(l: seq<Doc>, ghost l0: seq<Doc>, ghost r0: set<object>) returns (ok: bool, ghost r: set<object>)
      requires Rep(L(this), List(l0), r0)
      modifies this
      ensures ok <==> Supported(List(l))
      ensures ok ==> Rep(L(this), List(l0 + Uniform(List(l)).l), r) && SameDoc(List(l), Uniform(List(l)))
      ensures parent == old(parent) && pkey == old(pkey) && fresh(r - r0)
      decreases List(l), 1
    {
      r := r0;
      ghost var cur := l0;
      var i := 0;
      while i < |l|
        invariant i <= |l| && Rep(L(this), List(cur), r)
        invariant forall k | 0 <= k < i :: Supported(l[k])
        invariant cur == l0 + Uniform(List(l)).l[..i]
        invariant parent == old(parent) && pkey == old(pkey) && fresh(r - r0)
      {
        ok, r := AppendNative(l[i], cur, r);
        if !ok {
          return;
        }
        cur := cur + [Uniform(l[i])];
        i := i + 1;
      }
      ok := true;
      UniformMeans(List(l));
    }

    /** One round of the loop. */
    method AppendNative(d: Doc, ghost l0: seq<Doc>, ghost r0: set<object>) returns (ok: bool, ghost r: set<object>)
      requires Rep(L(this), List(l0), r0)
      modifies this
      ensures ok <==> Supported(d)
      ensures ok ==> Rep(L(this), List(l0 + [Uniform(d)]), r)
      ensures parent == old(parent) && pkey == old(pkey) && fresh(r - r0)
      decreases d, 3
    {
      r := r0;
      var val, rk := Build(d);
      ok := val.Some?;
      if ok {
        var set_ := Append(val.value);
        RepAppend(this, l0, r0, Uniform(d), rk);
        r := r0 + rk;
      }
    }

    method ToList(ghost d: Doc, ghost r: set<object>) returns (doc: seq<Doc>)
      requires Rep(L(this), d, r)
      ensures List(doc) == d
      decreases d, 1
    {
      doc := [];
      while |doc| < |items|
        invariant |doc| <= |items| && doc == d.l[..|doc|]
      {
        var v := Native(items[|doc|], d.l[|doc|], r - {this});
        doc := doc + [v];
      }
    }
  }

  /** What is stored for a native value: a uniform scalar, or a new map or list filled from it. */
  method Build(d: Doc) returns (val: Option<Val>, ghost r: set<object>)
    ensures val.Some? <==> Supported(d)
    ensures val.Some? ==> Rep(val.value, Uniform(d), r) && Unlinked(val.value) && Node(val.value) <= r
    ensures val.Some? ==> fresh(r) && fresh(Node(val.value))
    decreases d, 2
  {
    val, r := None, {};
    match d
    case Scalar(v) =>
      var u := UniformAttrType(v);
      if u.Some? {
        val := Some(Leaf(u.value));
      }
    case Map(iv) =>
      var ia := new MapAttr();
      var ok;
      ok, r := ia.AssignMap(iv, map[], {ia});
      if ok {
        assert map[] + Uniform(d).m == Uniform(d).m;
        val := Some(M(ia));
      }
    case List(iv) =>
      var ia := new ListAttr();
      var ok;
      ok, r := ia.AssignList(iv, [], {ia});
      if ok {
        assert [] + Uniform(d).l == Uniform(d).l;
        val := Some(L(ia));
      }
  }

  /** The native value of a stored one. */
  method Native(v: Val, ghost d: Doc, ghost r: set<object>) returns (doc: Doc)
    requires Rep(v, d, r)
    ensures doc == d
    decreases d, 2
  {
    match v
    case M(a) =>
      var m := a.ToMap(d, r);
      doc := Map(m);
    case L(a) =>
      var l := a.ToList(d, r);
      doc := List(l);
    case Leaf(s) =>
      doc := Scalar(s);
  }

  /** Two rounds through fresh trees: the first makes every scalar uniform, the second changes nothing. */
  method TwoRounds(m: map<Str, Doc>) returns (ok: bool, m1: map<Str, Doc>, m2: map<Str, Doc>)
    ensures ok <==> Supported(Map(m))
    ensures ok ==> Map(m1) == Uniform(Map(m)) && SameDoc(Map(m), Map(m1)) && m2 == m1
  {
    m1, m2 := map[], map[];
    var a := new MapAttr();
    ghost var r;
    ok, r := a.AssignMap(m, map[], {a});
    if ok {
      UniformTwice(Map(m));
      UniformMeans(Map(m));
      assert map[] + Uniform(Map(m)).m == Uniform(Map(m)).m;
      m1 := a.ToMap(Uniform(Map(m)), r);
      var b := new MapAttr();
      var ok2;
      ok2, r := b.AssignMap(m1, map[], {b});
      assert map[] + m1 == m1;
      m2 := b.ToMap(Map(m1), r);
    }
  }

  // ---------- Paths ----------

  /** The path leads from `v` down to `w`. */
  ghost predicate Leads(v: Val, d: Doc, r: set<object>, path: seq<Key>, w: Val)
    requires Rep(v, d, r)
    reads r
    decreases |path|
  {
    if |path| == 0 then v == w
    else match d
      case Scalar(_) => false
      case Map(m) => path[0].Name? && path[0].s in m && Leads(v.m.attrs[path[0].s], m[path[0].s], r - {v.m}, path[1..], w)
      case List(l) => path[0].Index? && path[0].i < |l| && Leads(v.l.items[path[0].i], l[path[0].i], r - {v.l}, path[1..], w)
  }

  /** One step up from the end of a path. */
  lemma {:induction false} LeadsUp(v: Val, d: Doc, r: set<object>, path: seq<Key>, w: Val) returns (u: Val)
    requires Rep(v, d, r) && Leads(v, d, r, path, w) && |path| > 0
    ensures !u.Leaf? && Leads(v, d, r, path[..|path| - 1], u) && Linked(w, u, path[|path| - 1], r)
    decreases |path|
  {
    if |path| == 1 {
      u := v;
    } else {
      var c, dc, rc;
      if d.Map? {
        c, dc, rc := v.m.attrs[path[0].s], d.m[path[0].s], r - {v.m};
      } else {
        c, dc, rc := v.l.items[path[0].i], d.l[path[0].i], r - {v.l};
      }
      u := LeadsUp(c, dc, rc, path[1..], w);
      assert path[1..][..|path| - 2] == path[..|path| - 1][1..];
    }
  }

  function Reversed(path: seq<Key>): seq<Key>
  {
    if |path| == 0 then [] else [path[|path| - 1]] + Reversed(path[..|path| - 1])
  }

  /** getPathFromOwner: the keys from a value up to the root lead, read backwards, from the root to it. */
  method GetPathFromOwner(w: Val, start: seq<Key>, ghost root: Val, ghost d: Doc, ghost r: set<object>, ghost way: seq<Key>)
    returns (path: seq<Key>)
    requires Rep(root, d, r) && Unlinked(root) && !w.Leaf? && Leads(root, d, r, way, w)
    ensures path == start + Reversed(way)
  {
    path := start;
    var a := w;
    ghost var rest := way;
    while true
      invariant !a.Leaf? && Leads(root, d, r, rest, a) && path + Reversed(rest) == start + Reversed(way)
      decreases |rest|
    {
      var parent, pkey := if a.M? then a.m.parent else a.l.parent, if a.M? then a.m.pkey else a.l.pkey;
      if parent == None {
        if |rest| > 0 {
          var u := LeadsUp(root, d, r, rest, a);
          assert false;
        }
        return;
      }
      var u := LeadsUp(root, d, r, rest, a);
      assert (path + [rest[|rest| - 1]]) + Reversed(rest[..|rest| - 1]) == path + Reversed(rest);
      path := path + [pkey.value];
      a := parent.value;
      rest := rest[..|rest| - 1];
    }
  }
}
