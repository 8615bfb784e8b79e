/**
  Broadcast to the clients whose filter property compares with a value: FilterTree.go and the
  filter handlers of GateService.go. The balanced tree is an ascending sequence.
*/
module FilterTrees {
  import opened Bytes

  type Client = n: nat | n > 0 witness 1

  // ---------- The order of strings ----------

  /** Go's order of strings: byte by byte, a prefix first. */
  predicate Lt(s: Str, t: Str)
  {
    if |s| == 0 then |t| > 0
    else |t| > 0 && (s[0] < t[0] || (s[0] == t[0] && Lt(s[1..], t[1..])))
  }

  lemma {:induction false} LtTotal(s: Str, t: Str)
    ensures Lt(s, t) || s == t || Lt(t, s)
    ensures !(Lt(s, t) && Lt(t, s)) && !Lt(s, s)
  {
    if |s| > 0 && |t| > 0 {
      LtTotal(s[1..], t[1..]);
      assert s == [s[0]] + s[1..] && t == [t[0]] + t[1..];
    }
    if |s| > 0 {
      LtTotal(s[1..], s[1..]);
    }
  }

  lemma {:induction false} LtTrans(s: Str, t: Str, u: Str)
    requires Lt(s, t) && Lt(t, u)
    ensures Lt(s, u)
  {
    if |s| > 0 && s[0] == t[0] == u[0] {
      LtTrans(s[1..], t[1..], u[1..]);
    }
  }

  /**
    What that order means: the strings agree up to some place, where the first one ends, or has the
    smaller byte.
  */
  ghost predicate Before(s: Str, t: Str)
  {
    exists k: nat :: k <= |s| && k <= |t| && s[..k] == t[..k] && BeforeAt(s, t, k)
  }

  predicate BeforeAt(s: Str, t: Str, k: nat)
    requires k <= |s| && k <= |t|
  {
    (k == |s| < |t|) || (k < |s| && k < |t| && s[k] < t[k])
  }

  lemma {:induction false} LtExactly(s: Str, t: Str)
    ensures Lt(s, t) <==> Before(s, t)
  {
    if Lt(s, t) {
      var k := DiffersAt(s, t);
    }
    forall k: nat | k <= |s| && k <= |t| && s[..k] == t[..k] && BeforeAt(s, t, k)
      ensures Lt(s, t)
    {
      AgreeUpTo(s, t, k);
    }
  }

  lemma {:induction false} DiffersAt(s: Str, t: Str) returns (k: nat)
    requires Lt(s, t)
    ensures k <= |s| && k <= |t| && s[..k] == t[..k] && BeforeAt(s, t, k)
  {
    if |s| == 0 || s[0] < t[0] {
      k := 0;
    } else {
      var j := DiffersAt(s[1..], t[1..]);
      k := j + 1;
      assert s[..k] == [s[0]] + s[1..][..j] && t[..k] == [t[0]] + t[1..][..j];
    }
  }

  lemma {:induction false} AgreeUpTo(s: Str, t: Str, k: nat)
    requires k <= |s| && k <= |t| && s[..k] == t[..k] && BeforeAt(s, t, k)
    ensures Lt(s, t)
  {
    if k > 0 {
      assert s[0] == s[..k][0] == t[0];
      assert s[1..][..k - 1] == s[..k][1..] && t[1..][..k - 1] == t[..k][1..];
      AgreeUpTo(s[1..], t[1..], k - 1);
    }
  }

  /** NextLargerKey: the key with a zero byte appended. */
  function NextLargerKey(key: Str): Str
  {
    key + [0]
  }

  /** No string lies between a key and the next larger one. */
  lemma {:induction false} NextLargerKeyIsNext(s: Str, t: Str)
    ensures Lt(s, t) <==> !Lt(t, NextLargerKey(s))
  {
    if |s| > 0 && |t| > 0 {
      NextLargerKeyIsNext(s[1..], t[1..]);
      assert NextLargerKey(s)[1..] == NextLargerKey(s[1..]);
    }
  }

  // ---------- The tree ----------

  /** An item; `cp` is zero in the pivots of a search only. */
  datatype Item = Item(cp: nat, val: Str)

  predicate Less(a: Item, b: Item)
  {
    Lt(a.val, b.val) || (a.val == b.val && a.cp < b.cp)
  }

  lemma LessTotal(a: Item, b: Item)
    ensures Less(a, b) || a == b || Less(b, a)
    ensures !(Less(a, b) && Less(b, a)) && !Less(a, a)
  {
    LtTotal(a.val, b.val);
  }

  lemma LessTrans(a: Item, b: Item, c: Item)
    requires Less(a, b) && Less(b, c)
    ensures Less(a, c)
  {
    if Lt(a.val, b.val) && Lt(b.val, c.val) {
      LtTrans(a.val, b.val, c.val);
    }
  }

  /** Strictly ascending, and made of clients. */
  ghost predicate Ascending(s: seq<Item>)
  {
    && (forall i | 0 <= i < |s| :: s[i].cp > 0)
    && (forall i, j | 0 <= i < j < |s| :: Less(s[i], s[j]))
  }

  datatype Op = EQ | NE | GT | LT | GTE | LTE

  predicate Satisfies(op: Op, v: Str, val: Str)
  {
    match op
    case EQ => v == val
    case NE => v != val
    case GT => Lt(val, v)
    case LT => Lt(v, val)
    case GTE => !Lt(v, val)
    case LTE => !Lt(val, v)
  }

  /** The operators in terms of that meaning. */
  ghost predicate Compares(op: Op, v: Str, val: Str)
  {
    match op
    case EQ => v == val
    case NE => v != val
    case GT => Before(val, v)
    case LT => Before(v, val)
    case GTE => v == val || Before(val, v)
    case LTE => v == val || Before(v, val)
  }

  lemma SatisfiesExactly(op: Op, v: Str, val: Str)
    ensures Satisfies(op, v, val) <==> Compares(op, v, val)
  {
    LtTotal(v, val);
    LtExactly(v, val);
    LtExactly(val, v);
    hide Lt, Before;
  }

  /** The clients of the items that satisfy an operator, in ascending order. */
  function Matching(s: seq<Item>, op: Op, val: Str): seq<nat>
  {
    if |s| == 0 then [] else (if Satisfies(op, s[0].val, val) then [s[0].cp] else []) + Matching(s[1..], op, val)
  }

  function Clients(s: seq<Item>): (r: seq<nat>)
    ensures |r| == |s|
  {
    if |s| == 0 then [] else [s[0].cp] + Clients(s[1..])
  }

  lemma {:induction false} MatchingAppend(a: seq<Item>, b: seq<Item>, op: Op, val: Str)
    ensures Matching(a + b, op, val) == Matching(a, op, val) + Matching(b, op, val)
  {
    if |a| == 0 {
      assert a + b == b;
    } else {
      MatchingAppend(a[1..], b, op, val);
      assert (a + b)[0] == a[0] && (a + b)[1..] == a[1..] + b;
      var h := if Satisfies(op, a[0].val, val) then [a[0].cp] else [];
      hide Satisfies, Lt;
      assert h + (Matching(a[1..], op, val) + Matching(b, op, val)) == h + Matching(a[1..], op, val) + Matching(b, op, val);
    }
  }

  lemma {:induction false} MatchingAll(s: seq<Item>, op: Op, val: Str)
    requires forall i | 0 <= i < |s| :: Satisfies(op, s[i].val, val)
    ensures Matching(s, op, val) == Clients(s)
  {
    if |s| > 0 {
      MatchingAll(s[1..], op, val);
    }
  }

  lemma {:induction false} MatchingNone(s: seq<Item>, op: Op, val: Str)
    requires forall i | 0 <= i < |s| :: !Satisfies(op, s[i].val, val)
    ensures Matching(s, op, val) == []
  {
    if |s| > 0 {
      MatchingNone(s[1..], op, val);
    }
  }

  /** Exactly the satisfying items are visited, and each of them as often as it occurs. */
  lemma {:induction false} MatchingMember(s: seq<Item>, op: Op, val: Str, cp: nat)
    ensures cp in Matching(s, op, val) <==> exists i :: 0 <= i < |s| && s[i].cp == cp && Satisfies(op, s[i].val, val)
  {
    if |s| > 0 {
      MatchingMember(s[1..], op, val, cp);
      if exists i :: 0 <= i < |s| && s[i].cp == cp && Satisfies(op, s[i].val, val) {
        var i :| 0 <= i < |s| && s[i].cp == cp && Satisfies(op, s[i].val, val);
        if i > 0 {
          assert s[1..][i - 1] == s[i];
        }
      }
      if exists i :: 0 <= i < |s[1..]| && s[1..][i].cp == cp && Satisfies(op, s[1..][i].val, val) {
        var i :| 0 <= i < |s[1..]| && s[1..][i].cp == cp && Satisfies(op, s[1..][i].val, val);
        assert s[i + 1] == s[1..][i];
      }
    }
  }

  lemma MatchingCompares(s: seq<Item>, op: Op, val: Str)
    ensures forall cp :: cp in Matching(s, op, val) <==> exists i :: 0 <= i < |s| && s[i].cp == cp && Compares(op, s[i].val, val)
  {
    forall i | 0 <= i < |s|
      ensures Satisfies(op, s[i].val, val) <==> Compares(op, s[i].val, val)
    {
      SatisfiesExactly(op, s[i].val, val);
    }
    hide Satisfies, Compares;
    forall cp
      ensures cp in Matching(s, op, val) <==> exists i :: 0 <= i < |s| && s[i].cp == cp && Compares(op, s[i].val, val)
    {
      MatchingMember(s, op, val, cp);
    }
  }

  class FilterTree {
    var btree: seq<Item>

    ghost predicate Valid()
      reads this
    {
      Ascending(btree)
    }

    constructor ()
      ensures Valid() && btree == []
    {
      btree := [];
    }

    /** The number of items below `pivot`; they come first. */
    method LowerBound(pivot: Item) returns (k: nat)
      requires Valid()
      ensures k <= |btree|
      ensures forall i | 0 <= i < |btree| :: Less(btree[i], pivot) <==> i < k
    {
      k := 0;
      while k < |btree| && Less(btree[k], pivot)
        invariant k <= |btree|
        invariant forall i | 0 <= i < k :: Less(btree[i], pivot)
      {
        k := k + 1;
      }
      forall i | k <= i < |btree|
        ensures !Less(btree[i], pivot)
      {
        if Less(btree[i], pivot) && i > k {
          LessTrans(btree[k], btree[i], pivot);
        }
      }
    }

    /** Insert. */
    method Insert(cp: Client, val: Str)
      requires Valid()
      modifies this
      ensures Valid()
      ensures forall it :: it in btree <==> it in old(btree) || it == Item(cp, val)
    {
      hide Less, Lt;
      var item := Item(cp, val);
      var k := LowerBound(item);
      FoundAt(btree, item, k);
      if k < |btree| && btree[k] == item {
        return;
      }
      ghost var before := btree;
      btree := btree[..k] + [item] + btree[k..];
      assert forall i | 0 <= i < |before| :: before[i] == btree[if i < k then i else i + 1];
      assert btree[k] == item;
    }

    /** Remove. */
    method Remove(cp: Client, val: Str)
      requires Valid()
      modifies this
      ensures Valid()
      ensures forall it :: it in btree <==> it in old(btree) && it != Item(cp, val)
    {
      hide Less, Lt;
      var item := Item(cp, val);
      var k := LowerBound(item);
      FoundAt(btree, item, k);
      if k == |btree| || btree[k] != item {
        return;
      }
      ghost var before := btree;
      btree := btree[..k] + btree[k + 1..];
      assert forall i | 0 <= i < |before| && i != k :: before[i] == btree[if i < k then i else i - 1];
      forall i | 0 <= i < |btree|
        ensures btree[i] != item && btree[i] in before
      {
        assert btree[i] == before[if i < k then i else i + 1];
        LessTotal(item, item);
      }
    }

    /** Visit: the clients of exactly the items that satisfy the operator, each once. */
    method Visit(op: Op, val: Str) returns (visited: seq<nat>)
      requires Valid()
      ensures visited == Matching(btree, op, val)
      ensures forall cp :: cp in visited <==> exists i :: 0 <= i < |btree| && btree[i].cp == cp && Compares(op, btree[i].val, val)
    {
      MatchingCompares(btree, op, val);
      hide Lt, Less, Matching, Clients, Compares;
      var lo := LowerBound(Item(0, val));
      var hi := LowerBound(Item(0, NextLargerKey(val)));
      Pivots(btree, val, lo, hi);
      var s := btree;
      Parts(s, op, val, lo, hi);
      ClientsAppend(s[..lo], s[lo..hi]);
      ClientsAppend(s[lo..hi], s[hi..]);
      assert s[..hi] == s[..lo] + s[lo..hi] && s[lo..] == s[lo..hi] + s[hi..];
      match op {
        case EQ => visited := VisitEqual(lo, hi, val);
        case NE => visited := Clients(btree[..lo]) + Clients(btree[hi..]);
        case GT => visited := Clients(btree[hi..]);
        case GTE => visited := Clients(btree[lo..]);
        case LT => visited := Clients(btree[..lo]);
        case LTE => visited := Clients(btree[..hi]);
      }
    }

    /** The search for equal values: ascends from (nil, val) until an item is larger. */
    method VisitEqual(lo: nat, ghost hi: nat, val: Str) returns (visited: seq<nat>)
      requires lo <= hi <= |btree| && forall i | 0 <= i < |btree| :: i < hi <==> !Lt(val, btree[i].val)
      ensures visited == Clients(btree[lo..hi])
    {
      visited := [];
      var i := lo;
      while i < |btree| && !Lt(val, btree[i].val)
        invariant lo <= i <= hi
        invariant visited == Clients(btree[lo..i])
      {
        ClientsMore(btree[lo..i], btree[i]);
        assert btree[lo..i + 1] == btree[lo..i] + [btree[i]];
        visited := visited + [btree[i].cp];
        i := i + 1;
      }
    }
  }

  /** Where the items below `item` end, there `item` is, or belongs. */
  lemma FoundAt(s: seq<Item>, item: Item, k: nat)
    requires Ascending(s) && k <= |s| && forall i | 0 <= i < |s| :: Less(s[i], item) <==> i < k
    ensures item in s <==> k < |s| && s[k] == item
    ensures item !in s ==> forall i | k <= i < |s| :: Less(item, s[i])
  {
    forall i | k <= i < |s|
      ensures s[i] == item ==> i == k
      ensures s[i] == item || Less(item, s[i])
    {
      LessTotal(s[i], item);
      if i > k {
        assert Less(s[k], s[i]);
      }
    }
    forall i | 0 <= i < k
      ensures s[i] != item
    {
      LessTotal(item, item);
    }
  }

  /** How the two search pivots, which have no client, divide the items. */
  lemma Pivots(s: seq<Item>, val: Str, lo: nat, hi: nat)
    requires Ascending(s) && lo <= |s| && hi <= |s|
    requires forall i | 0 <= i < |s| :: Less(s[i], Item(0, val)) <==> i < lo
    requires forall i | 0 <= i < |s| :: Less(s[i], Item(0, NextLargerKey(val))) <==> i < hi
    ensures lo <= hi
    ensures forall i | 0 <= i < |s| :: i < lo <==> Lt(s[i].val, val)
    ensures forall i | 0 <= i < |s| :: i < hi <==> !Lt(val, s[i].val)
  {
    hide Lt;
    forall i | 0 <= i < |s|
      ensures i < lo <==> Lt(s[i].val, val)
      ensures i < hi <==> !Lt(val, s[i].val)
      ensures i < lo ==> i < hi
    {
      NextLargerKeyIsNext(val, s[i].val);
      LtTotal(val, s[i].val);
    }
    if lo > 0 {
      assert s[lo - 1] == s[lo - 1] && lo - 1 < hi;
    }
  }

  /** The matching items are whole parts of the tree. */
  lemma Parts(s: seq<Item>, op: Op, val: Str, lo: nat, hi: nat)
    requires lo <= hi <= |s|
    requires forall i | 0 <= i < |s| :: i < lo <==> Lt(s[i].val, val)
    requires forall i | 0 <= i < |s| :: i < hi <==> !Lt(val, s[i].val)
    ensures
      var below := if op in {NE, LT, LTE} then Clients(s[..lo]) else [];
      var equal := if op in {EQ, GTE, LTE} then Clients(s[lo..hi]) else [];
      var above := if op in {NE, GT, GTE} then Clients(s[hi..]) else [];
      Matching(s, op, val) == below + equal + above
  {
    hide Lt, Matching, Clients;
    assert s == s[..lo] + s[lo..hi] + s[hi..];
    MatchingAppend(s[..lo] + s[lo..hi], s[hi..], op, val);
    MatchingAppend(s[..lo], s[lo..hi], op, val);
    forall i | 0 <= i < |s|
      ensures lo <= i < hi <==> s[i].val == val
    {
      LtTotal(s[i].val, val);
    }
    if op in {NE, LT, LTE} { MatchingAll(s[..lo], op, val); } else { MatchingNone(s[..lo], op, val); }
    if op in {EQ, GTE, LTE} { MatchingAll(s[lo..hi], op, val); } else { MatchingNone(s[lo..hi], op, val); }
    if op in {NE, GT, GTE} { MatchingAll(s[hi..], op, val); } else { MatchingNone(s[hi..], op, val); }
  }

  lemma {:induction false} ClientsAppend(a: seq<Item>, b: seq<Item>)
    ensures Clients(a + b) == Clients(a) + Clients(b)
  {
    if |a| == 0 {
      assert a + b == b;
    } else {
      ClientsAppend(a[1..], b);
      assert (a + b)[1..] == a[1..] + b;
    }
  }

  lemma {:induction false} ClientsMore(s: seq<Item>, it: Item)
    ensures Clients(s + [it]) == Clients(s) + [it.cp]
  {
    if |s| > 0 {
      ClientsMore(s[1..], it);
      assert (s + [it])[1..] == s[1..] + [it];
    }
  }

  // ---------- The gate ----------

  type Props = map<Str, Str>

  function PropsOf(m: map<Client, Props>, cp: Client): Props
  {
    if cp in m then m[cp] else map[]
  }

  /** A tree holds exactly the values that clients show under its key. */
  ghost predicate Shows(btree: seq<Item>, key: Str, shown: map<Client, Props>)
  {
    forall cp: Client, val :: Item(cp, val) in btree <==> key in PropsOf(shown, cp) && PropsOf(shown, cp)[key] == val
  }

  lemma ShowsOther(btree: seq<Item>, key: Str, shown: map<Client, Props>, cp: Client, props: Props)
    requires Shows(btree, key, shown)
    requires key in props <==> key in PropsOf(shown, cp)
    requires key in props ==> props[key] == PropsOf(shown, cp)[key]
    ensures Shows(btree, key, shown[cp := props])
  {
  }

  lemma ShowsMoved(btree: seq<Item>, btree': seq<Item>, key: Str, shown: map<Client, Props>, cp: Client, val: Str)
    requires Shows(btree, key, shown)
    requires forall it: Item | it.cp != cp :: it in btree' <==> it in btree
    requires forall v :: Item(cp, v) in btree' <==> v == val
    ensures Shows(btree', key, shown[cp := PropsOf(shown, cp)[key := val]])
  {
  }

  lemma ShowsGone(btree: seq<Item>, btree': seq<Item>, key: Str, shown: map<Client, Props>, cp: Client, was: Str)
    requires Shows(btree, key, shown)
    requires forall it :: it in btree' <==> it in btree && it != Item(cp, was)
    requires key in PropsOf(shown, cp) ==> PropsOf(shown, cp)[key] == was
    ensures Shows(btree', key, shown[cp := PropsOf(shown, cp) - {key}])
  {
  }

  /** What is shown is among the clients' properties, and under a key that has a tree. */
  ghost predicate Backed(shown: map<Client, Props>, filterProps: map<Client, Props>, keys: set<Str>)
  {
    forall cp: Client, key: Str :: BackedAt(shown, filterProps, keys, cp, key)
  }

  ghost predicate BackedAt(shown: map<Client, Props>, filterProps: map<Client, Props>, keys: set<Str>, cp: Client, key: Str)
  {
    key in PropsOf(shown, cp) ==>
      key in keys && key in PropsOf(filterProps, cp) && PropsOf(filterProps, cp)[key] == PropsOf(shown, cp)[key]
  }

  lemma BackedLess(shown: map<Client, Props>, filterProps: map<Client, Props>, keys: set<Str>, cp: Client, key: Str)
    requires Backed(shown, filterProps, keys)
    ensures Backed(shown[cp := PropsOf(shown, cp) - {key}], filterProps, keys)
    ensures PropsOf(shown, cp).Keys <= PropsOf(filterProps, cp).Keys
    ensures Backed(shown - {cp}, filterProps, keys)
  {
    var less, none := shown[cp := PropsOf(shown, cp) - {key}], shown - {cp};
    forall c: Client, k: Str
      ensures BackedAt(less, filterProps, keys, c, k) && BackedAt(none, filterProps, keys, c, k)
    {
      assert BackedAt(shown, filterProps, keys, c, k);
    }
    forall k: Str | k in PropsOf(shown, cp)
      ensures k in PropsOf(filterProps, cp)
    {
      assert BackedAt(shown, filterProps, keys, cp, k);
    }
  }

  lemma BackedMore(shown: map<Client, Props>, filterProps: map<Client, Props>, keys: set<Str>, cp: Client, key: Str, val: Str)
    requires Backed(shown, filterProps, keys) && key in keys
    ensures Backed(shown[cp := PropsOf(shown, cp)[key := val]], filterProps[cp := PropsOf(filterProps, cp)[key := val]], keys)
  {
    var shown', filterProps' := shown[cp := PropsOf(shown, cp)[key := val]], filterProps[cp := PropsOf(filterProps, cp)[key := val]];
    forall c: Client, k: Str
      ensures BackedAt(shown', filterProps', keys, c, k)
    {
      assert BackedAt(shown, filterProps, keys, c, k);
    }
  }

  /** A new key has no items yet, and a new client no properties. */
  lemma BackedWider(shown: map<Client, Props>, filterProps: map<Client, Props>, keys: set<Str>, key: Str, cp: Client)
    requires Backed(shown, filterProps, keys)
    ensures Backed(shown, filterProps, keys + {key})
    ensures cp !in shown ==> Backed(shown, filterProps[cp := map[]], keys)
  {
    var filterProps' := filterProps[cp := map[]];
    forall c: Client, k: Str
      ensures BackedAt(shown, filterProps, keys + {key}, c, k)
      ensures cp !in shown ==> BackedAt(shown, filterProps', keys, c, k)
    {
      assert BackedAt(shown, filterProps, keys, c, k);
    }
    if cp !in shown {
      assert Backed(shown, filterProps', keys);
    }
  }

  lemma ShowsEmpty(key: Str, shown: map<Client, Props>)
    requires forall cp: Client :: key !in PropsOf(shown, cp)
    ensures Shows([], key, shown)
  {
  }

  /** A client that shows nothing under a key may as well have no entry. */
  lemma ShowsForgotten(btree: seq<Item>, key: Str, shown: map<Client, Props>, cp: Client)
    requires Shows(btree, key, shown) && PropsOf(shown, cp) == map[]
    ensures Shows(btree, key, shown - {cp})
  {
    assert forall c: Client :: PropsOf(shown - {cp}, c) == PropsOf(shown, c);
  }

  /** A tree that shows each client at one value visits no client twice. */
  lemma {:induction false} VisitedOnce(s: seq<Item>, op: Op, val: Str)
    requires forall i, j | 0 <= i < j < |s| :: s[i].cp != s[j].cp
    ensures forall i, j | 0 <= i < j < |Matching(s, op, val)| :: Matching(s, op, val)[i] != Matching(s, op, val)[j]
  {
    if |s| > 0 {
      VisitedOnce(s[1..], op, val);
      MatchingMember(s[1..], op, val, s[0].cp);
      var rest := Matching(s[1..], op, val);
      assert s[0].cp !in rest;
      assert forall i | 0 <= i < |rest| :: rest[i] in rest;
    }
  }

  lemma OneItemPerClient(s: seq<Item>, key: Str, shown: map<Client, Props>)
    requires Ascending(s) && Shows(s, key, shown)
    ensures forall i, j | 0 <= i < j < |s| :: s[i].cp != s[j].cp
  {
    forall i, j | 0 <= i < j < |s|
      ensures s[i].cp != s[j].cp
    {
      if s[i].cp == s[j].cp {
        var cp: Client := s[i].cp;
        assert Item(cp, s[i].val) in s && Item(cp, s[j].val) in s;
        LessTotal(s[i], s[i]);
      }
    }
  }

  /** The clients to which a filtered call goes are those that show a satisfying value. */
  lemma ShownVisited(s: seq<Item>, key: Str, shown: map<Client, Props>, op: Op, val: Str, cp: Client)
    requires Shows(s, key, shown)
    ensures cp in Matching(s, op, val) <==> key in PropsOf(shown, cp) && Compares(op, PropsOf(shown, cp)[key], val)
  {
    hide Satisfies, Compares, Lt;
    MatchingMember(s, op, val, cp);
    if key in PropsOf(shown, cp) {
      SatisfiesExactly(op, PropsOf(shown, cp)[key], val);
      var it := Item(cp, PropsOf(shown, cp)[key]);
      assert it in s;
      var i :| 0 <= i < |s| && s[i] == it;
      assert forall k | 0 <= k < |s| && s[k].cp == cp :: Item(cp, s[k].val) in s;
    } else {
      assert forall k | 0 <= k < |s| && s[k].cp == cp :: Item(cp, s[k].val) in s;
    }
  }

  class GateService {
    /** The connected clients; identifiers are never reused. */
    var clientProxies: set<Client>
    var filterProps: map<Client, Props>
    var filterTrees: map<Str, FilterTree>
    /** What each client shows for filtering: the properties set for it and not cleared since. */
    ghost var shown: map<Client, Props>

    ghost predicate ValidTrees()
      reads this, filterTrees.Values
    {
      && (forall key | key in filterTrees :: filterTrees[key].Valid())
      && (forall key, key' | key in filterTrees && key' in filterTrees && key != key' :: filterTrees[key] != filterTrees[key'])
      && (forall key | key in filterTrees :: Shows(filterTrees[key].btree, key, shown))
    }

    ghost predicate ValidProps()
      reads this
    {
      Backed(shown, filterProps, filterTrees.Keys)
    }

    ghost predicate Valid()
      reads this, filterTrees.Values
    {
      ValidTrees() && ValidProps() && forall cp | cp in shown :: cp in clientProxies
    }

    constructor ()
      ensures Valid() && clientProxies == {} && shown == map[]
    {
      clientProxies, filterProps, filterTrees, shown := {}, map[], map[], map[];
    }

    method OnNewClientProxy(cp: Client)
      requires Valid() && cp !in clientProxies && cp !in filterProps
      modifies this
      ensures Valid() && clientProxies == old(clientProxies) + {cp} && shown == old(shown)
    {
      BackedWider(shown, filterProps, filterTrees.Keys, [], cp);
      clientProxies := clientProxies + {cp};
      filterProps := filterProps[cp := map[]];
    }

    /** The tree for a key, made when it is missing. */
    method TreeFor(key: Str) returns (ft: FilterTree)
      requires Valid()
      modifies this`filterTrees
      ensures Valid() && key in filterTrees && filterTrees[key] == ft
      ensures forall k | k in old(filterTrees) :: k in filterTrees && filterTrees[k] == old(filterTrees)[k]
      ensures forall t | t in filterTrees.Values :: t in old(filterTrees.Values) || fresh(t)
    {
      if key in filterTrees {
        ft := filterTrees[key];
      } else {
        ft := new FilterTree();
        forall cp: Client
          ensures key !in PropsOf(shown, cp)
        {
          assert BackedAt(shown, filterProps, filterTrees.Keys, cp, key);
        }
        ShowsEmpty(key, shown);
        BackedWider(shown, filterProps, filterTrees.Keys, key, 1);
        hide Shows, Backed;
        assert filterTrees[key := ft].Keys == filterTrees.Keys + {key};
        filterTrees := filterTrees[key := ft];
      }
    }

    /** handleSetClientFilterProp: the client's item moves to the new value. */
    method HandleSetClientFilterProp(cp: Client, key: Str, val: Str)
      requires Valid() && cp in clientProxies
      modifies this, filterTrees.Values
      ensures Valid() && clientProxies == old(clientProxies)
      ensures shown == old(shown)[cp := PropsOf(old(shown), cp)[key := val]]
    {
      hide Shows, Ascending, Backed;
      var ft := TreeFor(key);
      var props := PropsOf(filterProps, cp);
      BackedMore(shown, filterProps, filterTrees.Keys, cp, key, val);
      MoveItem(cp, key, val);
      filterProps := filterProps[cp := props[key := val]];
      shown := shown[cp := PropsOf(shown, cp)[key := val]];
    }

    /** The tree half of setting a property: out at the old value, in at the new one. */
    method MoveItem(cp: Client, key: Str, val: Str)
      requires Valid() && key in filterTrees
      modifies filterTrees[key]
      ensures forall k | k in filterTrees :: filterTrees[k].Valid()
      ensures forall k | k in filterTrees :: Shows(filterTrees[k].btree, k, shown[cp := PropsOf(shown, cp)[key := val]])
    {
      var ft := filterTrees[key];
      ghost var before := ft.btree;
      var props := PropsOf(filterProps, cp);
      if key in props {
        ft.Remove(cp, props[key]);
      }
      assert forall v :: Item(cp, v) !in ft.btree by {
        assert Shows(before, key, shown);
        assert BackedAt(shown, filterProps, filterTrees.Keys, cp, key);
      }
      ft.Insert(cp, val);
      hide Shows, Ascending;
      ghost var props' := PropsOf(shown, cp)[key := val];
      forall k | k in filterTrees
        ensures Shows(filterTrees[k].btree, k, shown[cp := props'])
      {
        if k == key {
          ShowsMoved(before, ft.btree, key, shown, cp, val);
        } else {
          ShowsOther(filterTrees[k].btree, k, shown, cp, props');
        }
      }
    }

    /** One round of dropping a client's properties: its item under `key` leaves the tree. */
    method DropItem(cp: Client, key: Str)
      requires ValidTrees() && ValidProps() && cp in filterProps && key in filterProps[cp]
      modifies filterTrees.Values, this`shown
      ensures ValidTrees() && ValidProps()
      ensures shown == old(shown)[cp := PropsOf(old(shown), cp) - {key}]
    {
      BackedLess(shown, filterProps, filterTrees.Keys, cp, key);
      assert BackedAt(shown, filterProps, filterTrees.Keys, cp, key);
      hide Shows, Ascending, Backed;
      ghost var props := PropsOf(shown, cp) - {key};
      ghost var before := if key in filterTrees then filterTrees[key].btree else [];
      if key in filterTrees {
        filterTrees[key].Remove(cp, filterProps[cp][key]);
      }
      forall k | k in filterTrees
        ensures Shows(filterTrees[k].btree, k, shown[cp := props])
      {
        if k == key {
          ShowsGone(before, filterTrees[k].btree, key, shown, cp, filterProps[cp][key]);
        } else {
          ShowsOther(filterTrees[k].btree, k, shown, cp, props);
        }
      }
      shown := shown[cp := props];
    }

    /** The loops over a client's properties: its items leave all trees. */
    method DropItems(cp: Client)
      requires ValidTrees() && ValidProps() && cp in filterProps
      modifies filterTrees.Values, this`shown
      ensures ValidTrees() && ValidProps() && shown == old(shown) - {cp}
    {
      hide Shows, Ascending, Backed;
      ghost var shown0 := shown;
      BackedLess(shown, filterProps, filterTrees.Keys, cp, []);
      var left := filterProps[cp].Keys;
      while left != {}
        invariant ValidTrees() && ValidProps() && left <= filterProps[cp].Keys && PropsOf(shown, cp).Keys <= left
        invariant shown - {cp} == shown0 - {cp}
        decreases left
      {
        var key :| key in left;
        left := left - {key};
        ghost var before := shown;
        DropItem(cp, key);
        assert shown - {cp} == before - {cp};
      }
      assert PropsOf(shown, cp) == map[];
      forall k | k in filterTrees
        ensures Shows(filterTrees[k].btree, k, shown - {cp})
      {
        ShowsForgotten(filterTrees[k].btree, k, shown, cp);
      }
      BackedLess(shown, filterProps, filterTrees.Keys, cp, []);
      shown := shown - {cp};
    }

    /** onClientProxyClose: a closed client is in no tree. */
    method OnClientProxyClose(cp: Client)
      requires Valid() && cp in clientProxies && cp in filterProps
      modifies this, filterTrees.Values
      ensures Valid() && clientProxies == old(clientProxies) - {cp} && shown == old(shown) - {cp}
      ensures forall key, val | key in filterTrees :: Item(cp, val) !in filterTrees[key].btree
    {
      clientProxies := clientProxies - {cp};
      DropItems(cp);
      forall key, val | key in filterTrees
        ensures Item(cp, val) !in filterTrees[key].btree
      {
        assert Shows(filterTrees[key].btree, key, shown);
      }
    }

    /** handleClearClientFilterProps; the properties themselves stay with the client. */
    method HandleClearClientFilterProps(cp: Client)
      requires Valid() && cp in clientProxies && cp in filterProps
      modifies filterTrees.Values, this`shown
      ensures Valid() && shown == old(shown) - {cp}
    {
      DropItems(cp);
    }

    /**
      handleCallFilteredClientProxies: the call goes once to each client that shows a satisfying
      value and to nobody else; an empty key means all clients.
    */
    method HandleCallFilteredClientProxies(op: Op, key: Str, val: Str) returns (called: seq<nat>)
      requires Valid()
      ensures forall i, j | 0 <= i < j < |called| :: called[i] != called[j]
      ensures key == [] ==> forall cp: Client :: cp in called <==> cp in clientProxies
      ensures key != [] ==> forall cp: Client ::
                cp in called <==> key in PropsOf(shown, cp) && Compares(op, PropsOf(shown, cp)[key], val)
    {
      hide Shows, Ascending, Matching, Satisfies, Compares;
      called := [];
      if |key| == 0 {
        var left := clientProxies;
        while left != {}
          invariant left <= clientProxies
          invariant forall i, j | 0 <= i < j < |called| :: called[i] != called[j]
          invariant forall cp: Client :: cp in called <==> cp in clientProxies - left
          invariant forall c | c in called :: c > 0
          decreases left
        {
          var cp :| cp in left;
          assert cp !in called && forall i | 0 <= i < |called| :: called[i] in called;
          left := left - {cp};
          called := called + [cp];
        }
        return;
      }
      if key in filterTrees {
        var ft := filterTrees[key];
        called := ft.Visit(op, val);
        OneItemPerClient(ft.btree, key, shown);
        VisitedOnce(ft.btree, op, val);
        forall cp: Client
          ensures cp in called <==> key in PropsOf(shown, cp) && Compares(op, PropsOf(shown, cp)[key], val)
        {
          ShownVisited(ft.btree, key, shown, op, val, cp);
        }
      } else {
        forall cp: Client
          ensures cp in called <==> key in PropsOf(shown, cp) && Compares(op, PropsOf(shown, cp)[key], val)
        {
          assert BackedAt(shown, filterProps, filterTrees.Keys, cp, key);
        }
      }
    }
  }
}
