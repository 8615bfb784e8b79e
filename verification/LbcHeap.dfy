/**
  The load-balancing heap of lbcheap.go, with the sift loops of Go's container/heap. Loads are
  real numbers.
*/
module LbcHeap {

  // ---------- Heaps of numbers ----------

  function Parent(k: nat): nat
  {
    if k == 0 then 0 else (k - 1) / 2
  }

  ghost predicate Ordered(l: seq<real>, k: nat)
    requires k < |l|
  {
    l[Parent(k)] <= l[k]
  }

  ghost predicate MinHeap(l: seq<real>)
  {
    forall k: nat | k < |l| :: Ordered(l, k)
  }

  /** A heap but for the number at `i`, whose neighbours are in order with each other. */
  ghost predicate HeapExcept(l: seq<real>, i: nat)
  {
    && i < |l|
    && (forall k: nat | k < |l| && k != i && Parent(k) != i :: Ordered(l, k))
    && (forall k: nat | k < |l| && k != i && Parent(k) == i && i > 0 :: l[Parent(i)] <= l[k])
  }

  /** A heap but for the step from `i` to its parent. */
  ghost predicate HeapButUp(l: seq<real>, i: nat)
  {
    i < |l| && (forall k: nat | k < |l| && k != i :: Ordered(l, k))
    && (forall k: nat | k < |l| && k != i && Parent(k) == i && i > 0 :: l[Parent(i)] <= l[k])
  }

  function Swapped(l: seq<real>, i: nat, j: nat): seq<real>
    requires i < |l| && j < |l|
  {
    l[i := l[j]][j := l[i]]
  }

  lemma UpStep(l: seq<real>, j: nat)
    requires HeapButUp(l, j) && l[j] < l[Parent(j)]
    ensures HeapButUp(Swapped(l, Parent(j), j), Parent(j))
  {
    var i := Parent(j);
    var l' := Swapped(l, i, j);
    forall k: nat | k < |l| && k != i
      ensures Ordered(l', k)
    {
      assert k != j ==> Ordered(l, k);
    }
    forall k: nat | k < |l| && k != i && Parent(k) == i && i > 0
      ensures l'[Parent(i)] <= l'[k]
    {
      assert Ordered(l, i) && (k != j ==> Ordered(l, k));
    }
  }

  /** The number at `i` sinks below its smaller child `j`. */
  lemma DownStep(l: seq<real>, i: nat, j: nat)
    requires HeapExcept(l, i) && j < |l| && j != i && Parent(j) == i && l[j] < l[i]
    requires forall k: nat | k < |l| && k != i && Parent(k) == i :: l[j] <= l[k]
    ensures HeapExcept(Swapped(l, i, j), j) && Ordered(Swapped(l, i, j), j)
  {
  }

  /** The number at the top of a heap is the least. */
  lemma {:induction false} TopIsLeast(l: seq<real>, k: nat)
    requires MinHeap(l) && k < |l|
    ensures l[0] <= l[k]
    decreases k
  {
    if k > 0 {
      assert Ordered(l, k);
      TopIsLeast(l, Parent(k));
    }
  }

  // ---------- The heap of entries ----------

  class Entry {
    const gameid: nat
    var heapidx: int
    var CPUPercent: real
    var origCPUPercent: real

    constructor (gameid: nat, heapidx: int)
      ensures this.gameid == gameid && this.heapidx == heapidx && CPUPercent == 0.0 && origCPUPercent == 0.0
    {
      this.gameid, this.heapidx, CPUPercent, origCPUPercent := gameid, heapidx, 0.0, 0.0;
    }
  }

  ghost function Loads(h: seq<Entry>): (l: seq<real>)
    reads h
    ensures |l| == |h|
  {
    seq(|h|, k requires 0 <= k < |h| reads h => h[k].CPUPercent)
  }

  /** Each entry knows its place, and no game occurs twice. */
  ghost predicate Indexed(h: seq<Entry>)
    reads h
  {
    && (forall k | 0 <= k < |h| :: h[k].heapidx == k)
    && (forall j, k | 0 <= j < k < |h| :: h[j].gameid != h[k].gameid)
  }

  ghost function Elements(h: seq<Entry>): set<Entry>
  {
    set e | e in h
  }

  /** The entries are the same, in another order. */
  ghost predicate Rearranged(h: seq<Entry>, h': seq<Entry>)
  {
    |h'| == |h| && Elements(h') == Elements(h)
  }

  class Heap {
    var h: seq<Entry>

    /** A load is at least what the game reported, and less than 10.1 above it. */
    ghost predicate Bounded()
      reads this, h
    {
      forall e | e in Elements(h) :: e.origCPUPercent <= e.CPUPercent < e.origCPUPercent + 10.1
    }

    /** What holds between any two operations of the dispatcher. */
    ghost predicate Valid()
      reads this, h
    {
      Indexed(h) && MinHeap(Loads(h)) && Bounded()
    }

    constructor ()
      ensures Valid() && h == []
    {
      h := [];
    }

    /** Swap: the entries change places, and so do their indices. */
    method Swap(i: nat, j: nat)
      requires Indexed(h) && i < |h| && j < |h|
      modifies this, Elements(h)`heapidx
      ensures h == old(h)[i := old(h)[j]][j := old(h)[i]] && Indexed(h)
      ensures Rearranged(old(h), h) && Loads(h) == Swapped(old(Loads(h)), i, j)
    {
      h[i].heapidx, h[j].heapidx := h[j].heapidx, h[i].heapidx;
      h := h[i := h[j]][j := h[i]];
      forall e | e in old(h)
        ensures e in h
      {
        var k :| 0 <= k < |h| && old(h)[k] == e;
        assert h[if k == i then j else if k == j then i else k] == e;
      }
    }

    /** up. */
    method Up(j0: nat)
      requires Indexed(h) && HeapButUp(Loads(h), j0)
      modifies this, Elements(h)`heapidx
      ensures Indexed(h) && Rearranged(old(h), h) && MinHeap(Loads(h))
    {
      var j := j0;
      while true
        invariant Indexed(h) && Rearranged(old(h), h) && HeapButUp(Loads(h), j)
        decreases j
      {
        var i := Parent(j);
        if i == j || !(h[j].CPUPercent < h[i].CPUPercent) {
          break;
        }
        UpStep(Loads(h), j);
        Swap(i, j);
        j := i;
      }
      assert forall k: nat | k < |h| && k != j :: Ordered(Loads(h), k);
      assert Ordered(Loads(h), j);
    }

    /** down; it reports whether anything moved. */
    method Down(i0: nat) returns (moved: bool)
      requires Indexed(h) && HeapExcept(Loads(h), i0)
      modifies this, Elements(h)`heapidx
      ensures Indexed(h) && Rearranged(old(h), h)
      ensures moved ==> MinHeap(Loads(h))
      ensures !moved ==> h == old(h) && HeapButUp(Loads(h), i0)
    {
      var i := i0;
      while true
        invariant Indexed(h) && Rearranged(old(h), h) && i0 <= i && HeapExcept(Loads(h), i)
        invariant i == i0 ==> h == old(h)
        invariant i > i0 ==> Ordered(Loads(h), i)
        decreases |h| - i
      {
        var j := SmallerChild(i);
        if j >= |h| || !(h[j].CPUPercent < h[i].CPUPercent) {
          break;
        }
        DownStep(Loads(h), i, j);
        Swap(i, j);
        i := j;
      }
      Settled(Loads(h), i);
      moved := i > i0;
    }

    /** The child of `i` with the smaller load; past the end when there is none. */
    method SmallerChild(i: nat) returns (j: nat)
      requires i < |h|
      ensures j >= |h| ==> forall k: nat | k < |h| && k != i :: Parent(k) != i
      ensures j < |h| ==> j != i && Parent(j) == i
      ensures j < |h| ==> forall k: nat | k < |h| && k != i && Parent(k) == i :: Loads(h)[j] <= Loads(h)[k]
    {
      j := 2 * i + 1;
      if j + 1 < |h| && h[j + 1].CPUPercent < h[j].CPUPercent {
        j := j + 1;
      }
    }

    /** heap.Fix. */
    method Fix(i: nat)
      requires Indexed(h) && HeapExcept(Loads(h), i)
      modifies this, Elements(h)`heapidx
      ensures Indexed(h) && Rearranged(old(h), h) && MinHeap(Loads(h))
    {
      var moved := Down(i);
      if !moved {
        Up(i);
      }
    }

    /** A new game: its entry is pushed with no load. */
    method NewGame(gameid: nat) returns (e: Entry)
      requires Valid() && forall x | x in Elements(h) :: x.gameid != gameid
      modifies this, Elements(h)`heapidx
      ensures Valid() && fresh(e) && e.gameid == gameid && e.CPUPercent == 0.0 && e.origCPUPercent == 0.0
      ensures |h| == |old(h)| + 1 && Elements(h) == old(Elements(h)) + {e}
    {
      e := new Entry(gameid, |h|);
      ghost var before := Loads(h);
      e.heapidx := |h|;
      h := h + [e];
      assert Elements(h) == old(Elements(h)) + {e};
      assert Loads(h) == before + [0.0];
      Extended(before, 0.0);
      Up(|h| - 1);
    }

    /** handleGameLBCInfo: a game reports its load, scaled by a factor from 1.0 to 1.1. */
    method Report(e: Entry, load: real)
      requires Valid() && e in Elements(h)
      modifies this, Elements(h)`heapidx, e
      ensures Valid() && Rearranged(old(h), h) && e.CPUPercent == load && e.origCPUPercent == load
    {
      ghost var before := Loads(h);
      var i := e.heapidx;
      e.origCPUPercent := load;
      e.CPUPercent := load;
      Disturbed(before, Loads(h), i);
      Fix(i);
    }

    /** chosen: the entry's load grows a little, up to a limit. */
    method Chosen(i: nat)
      requires Valid() && i < |h|
      modifies this, Elements(h)`heapidx, {h[i]}`CPUPercent
      ensures Valid() && Rearranged(old(h), h)
      ensures
        var e := old(h)[i];
        e.CPUPercent == old(e.CPUPercent) + if old(e.CPUPercent < e.origCPUPercent + 10.0) then 0.1 else 0.0
    {
      var e := h[i];
      if e.CPUPercent < e.origCPUPercent + 10.0 {
        ghost var before := Loads(h);
        e.CPUPercent := e.CPUPercent + 0.1;
        Disturbed(before, Loads(h), i);
        Fix(i);
      }
    }

    /**
      chooseGame: the game with the least load, which then counts a little more, unless it counts
      10 more than it reported already; no other load changes.
    */
    method ChooseGame() returns (top: Entry?)
      requires Valid()
      modifies this, Elements(h)`heapidx, (if h == [] then {} else {h[0]})`CPUPercent
      ensures Valid() && Rearranged(old(h), h)
      ensures top == null <==> old(h) == []
      ensures top != null ==> top in old(Elements(h)) && forall e | e in old(Elements(h)) :: old(top.CPUPercent) <= old(e.CPUPercent)
      ensures forall e | e in old(Elements(h)) ::
                e.CPUPercent == old(e.CPUPercent) + if e == top && old(e.CPUPercent < e.origCPUPercent + 10.0) then 0.1 else 0.0
    {
      if |h| == 0 {
        return null;
      }
      top := h[0];
      forall e | e in Elements(h)
        ensures top.CPUPercent <= e.CPUPercent
      {
        var k :| 0 <= k < |h| && h[k] == e;
        TopIsLeast(Loads(h), k);
      }
      Chosen(0);
    }

    /** As many choices as there are games, all with the same load: each game is chosen once. */
    method ChooseEach(load: real) returns (chosen: seq<Entry>)
      requires Valid() && forall e | e in Elements(h) :: e.CPUPercent == load < e.origCPUPercent + 10.0
      modifies this, Elements(h)`heapidx, Elements(h)`CPUPercent
      ensures Valid() && Rearranged(old(h), h) && |chosen| == |old(h)|
      ensures forall i, j | 0 <= i < j < |chosen| :: chosen[i] != chosen[j]
      ensures forall e | e in old(Elements(h)) :: e in chosen && e.CPUPercent == load + 0.1
    {
      chosen := [];
      ghost var left := Elements(h);
      ElementCount(h);
      var n := |h|;
      for k := 0 to n
        invariant Valid() && Rearranged(old(h), h) && |chosen| == k && left <= Elements(h) && |left| == n - k
        invariant forall e | e in Elements(h) :: (e in chosen <==> e !in left) && e.CPUPercent == if e in left then load else load + 0.1
        invariant forall e | e in chosen :: e in Elements(h)
        invariant forall i, j | 0 <= i < j < |chosen| :: chosen[i] != chosen[j]
      {
        var top := ChooseGame();
        ghost var other :| other in left;
        assert old(top.CPUPercent) == load && top in left;
        assert forall i | 0 <= i < |chosen| :: chosen[i] in chosen;
        chosen := chosen + [top];
        left := left - {top};
      }
    }
  }

  /** No entry occurs twice. */
  lemma {:induction false} ElementCount(h: seq<Entry>)
    requires Indexed(h)
    ensures |Elements(h)| == |h|
  {
    Distinct(h);
  }

  lemma {:induction false} Distinct(h: seq<Entry>)
    requires forall j, k | 0 <= j < k < |h| :: h[j] != h[k]
    ensures |Elements(h)| == |h|
  {
    if |h| > 0 {
      var n := |h| - 1;
      Distinct(h[..n]);
      assert Elements(h) == Elements(h[..n]) + {h[n]};
      assert h[n] !in Elements(h[..n]);
    }
  }

  lemma Extended(l: seq<real>, x: real)
    requires MinHeap(l)
    ensures HeapButUp(l + [x], |l|)
  {
    assert forall k: nat | k < |l| :: Ordered(l, k) ==> Ordered(l + [x], k);
  }

  /** A heap in which one number was changed. */
  lemma Disturbed(l: seq<real>, l': seq<real>, i: nat)
    requires MinHeap(l) && i < |l| == |l'| && l' == l[i := l'[i]]
    ensures HeapExcept(l', i)
  {
    forall k: nat | k < |l| && k != i && Parent(k) != i
      ensures Ordered(l', k)
    {
      assert Ordered(l, k);
    }
    forall k: nat | k < |l| && k != i && Parent(k) == i && i > 0
      ensures l'[Parent(i)] <= l'[k]
    {
      assert Ordered(l, k) && Ordered(l, i);
    }
  }

  /** Once `i` is in order with its children, only its parent can be out of order. */
  lemma Settled(l: seq<real>, i: nat)
    requires HeapExcept(l, i) && forall k: nat | k < |l| && k != i && Parent(k) == i :: Ordered(l, k)
    ensures HeapButUp(l, i) && (Ordered(l, i) ==> MinHeap(l))
  {
  }
}
