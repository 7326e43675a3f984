/** A binary min-heap of nonces in a slice, with the sifting of Go's container/heap. */
module NonceHeap {

  function Parent(i: nat): nat
    requires i > 0
  {
    (i - 1) / 2
  }

  predicate LinkOk(h: seq<nat>, i: nat) {
    0 < i < |h| ==> h[Parent(i)] <= h[i]
  }

  ghost predicate IsHeap(h: seq<nat>) {
    forall i: nat :: LinkOk(h, i)
  }

  /** The first entry is the least. */
  lemma {:induction false} RootIsLeast(h: seq<nat>, k: nat)
    requires IsHeap(h) && k < |h|
    ensures h[0] <= h[k]
  {
    if k > 0 {
      assert LinkOk(h, k);
      RootIsLeast(h, Parent(k));
    }
  }

  function Swap(h: seq<nat>, i: nat, j: nat): (r: seq<nat>)
    requires i < |h| && j < |h|
    ensures |r| == |h| && multiset(r) == multiset(h)
  {
    h[i := h[j]][j := h[i]]
  }

  // ------------------------------------------------------------------------ sifting up

  /** A heap but for the link above j, which may be broken. */
  ghost predicate UpTo(h: seq<nat>, j: nat) {
    && (forall i: nat :: i != j ==> LinkOk(h, i))
    && (forall i: nat | 0 < i < |h| && Parent(i) == j && 0 < j < |h| :: h[Parent(j)] <= h[i])
  }

  lemma {:induction false} UpStep(h: seq<nat>, j: nat, r: seq<nat>)
    requires 0 < j < |h| && UpTo(h, j) && h[j] < h[Parent(j)] && r == Swap(h, Parent(j), j)
    ensures UpTo(r, Parent(j))
  {
    var p := Parent(j);
    forall i: nat | i != p
      ensures LinkOk(r, i)
    {
      assert i != j ==> LinkOk(h, i);
    }
    forall i: nat | 0 < i < |r| && Parent(i) == p && 0 < p < |r|
      ensures r[Parent(p)] <= r[i]
    {
      assert LinkOk(h, p) && (i != j ==> LinkOk(h, i));
    }
  }

  method Up(h: seq<nat>, j0: nat) returns (r: seq<nat>)
    requires j0 < |h| && UpTo(h, j0)
    ensures IsHeap(r) && multiset(r) == multiset(h) && |r| == |h|
  {
    var j := j0;
    r := h;
    while j > 0 && r[j] < r[Parent(j)]
      invariant 0 <= j < |r| == |h| && multiset(r) == multiset(h) && UpTo(r, j)
    {
      ghost var before := r;
      r := Swap(r, Parent(j), j);
      UpStep(before, j, r);
      j := Parent(j);
    }
    assert LinkOk(r, j);
  }

  // ---------------------------------------------------------------------- sifting down

  predicate LinkFrom(h: seq<nat>, lo: nat, i: nat) {
    0 < i < |h| && Parent(i) >= lo ==> h[Parent(i)] <= h[i]
  }

  /** All links from lo on hold, but for the ones below j, and the one above it while
      j is still where the sifting began. */
  ghost predicate DownFrom(h: seq<nat>, lo: nat, top: nat, j: nat) {
    && (forall i: nat :: (i > 0 ==> Parent(i) != j) && (i != top || j != top) ==> LinkFrom(h, lo, i))
    && (forall i: nat | 0 < i < |h| && Parent(i) == j && 0 < j < |h| && Parent(j) >= lo :: h[Parent(j)] <= h[i])
  }

  lemma {:induction false} DownStep(h: seq<nat>, lo: nat, top: nat, i: nat, j: nat, r: seq<nat>)
    requires DownFrom(h, lo, top, i) && lo <= top <= i < j < |h| && Parent(j) == i && h[j] < h[i] && r == Swap(h, i, j)
    requires forall k: nat | 0 < k < |h| && Parent(k) == i :: h[j] <= h[k]
    ensures DownFrom(r, lo, top, j)
  {
    forall k: nat | k > 0 ==> Parent(k) != j
      ensures LinkFrom(r, lo, k)
    {
      if 0 < k < |h| && Parent(k) != i && k != i {
        assert LinkFrom(h, lo, k);
      }
    }
    forall k: nat | 0 < k < |r| && Parent(k) == j && 0 < j < |r| && Parent(j) >= lo
      ensures r[Parent(j)] <= r[k]
    {
      assert LinkFrom(h, lo, k);
    }
  }

  /** The lesser child of i, or i itself when it is not greater than its children. */
  function Child(h: seq<nat>, i: nat): (j: nat)
    requires i < |h|
    ensures i <= j < |h| && (j > i ==> Parent(j) == i && h[j] < h[i])
    ensures forall k: nat | 0 < k < |h| && Parent(k) == i :: h[j] <= h[k]
  {
    var l := 2 * i + 1;
    if l >= |h| then i
    else
      var j := if l + 1 < |h| && h[l + 1] < h[l] then l + 1 else l;
      assert forall k: nat | 0 < k < |h| && Parent(k) == i :: k == l || k == l + 1;
      if h[j] < h[i] then j else i
  }

  method Down(h: seq<nat>, ghost lo: nat, top: nat) returns (r: seq<nat>, moved: bool)
    requires lo <= top < |h| && DownFrom(h, lo, top, top)
    ensures multiset(r) == multiset(h) && |r| == |h|
    ensures forall i: nat :: moved || i != top ==> LinkFrom(r, lo, i)
    ensures !moved ==> r == h
  {
    var i := top;
    r := h;
    var j := Child(r, i);
    while j != i
      invariant top <= i <= j < |r| == |h| && multiset(r) == multiset(h) && DownFrom(r, lo, top, i) && j == Child(r, i)
      invariant i == top ==> r == h
      decreases |r| - i
    {
      ghost var before := r;
      r := Swap(r, i, j);
      DownStep(before, lo, top, i, j, r);
      i := j;
      j := Child(r, i);
    }
    moved := i > top;
  }

  // ------------------------------------------------------------------------ operations

  method Init(h: seq<nat>) returns (r: seq<nat>)
    ensures IsHeap(r) && multiset(r) == multiset(h) && |r| == |h|
  {
    r := h;
    var i := |h| / 2;
    while i > 0
      invariant 0 <= i <= |r| / 2 && |r| == |h| && multiset(r) == multiset(h)
      invariant forall k: nat :: LinkFrom(r, i, k)
    {
      i := i - 1;
      forall k: nat | k > 0 ==> Parent(k) != i
        ensures LinkFrom(r, i, k)
      {
        assert LinkFrom(r, i + 1, k);
      }
      var moved;
      r, moved := Down(r, i, i);
    }
    assert forall k: nat :: LinkFrom(r, 0, k) ==> LinkOk(r, k);
  }

  method Push(h: seq<nat>, x: nat) returns (r: seq<nat>)
    requires IsHeap(h)
    ensures IsHeap(r) && multiset(r) == multiset(h) + multiset{x}
  {
    var g := h + [x];
    forall i: nat | i != |h|
      ensures LinkOk(g, i)
    {
      assert LinkOk(h, i);
    }
    r := Up(g, |h|);
  }

  /** Takes entry i out: the last entry fills its place and is sifted down or up. */
  method Remove(h: seq<nat>, i: nat) returns (r: seq<nat>)
    requires IsHeap(h) && i < |h|
    ensures IsHeap(r) && multiset(r) == multiset(h) - multiset{h[i]} && |r| == |h| - 1
  {
    var n := |h| - 1;
    if n == i {
      r := h[..n];
      LastOut(h);
      PrefixHeap(h);
    } else {
      FilledDown(h, i);
      FilledOut(h, i);
      r := Fix(Filled(h, i), i);
    }
  }

  lemma {:induction false} FilledOut(h: seq<nat>, i: nat)
    requires i < |h| - 1
    ensures multiset(Filled(h, i)) == multiset(h) - multiset{h[i]}
  {
    var g := Swap(h, i, |h| - 1);
    LastOut(g);
    assert g[|g| - 1] == h[i];
  }

  method Fix(h: seq<nat>, i: nat) returns (r: seq<nat>)
    requires i < |h| && DownFrom(h, 0, i, i)
    ensures IsHeap(r) && multiset(r) == multiset(h) && |r| == |h|
  {
    var moved;
    r, moved := Down(h, 0, i);
    assert forall k: nat :: LinkFrom(r, 0, k) ==> LinkOk(r, k);
    if !moved {
      r := Up(r, i);
    }
  }

  lemma {:induction false} PrefixHeap(h: seq<nat>)
    requires IsHeap(h) && h != []
    ensures IsHeap(h[..|h| - 1])
  {
    var r := h[..|h| - 1];
    forall k: nat
      ensures LinkOk(r, k)
    {
      assert LinkOk(h, k);
    }
  }

  /** Takes the least entry out. */
  method Pop(h: seq<nat>) returns (r: seq<nat>, x: nat)
    requires IsHeap(h) && h != []
    ensures IsHeap(r) && multiset(r) == multiset(h) - multiset{x} && |r| == |h| - 1
    ensures x == h[0] && forall k | 0 <= k < |h| :: x <= h[k]
  {
    x := h[0];
    forall k | 0 <= k < |h|
      ensures x <= h[k]
    {
      RootIsLeast(h, k);
    }
    r := Remove(h, 0);
  }

  lemma LastOut(g: seq<nat>)
    requires g != []
    ensures multiset(g[..|g| - 1]) == multiset(g) - multiset{g[|g| - 1]}
  {
    assert g == g[..|g| - 1] + [g[|g| - 1]];
  }

  /** h with its last entry moved to place i. */
  function Filled(h: seq<nat>, i: nat): (g: seq<nat>)
    requires i < |h| - 1
  {
    Swap(h, i, |h| - 1)[..|h| - 1]
  }

  lemma {:induction false} FilledDown(h: seq<nat>, i: nat)
    requires IsHeap(h) && i < |h| - 1
    ensures DownFrom(Filled(h, i), 0, i, i)
  {
    var g := Filled(h, i);
    forall k: nat | (k > 0 ==> Parent(k) != i) && k != i
      ensures LinkFrom(g, 0, k)
    {
      assert LinkOk(h, k);
    }
    forall k: nat | 0 < k < |g| && Parent(k) == i && 0 < i < |g|
      ensures g[Parent(i)] <= g[k]
    {
      assert LinkOk(h, k) && LinkOk(h, i);
    }
  }
}
