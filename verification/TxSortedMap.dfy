/** An account's transactions: a map by nonce, a heap of its nonces and a cache of
    the contents in nonce order. */
module TxSortedMap {
  import opened PoolLists
  import opened NonceHeap

  datatype Cache = Absent | Cached(txs: seq<Tx>)

  predicate Keyed(m: Txs) {
    forall n | n in m :: m[n].nonce == n
  }

  // ------------------------------------------------------------------------ nonce order

  predicate Before(s: seq<Tx>, i: nat, j: nat) {
    i < j < |s| ==> s[i].nonce < s[j].nonce
  }

  /** s holds the contents of m in nonce order. */
  ghost predicate Ordered(s: seq<Tx>, m: Txs) {
    && (forall i: nat, j: nat :: Before(s, i, j))
    && (forall i | 0 <= i < |s| :: s[i].nonce in m && m[s[i].nonce] == s[i])
    && (forall n | n in m :: m[n] in s)
  }

  ghost function Sorted(m: Txs): (s: seq<Tx>)
    decreases |m|
  {
    if m.Keys == {} then []
    else
      var n := MinOf(m.Keys);
      assert m.Keys == (m - {n}).Keys + {n};
      [m[n]] + Sorted(m - {n})
  }

  lemma {:induction false} SortedOrdered(m: Txs)
    requires Keyed(m)
    ensures Ordered(Sorted(m), m)
    decreases |m|
  {
    if m.Keys != {} {
      var n := MinOf(m.Keys);
      var rest := m - {n};
      assert m.Keys == rest.Keys + {n};
      SortedOrdered(rest);
      LeastFirst(m, n, rest, Sorted(rest));
    }
  }

  lemma {:induction false} LeastFirst(m: Txs, n: nat, rest: Txs, s: seq<Tx>)
    requires Keyed(m) && n in m && (forall k | k in m :: n <= k) && rest == m - {n} && Ordered(s, rest)
    ensures Ordered([m[n]] + s, m)
  {
    assert Ordered([m[n]], map[n := m[n]]);
    OrderedJoin(map[n := m[n]], rest, m, [m[n]], s);
  }

  predicate Lower(a: Txs, b: Txs, x: nat, y: nat) {
    x in a && y in b ==> x < y
  }

  /** All of a's nonces are lower than all of b's. */
  ghost predicate AllLower(a: Txs, b: Txs) {
    forall x: nat, y: nat :: Lower(a, b, x, y)
  }

  /** Lower nonces come first. */
  lemma {:induction false} OrderedJoin(a: Txs, b: Txs, m: Txs, s: seq<Tx>, t: seq<Tx>)
    requires m == a + b && AllLower(a, b)
    requires Ordered(s, a) && Ordered(t, b)
    ensures Ordered(s + t, m)
  {
    var r := s + t;
    forall i: nat, j: nat
      ensures Before(r, i, j)
    {
      if j < |s| {
        assert Before(s, i, j);
      } else if i >= |s| {
        assert Before(t, i - |s|, j - |s|);
      } else if i < j < |r| {
        assert Lower(a, b, s[i].nonce, t[j - |s|].nonce);
      }
    }
    forall i | 0 <= i < |r|
      ensures r[i].nonce in m && m[r[i].nonce] == r[i]
    {
      if i < |s| {
        assert Lower(a, b, s[i].nonce, s[i].nonce);
      }
    }
    forall n | n in m
      ensures m[n] in r
    {
      assert if n in b then b[n] in t else a[n] in s;
    }
  }

  lemma {:induction false} OrderedEmpty(a: seq<Tx>, m: Txs)
    requires Ordered(a, m)
    ensures a == [] <==> m.Keys == {}
  {
    assert a != [] ==> a[0].nonce in m;
    assert m.Keys == {} || exists n :: n in m && m[n] in a;
  }

  /** There is only one nonce order. */
  lemma {:induction false} OrderedUnique(a: seq<Tx>, b: seq<Tx>, m: Txs)
    requires Keyed(m) && Ordered(a, m) && Ordered(b, m)
    ensures a == b
    decreases |a|
  {
    OrderedEmpty(a, m);
    OrderedEmpty(b, m);
    if a != [] {
      OrderedFirst(a, b, m);
      OrderedFirst(b, a, m);
      var rest := m - {a[0].nonce};
      OrderedTail(a, m, rest);
      OrderedTail(b, m, rest);
      OrderedUnique(a[1..], b[1..], rest);
    }
  }

  lemma {:induction false} OrderedFirst(a: seq<Tx>, b: seq<Tx>, m: Txs)
    requires Ordered(a, m) && Ordered(b, m) && a != [] && b != []
    ensures a[0].nonce <= b[0].nonce && m[a[0].nonce] == a[0]
  {
    assert b[0] in a;
    var i: nat :| i < |a| && a[i] == b[0];
    assert Before(a, 0, i);
  }

  lemma {:induction false} OrderedTail(a: seq<Tx>, m: Txs, rest: Txs)
    requires Keyed(m) && Ordered(a, m) && a != [] && rest == m - {a[0].nonce}
    ensures Ordered(a[1..], rest)
  {
    var r := a[1..];
    forall i: nat, j: nat
      ensures Before(r, i, j)
    {
      assert Before(a, i + 1, j + 1);
    }
    forall i | 0 <= i < |r|
      ensures r[i].nonce in rest && rest[r[i].nonce] == r[i]
    {
      assert Before(a, 0, i + 1);
    }
    forall n | n in rest
      ensures rest[n] in r
    {
      assert m[n] in a;
    }
  }

  lemma {:induction false} SortedIs(m: Txs, s: seq<Tx>)
    requires Keyed(m) && Ordered(s, m)
    ensures Sorted(m) == s
  {
    SortedOrdered(m);
    OrderedUnique(Sorted(m), s, m);
  }

  lemma {:induction false} SortedJoin(a: Txs, b: Txs, m: Txs)
    requires Keyed(a) && Keyed(b) && Keyed(m) && m == a + b && AllLower(a, b)
    ensures Sorted(m) == Sorted(a) + Sorted(b)
  {
    SortedOrdered(a);
    SortedOrdered(b);
    OrderedJoin(a, b, m, Sorted(a), Sorted(b));
    SortedIs(m, Sorted(a) + Sorted(b));
  }

  lemma {:induction false} SortedOne(n: nat, tx: Tx)
    requires tx.nonce == n
    ensures Sorted(map[n := tx]) == [tx]
  {
    SortedIs(map[n := tx], [tx]);
  }

  lemma {:induction false} SortedLast(m: Txs)
    requires Keyed(m) && m.Keys != {}
    ensures Sorted(m) != [] && Sorted(m)[|Sorted(m)| - 1].nonce == MaxOf(m.Keys)
  {
    var s := Sorted(m);
    SortedOrdered(m);
    OrderedEmpty(s, m);
    assert m[MaxOf(m.Keys)] in s;
    var i: nat :| i < |s| && s[i] == m[MaxOf(m.Keys)];
    assert Before(s, i, |s| - 1);
  }

  // -------------------------------------------------------------------- the nonce index

  /** A heap over exactly the nonces held. */
  ghost predicate Indexes(index: seq<nat>, m: Txs) {
    IsHeap(index) && multiset(index) == multiset(m.Keys)
  }

  lemma {:induction false} IndexHolds(index: seq<nat>, m: Txs, n: nat)
    requires multiset(index) == multiset(m.Keys)
    ensures n in index <==> n in m
  {
    assert n in index <==> n in multiset(index);
  }

  lemma {:induction false} IndexWithout(index: seq<nat>, m: Txs, n: nat, after: seq<nat>)
    requires multiset(index) == multiset(m.Keys) && n in m && multiset(after) == multiset(index) - multiset{n}
    ensures multiset(after) == multiset((m - {n}).Keys)
  {
    assert (m - {n}).Keys == m.Keys - {n};
  }

  lemma {:induction false} IndexWith(index: seq<nat>, m: Txs, tx: Tx, after: seq<nat>)
    requires multiset(index) == multiset(m.Keys) && tx.nonce !in m
    requires multiset(after) == multiset(index) + multiset{tx.nonce}
    ensures multiset(after) == multiset(m[tx.nonce := tx].Keys)
  {
    assert m[tx.nonce := tx].Keys == m.Keys + {tx.nonce};
  }

  /** The nonces held, in no particular order. */
  method NoncesOf(m: Txs) returns (s: seq<nat>)
    ensures multiset(s) == multiset(m.Keys)
  {
    s := [];
    var left := m.Keys;
    while left != {}
      invariant left <= m.Keys && multiset(s) == multiset(m.Keys - left)
    {
      var n :| n in left;
      assert m.Keys - (left - {n}) == (m.Keys - left) + {n};
      s, left := s + [n], left - {n};
    }
    assert m.Keys - left == m.Keys;
  }

  /** Sorts by nonce. */
  method SortNonces(h: seq<nat>) returns (s: seq<nat>)
    ensures multiset(s) == multiset(h) && |s| == |h|
    ensures forall i, j | 0 <= i < j < |s| :: s[i] <= s[j]
  {
    var g := Init(h);
    s := [];
    while g != []
      invariant IsHeap(g) && multiset(s) + multiset(g) == multiset(h) && |s| + |g| == |h|
      invariant forall i, j | 0 <= i < j < |s| :: s[i] <= s[j]
      invariant forall i, x | 0 <= i < |s| && x in multiset(g) :: s[i] <= x
      decreases |g|
    {
      var x;
      ghost var before := g;
      g, x := Pop(g);
      assert x in multiset(before) && forall y | y in multiset(g) :: y in multiset(before);
      s := s + [x];
    }
  }

  lemma {:induction false} NoneTwice(s: seq<nat>, keys: set<nat>, i: nat, j: nat)
    requires multiset(s) == multiset(keys) && i < j < |s|
    ensures s[i] != s[j]
  {
    assert s == s[..j] + s[j..];
    assert s[i] in multiset(s[..j]) && s[j] in multiset(s[j..]);
    assert multiset(s)[s[i]] <= 1;
  }

  lemma {:induction false} AscendingIsSorted(m: Txs, s: seq<nat>, r: seq<Tx>)
    requires Keyed(m) && multiset(s) == multiset(m.Keys) && (forall i, j | 0 <= i < j < |s| :: s[i] <= s[j])
    requires |r| == |s| && (forall i | 0 <= i < |s| :: s[i] in m && r[i] == m[s[i]])
    ensures r == Sorted(m)
  {
    forall i: nat, j: nat
      ensures Before(r, i, j)
    {
      if i < j < |r| {
        NoneTwice(s, m.Keys, i, j);
      }
    }
    forall n | n in m
      ensures m[n] in r
    {
      IndexHolds(s, m, n);
      var i :| 0 <= i < |s| && s[i] == n;
      assert r[i] == m[n];
    }
    SortedIs(m, r);
  }

  method SortTxs(m: Txs) returns (r: seq<Tx>)
    requires Keyed(m)
    ensures r == Sorted(m)
  {
    var nonces := NoncesOf(m);
    nonces := SortNonces(nonces);
    forall i | 0 <= i < |nonces|
      ensures nonces[i] in m
    {
      IndexHolds(nonces, m, nonces[i]);
    }
    r := seq(|nonces|, i requires 0 <= i < |nonces| => m[nonces[i]]);
    AscendingIsSorted(m, nonces, r);
  }

  // --------------------------------------------------------- taking from the lower end

  /** m split into the lowest nonces, already taken out in order, and the rest. */
  ghost predicate Split(m: Txs, gone: Txs, rest: Txs, taken: seq<Tx>) {
    Keyed(gone) && Keyed(rest) && m == gone + rest && AllLower(gone, rest) && taken == Sorted(gone)
  }

  lemma {:induction false} TakeOne(m: Txs, gone: Txs, rest: Txs, taken: seq<Tx>, n: nat, rest': Txs)
    requires Split(m, gone, rest, taken) && n in rest && (forall k | k in rest :: n <= k) && rest' == rest - {n}
    ensures n in m && Split(m, gone[n := m[n]], rest', taken + [m[n]])
  {
    assert Lower(gone, rest, n, n);
    var one, gone' := map[n := rest[n]], gone[n := rest[n]];
    forall x: nat, y: nat
      ensures Lower(gone, one, x, y) && Lower(gone', rest', x, y)
    {
      assert Lower(gone, rest, x, n) && Lower(gone, rest, x, y);
    }
    SortedOne(n, rest[n]);
    SortedJoin(gone, one, gone');
    MoveOne(gone, rest, n);
  }

  lemma {:induction false} MoveOne(gone: Txs, rest: Txs, n: nat)
    requires n in rest && n !in gone
    ensures gone + rest == gone[n := rest[n]] + (rest - {n})
  {
  }

  lemma {:induction false} SplitSorted(m: Txs, gone: Txs, rest: Txs, taken: seq<Tx>)
    requires Split(m, gone, rest, taken)
    ensures |taken| <= |Sorted(m)| && Sorted(m)[|taken|..] == Sorted(rest)
  {
    SortedJoin(gone, rest, m);
  }

  /** Pops the least nonce. */
  method TakeLeast(m: Txs, index: seq<nat>) returns (rest: Txs, index': seq<nat>, n: nat)
    requires Indexes(index, m) && index != []
    ensures n == index[0] && n in m && (forall k | k in m :: n <= k)
    ensures rest == m - {n} && Indexes(index', rest) && |index'| == |index| - 1
  {
    index', n := Pop(index);
    IndexHolds(index, m, n);
    forall k | k in m
      ensures n <= k
    {
      IndexHolds(index, m, k);
    }
    IndexWithout(index, m, n, index');
    rest := m - {n};
  }

  method PopBelow(m: Txs, index: seq<nat>, threshold: nat)
    returns (rest: Txs, left: seq<nat>, removed: seq<Tx>)
    requires Keyed(m) && Indexes(index, m)
    ensures rest == m - TooOld(m, threshold) && Indexes(left, rest)
    ensures Split(m, Restrict(m, TooOld(m, threshold)), rest, removed)
  {
    rest, left, removed := m, index, [];
    ghost var gone: Txs := map[];
    while left != [] && left[0] < threshold
      invariant Split(m, gone, rest, removed) && Indexes(left, rest)
      invariant forall n | n in gone :: n < threshold
      decreases |left|
    {
      ghost var held := rest;
      var n;
      rest, left, n := TakeLeast(rest, left);
      TakeOne(m, gone, held, removed, n, rest);
      gone, removed := gone[n := m[n]], removed + [m[n]];
    }
    RestIsHigh(rest, left, threshold);
    OldTaken(m, gone, rest, threshold);
  }

  /** What is left of a cached order when its front was taken. */
  method ShiftFront(ghost m: Txs, ghost rest: Txs, cache: Cache, removed: seq<Tx>, ghost threshold: nat)
    returns (r: Cache)
    requires cache.Cached? ==> cache.txs == Sorted(m)
    requires Split(m, Restrict(m, TooOld(m, threshold)), rest, removed)
    ensures r.Cached? ==> r.txs == Sorted(rest)
  {
    SplitSorted(m, Restrict(m, TooOld(m, threshold)), rest, removed);
    match cache
    case Absent => r := Absent;
    case Cached(txs) => r := Cached(txs[|removed|..]);
  }

  lemma {:induction false} OldTaken(m: Txs, gone: Txs, rest: Txs, threshold: nat)
    requires m == gone + rest
    requires (forall n | n in gone :: n < threshold) && (forall n | n in rest :: n >= threshold)
    ensures gone == Restrict(m, TooOld(m, threshold)) && rest == m - TooOld(m, threshold)
  {
    assert TooOld(m, threshold) == gone.Keys;
  }

  lemma {:induction false} RestIsHigh(rest: Txs, left: seq<nat>, threshold: nat)
    requires Indexes(left, rest) && (left == [] || left[0] >= threshold)
    ensures forall n | n in rest :: n >= threshold
  {
    forall n | n in rest
      ensures n >= threshold
    {
      IndexHolds(left, rest, n);
      var i: nat :| i < |left| && left[i] == n;
      RootIsLeast(left, i);
    }
  }

  lemma {:induction false} NotReady(m: Txs, index: seq<nat>, start: nat)
    requires Keyed(m) && Indexes(index, m) && (index == [] || index[0] > start)
    ensures ReadySet(m, start) == {} && Restrict(m, {}) == map[] && Sorted(map[]) == []
  {
    RestIsHigh(m, index, start + 1);
  }

  /** Exactly the nonces from first to next are taken. */
  ghost predicate RunTo(gone: Txs, rest: Txs, first: nat, next: nat) {
    (forall n: nat :: n in gone <==> first <= n < next) && forall n | n in rest :: next <= n
  }

  lemma {:induction false} RunStep(gone: Txs, rest: Txs, first: nat, next: nat, tx: Tx, rest': Txs)
    requires RunTo(gone, rest, first, next) && first <= next && rest' == rest - {next}
    ensures RunTo(gone[next := tx], rest', first, next + 1)
  {
  }

  method PopRun(m: Txs, index: seq<nat>, start: nat) returns (rest: Txs, left: seq<nat>, ready: seq<Tx>)
    requires Keyed(m) && Indexes(index, m) && index != [] && index[0] <= start
    ensures Keyed(rest) && Indexes(left, rest) && rest == m - ReadySet(m, start)
    ensures ready == Sorted(Restrict(m, ReadySet(m, start)))
  {
    RestIsHigh(m, index, index[0]);
    IndexHolds(index, m, index[0]);
    var next := index[0];
    rest, left, ready := m, index, [];
    ghost var gone: Txs := map[];
    while left != [] && left[0] == next
      invariant Split(m, gone, rest, ready) && Indexes(left, rest) && index[0] <= next
      invariant RunTo(gone, rest, index[0], next)
      invariant next == index[0] ==> left == index
      decreases |left|
    {
      ghost var held := rest;
      var n;
      rest, left, n := TakeLeast(rest, left);
      TakeOne(m, gone, held, ready, n, rest);
      RunStep(gone, held, index[0], next, m[n], rest);
      gone, ready := gone[n := m[n]], ready + [m[n]];
      next := next + 1;
    }
    NextMissing(gone, rest, left, index[0], next);
    RunTaken(m, gone, rest, start, index[0], next);
  }

  lemma {:induction false} NextMissing(gone: Txs, rest: Txs, left: seq<nat>, first: nat, next: nat)
    requires Indexes(left, rest) && (left == [] || left[0] != next) && RunTo(gone, rest, first, next)
    ensures next !in rest
  {
    if left != [] {
      IndexHolds(left, rest, left[0]);
      RestIsHigh(rest, left, left[0]);
    } else {
      RestIsHigh(rest, left, next + 1);
    }
  }

  lemma {:induction false} RunTaken(m: Txs, gone: Txs, rest: Txs, start: nat, first: nat, next: nat)
    requires m == gone + rest && first <= start && first < next && next !in rest
    requires RunTo(gone, rest, first, next)
    ensures gone == Restrict(m, ReadySet(m, start)) && rest == m - ReadySet(m, start)
  {
    assert first in m && forall n | n in m :: first <= n;
    assert MinOf(m.Keys) == first;
    assert RunEnd(m.Keys, first) == next;
    assert ReadySet(m, start) == gone.Keys;
  }

  // ------------------------------------------------------- taking from the upper end

  ghost function NonceSet(s: seq<Tx>): set<nat> {
    set i | 0 <= i < |s| :: s[i].nonce
  }

  lemma {:induction false} NonceCount(s: seq<Tx>)
    requires forall i: nat, j: nat :: Before(s, i, j)
    ensures |NonceSet(s)| == |s|
  {
    if s != [] {
      var last := |s| - 1;
      var t := s[..last];
      forall i: nat, j: nat
        ensures Before(t, i, j)
      {
        assert Before(s, i, j);
      }
      NonceCount(t);
      forall x | x in NonceSet(t)
        ensures x < s[last].nonce
      {
        var i: nat :| i < |t| && t[i].nonce == x;
        assert Before(s, i, last);
      }
      assert NonceSet(s) == NonceSet(t) + {s[last].nonce};
    }
  }

  /** The first k in nonce order are the k lowest. */
  lemma {:induction false} PrefixIsLowest(m: Txs, k: nat)
    requires Keyed(m) && k <= |Sorted(m)|
    ensures |Sorted(m)| == |m| && Lowest(m.Keys, k) == NonceSet(Sorted(m)[..k])
  {
    var s := Sorted(m);
    SortedOrdered(m);
    NonceCount(s);
    assert NonceSet(s) == m.Keys;
    var t := s[..k];
    forall i: nat, j: nat
      ensures Before(t, i, j)
    {
      assert Before(s, i, j);
    }
    NonceCount(t);
    forall x, y | x in NonceSet(t) && y in m.Keys && y !in NonceSet(t)
      ensures x < y
    {
      PrefixBelow(s, k, x, y);
    }
    LowestUnique(NonceSet(t), Lowest(m.Keys, k), m.Keys, k);
  }

  lemma {:induction false} PrefixBelow(s: seq<Tx>, k: nat, x: nat, y: nat)
    requires (forall i: nat, j: nat :: Before(s, i, j)) && k <= |s|
    requires x in NonceSet(s[..k]) && y in NonceSet(s) && y !in NonceSet(s[..k])
    ensures x < y
  {
    var t := s[..k];
    var i: nat :| i < k && t[i].nonce == x;
    var j: nat :| j < |s| && s[j].nonce == y;
    assert forall q: nat | q < k :: t[q].nonce in NonceSet(t);
    assert Before(s, i, j);
  }

  lemma {:induction false} PrefixSorted(m: Txs, k: nat)
    requires Keyed(m) && k <= |Sorted(m)|
    ensures Sorted(Restrict(m, NonceSet(Sorted(m)[..k]))) == Sorted(m)[..k]
  {
    var s := Sorted(m);
    SortedOrdered(m);
    var t := s[..k];
    var r := Restrict(m, NonceSet(t));
    forall i: nat, j: nat
      ensures Before(t, i, j)
    {
      assert Before(s, i, j);
    }
    SortedIs(r, t);
  }

  method DropHighest(m: Txs, index: seq<nat>, threshold: nat)
    returns (rest: Txs, left: seq<nat>, drops: seq<Tx>)
    requires Keyed(m) && Indexes(index, m) && threshold < |m|
    ensures rest == Restrict(m, Lowest(m.Keys, threshold)) && Keyed(rest) && Indexes(left, rest)
    ensures |Sorted(m)| == |m| && |drops| == |m| - threshold && Sorted(rest) == Sorted(m)[..threshold]
    ensures forall i | 0 <= i < |drops| :: drops[i] == Sorted(m)[|m| - 1 - i]
  {
    SortedSize(m);
    var s := SortNonces(index);
    SortedNonces(m, s);
    rest, drops := DropTop(m, s, threshold);
    left := Init(s[..threshold]);
    LowestLeft(m, s, threshold, rest);
  }

  method DropTop(m: Txs, s: seq<nat>, threshold: nat) returns (rest: Txs, drops: seq<Tx>)
    requires multiset(s) == multiset(m.Keys) && threshold <= |s| && (forall i | 0 <= i < |s| :: s[i] in m)
    ensures multiset(s[..threshold]) == multiset(rest.Keys)
    ensures forall n | n in rest :: n in m && rest[n] == m[n]
    ensures |drops| == |s| - threshold && forall i | 0 <= i < |drops| :: drops[i] == m[s[|s| - 1 - i]]
  {
    var size := |s|;
    rest, drops := m, [];
    assert s[..size] == s;
    while size > threshold
      invariant threshold <= size <= |s| && |drops| == |s| - size
      invariant multiset(s[..size]) == multiset(rest.Keys)
      invariant forall n | n in rest :: n in m && rest[n] == m[n]
      invariant forall i | 0 <= i < |drops| :: drops[i] == m[s[|s| - 1 - i]]
    {
      var n := s[size - 1];
      LastNonce(s, size, rest);
      drops, rest := drops + [rest[n]], rest - {n};
      size := size - 1;
    }
  }

  lemma {:induction false} LastNonce(s: seq<nat>, size: nat, rest: Txs)
    requires 0 < size <= |s| && multiset(s[..size]) == multiset(rest.Keys)
    ensures var n := s[size - 1]; n in rest && multiset(s[..size - 1]) == multiset((rest - {n}).Keys)
  {
    var t := s[..size];
    IndexHolds(t, rest, t[size - 1]);
    LastOut(t);
    assert t[..size - 1] == s[..size - 1];
    IndexWithout(t, rest, t[size - 1], s[..size - 1]);
  }

  lemma {:induction false} SortedSize(m: Txs)
    requires Keyed(m)
    ensures |Sorted(m)| == |m|
  {
    PrefixIsLowest(m, 0);
  }

  lemma {:induction false} SortedNonces(m: Txs, s: seq<nat>)
    requires Keyed(m) && multiset(s) == multiset(m.Keys) && (forall i, j | 0 <= i < j < |s| :: s[i] <= s[j])
    ensures |s| == |Sorted(m)| && forall i | 0 <= i < |s| :: s[i] in m && Sorted(m)[i] == m[s[i]]
  {
    forall i | 0 <= i < |s|
      ensures s[i] in m
    {
      IndexHolds(s, m, s[i]);
    }
    AscendingIsSorted(m, s, seq(|s|, i requires 0 <= i < |s| => m[s[i]]));
  }

  lemma {:induction false} LowestLeft(m: Txs, s: seq<nat>, k: nat, rest: Txs)
    requires Keyed(m) && k <= |s| == |Sorted(m)| && (forall i | 0 <= i < |s| :: s[i] in m && Sorted(m)[i] == m[s[i]])
    requires multiset(s[..k]) == multiset(rest.Keys) && (forall n | n in rest :: n in m && rest[n] == m[n])
    ensures Keyed(rest) && rest == Restrict(m, Lowest(m.Keys, k)) && Sorted(rest) == Sorted(m)[..k]
  {
    var t := Sorted(m)[..k];
    forall n: nat
      ensures n in rest <==> n in NonceSet(t)
    {
      IndexHolds(s[..k], rest, n);
      PrefixNonce(m, s, k, n);
    }
    assert rest == Restrict(m, NonceSet(t));
    PrefixIsLowest(m, k);
    PrefixSorted(m, k);
  }

  lemma {:induction false} PrefixNonce(m: Txs, s: seq<nat>, k: nat, n: nat)
    requires Keyed(m) && k <= |s| == |Sorted(m)| && (forall i | 0 <= i < |s| :: s[i] in m && Sorted(m)[i] == m[s[i]])
    ensures n in s[..k] <==> n in NonceSet(Sorted(m)[..k])
  {
    var t := Sorted(m)[..k];
    assert forall i | 0 <= i < k :: t[i].nonce == s[..k][i];
  }

  lemma {:induction false} FewEnough(m: Txs, k: nat)
    requires |m| <= k
    ensures Restrict(m, Lowest(m.Keys, k)) == m
  {
  }

  // ------------------------------------------------------------------------- filtering

  ghost function Hits(m: Txs, f: Tx -> bool): (r: set<nat>)
  {
    set n | n in m && f(m[n])
  }

  /** The order of the removed transactions is arbitrary; they come as a map. */
  method FilterOut(m: Txs, f: Tx -> bool) returns (rest: Txs, removed: Txs)
    ensures rest == m - Hits(m, f) && removed == Restrict(m, Hits(m, f))
  {
    rest, removed := m, map[];
    var left := m.Keys;
    while left != {}
      invariant left <= m.Keys
      invariant rest == m - (Hits(m, f) - left) && removed == Restrict(m, Hits(m, f) - left)
    {
      var n :| n in left;
      if f(m[n]) {
        rest, removed := rest - {n}, removed[n := m[n]];
      }
      left := left - {n};
    }
  }

  lemma {:induction false} NoHits(m: Txs, f: Tx -> bool)
    requires Restrict(m, Hits(m, f)) == map[]
    ensures m - Hits(m, f) == m
  {
    assert forall n | n in Hits(m, f) :: n in Restrict(m, Hits(m, f));
  }

  ghost predicate Agrees(items: Txs, index: seq<nat>, cache: Cache) {
    Keyed(items) && Indexes(index, items) && (cache.Cached? ==> cache.txs == Sorted(items))
  }

  class SortedMap {
    var items: Txs
    var index: seq<nat>
    var cache: Cache

    /** The heap indexes exactly the map's nonces; a cache holds the nonce order. */
    ghost predicate Valid()
      reads this
    {
      Agrees(items, index, cache)
    }

    constructor ()
      ensures Valid() && items == map[]
    {
      items, index, cache := map[], [], Absent;
    }

    method Put(tx: Tx)
      requires Valid()
      modifies this
      ensures Valid() && items == old(items)[tx.nonce := tx]
    {
      if tx.nonce !in items {
        var pushed := Push(index, tx.nonce);
        IndexWith(index, items, tx, pushed);
        index := pushed;
      } else {
        assert items[tx.nonce := tx].Keys == items.Keys;
      }
      items, cache := items[tx.nonce := tx], Absent;
    }

    method Forward(threshold: nat) returns (removed: seq<Tx>)
      requires Valid()
      modifies this
      ensures Valid() && items == old(items) - TooOld(old(items), threshold)
      ensures removed == Sorted(Restrict(old(items), TooOld(old(items), threshold)))
    {
      var rest, left, shifted;
      rest, left, removed := PopBelow(items, index, threshold);
      shifted := ShiftFront(items, rest, cache, removed, threshold);
      items, index, cache := rest, left, shifted;
    }

    method Ready(start: nat) returns (ready: seq<Tx>)
      requires Valid()
      modifies this
      ensures Valid() && items == old(items) - ReadySet(old(items), start)
      ensures ready == Sorted(Restrict(old(items), ReadySet(old(items), start)))
    {
      if index == [] || index[0] > start {
        NotReady(items, index, start);
        return [];
      }
      var rest, left;
      rest, left, ready := PopRun(items, index, start);
      items, index, cache := rest, left, Absent;
    }

    method Filter(f: Tx -> bool) returns (removed: Txs)
      requires Valid()
      modifies this
      ensures Valid() && items == old(items) - Hits(old(items), f)
              && removed == Restrict(old(items), Hits(old(items), f))
    {
      removed := Sift(f);
      if removed != map[] {
        Reheap();
      }
    }

    /** Filters the map only and leaves the heap as it was. */
    method Sift(f: Tx -> bool) returns (removed: Txs)
      requires Keyed(items)
      modifies this
      ensures items == old(items) - Hits(old(items), f) && removed == Restrict(old(items), Hits(old(items), f))
      ensures removed == map[] ==> unchanged(this)
    {
      var rest;
      rest, removed := FilterOut(items, f);
      if removed == map[] {
        NoHits(items, f);
      } else {
        cache := Absent;
      }
      items := rest;
    }

    /** Works from the map alone: the heap may be out of date. */
    method Reheap()
      requires Keyed(items)
      modifies this
      ensures Valid() && items == old(items)
    {
      var nonces := NoncesOf(items);
      nonces := Init(nonces);
      index, cache := nonces, Absent;
    }

    method Cap(threshold: nat) returns (drops: seq<Tx>)
      requires Valid()
      modifies this
      ensures Valid() && items == Restrict(old(items), Lowest(old(items).Keys, threshold))
      ensures |drops| == (if |old(items)| > threshold then |old(items)| - threshold else 0)
      ensures |Sorted(old(items))| == |old(items)|
      ensures forall i | 0 <= i < |drops| :: drops[i] == Sorted(old(items))[|old(items)| - 1 - i]
    {
      SortedSize(items);
      if |items| <= threshold {
        FewEnough(items, threshold);
        return [];
      }
      var rest, left;
      rest, left, drops := DropHighest(items, index, threshold);
      if cache.Cached? {
        cache := Cached(cache.txs[..|cache.txs| - |drops|]);
      }
      items, index := rest, left;
    }

    method Remove(nonce: nat) returns (found: bool)
      requires Valid()
      modifies this
      ensures Valid() && found == (nonce in old(items)) && items == old(items) - {nonce}
    {
      if nonce !in items {
        return false;
      }
      IndexHolds(index, items, nonce);
      var i := 0;
      while index[i] != nonce
        invariant 0 <= i < |index| && nonce in index[i..]
        decreases |index| - i
      {
        i := i + 1;
      }
      var left := NonceHeap.Remove(index, i);
      IndexWithout(index, items, nonce, left);
      items, index, cache := items - {nonce}, left, Absent;
      return true;
    }

    method Flatten() returns (txs: seq<Tx>)
      requires Valid()
      modifies this
      ensures Valid() && items == old(items) && index == old(index)
      ensures txs == Sorted(items)
    {
      if cache.Absent? {
        var sorted := SortTxs(items);
        cache := Cached(sorted);
      }
      txs := cache.txs;
    }

    method LastElement() returns (tx: Tx)
      requires Valid() && items != map[]
      modifies this
      ensures Valid() && items == old(items) && index == old(index)
      ensures tx.nonce in items && items[tx.nonce] == tx && tx.nonce == MaxOf(items.Keys)
    {
      var txs := Flatten();
      assert items.Keys != {};
      SortedLast(items);
      SortedOrdered(items);
      tx := txs[|txs| - 1];
    }
  }
}
