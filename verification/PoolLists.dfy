/** Transactions, and one account's transactions by nonce: what the list operations
    of the pool select. */
module PoolLists {

  type Addr = nat
  type Hash = nat

  const TX_SLOT_SIZE: nat := 32 * 1024

  /** For a legacy transaction fee cap and tip cap are both its gas price. */
  datatype Tx = Tx(hash: Hash, from: Addr, nonce: nat, gas: nat, feeCap: nat, tipCap: nat, value: nat, size: nat)

  /** An account's transactions by nonce. */
  type Txs = map<nat, Tx>

  function Restrict(l: Txs, ns: set<nat>): (r: Txs)
  {
    map n | n in l && n in ns :: l[n]
  }

  function Cost(tx: Tx): nat {
    tx.feeCap * tx.gas + tx.value
  }

  function NumSlots(tx: Tx): nat {
    (tx.size + TX_SLOT_SIZE - 1) / TX_SLOT_SIZE
  }

  /** The least number of 32 kB slots that hold the transaction. */
  lemma SlotsHold(tx: Tx)
    ensures 32768 * NumSlots(tx) >= tx.size && 32768 * NumSlots(tx) < tx.size + 32768
  {
  }

  /** The price-bump rule for replacing a transaction of the same nonce. */
  predicate Replaces(tx: Tx, prev: Tx, bump: nat) {
    && tx.feeCap > prev.feeCap && tx.tipCap > prev.tipCap
    && tx.feeCap >= (100 + bump) * prev.feeCap / 100
    && tx.tipCap >= (100 + bump) * prev.tipCap / 100
  }

  predicate TooCostly(tx: Tx, costLimit: nat, gasLimit: nat) {
    tx.gas > gasLimit || Cost(tx) > costLimit
  }

  ghost function MinOf(s: set<nat>): (m: nat)
    requires s != {}
    ensures m in s && forall x | x in s :: m <= x
  {
    var x :| x in s;
    if s == {x} then x
    else
      var rest := s - {x};
      assert s == rest + {x};
      var m := MinOf(rest);
      if m < x then m else x
  }

  /** The first nonce from n on that is missing. */
  ghost function RunEnd(keys: set<nat>, n: nat): (e: nat)
    ensures n <= e && e !in keys
    ensures forall k | n <= k < e :: k in keys
    decreases |set k | k in keys && k >= n|
  {
    if n !in keys then n
    else
      assert (set k | k in keys && k >= n) == {n} + (set k | k in keys && k >= n + 1);
      RunEnd(keys, n + 1)
  }

  /** What is ready from `start`: the maximal run from the least nonce, if that is not
      above `start`. */
  ghost function ReadySet(l: Txs, start: nat): (r: set<nat>)
  {
    if l.Keys == {} || MinOf(l.Keys) > start then {}
    else set n | n in l.Keys && n < RunEnd(l.Keys, MinOf(l.Keys))
  }

  lemma {:induction false} ReadyIsRun(l: Txs, start: nat, n: nat)
    requires ReadySet(l, start) != {}
    ensures l.Keys != {} && MinOf(l.Keys) < RunEnd(l.Keys, MinOf(l.Keys))
    ensures n in ReadySet(l, start) <==> MinOf(l.Keys) <= n < RunEnd(l.Keys, MinOf(l.Keys))
  {
  }

  function TooOld(l: Txs, nonce: nat): (r: set<nat>)
  {
    set n | n in l.Keys && n < nonce
  }

  function Unpayable(l: Txs, costLimit: nat, gasLimit: nat): (r: set<nat>)
  {
    set n | n in l.Keys && TooCostly(l[n], costLimit, gasLimit)
  }

  /** What a strict list gives up besides the removed ones: everything above the lowest. */
  ghost function Stranded(l: Txs, removed: set<nat>): (r: set<nat>)
  {
    if removed == {} then {} else set n | n in l.Keys && n !in removed && n > MinOf(removed)
  }

  /** A strict list keeps exactly what lies below the lowest removed nonce. */
  lemma {:induction false} StrictKeeps(p: Txs, bad: set<nat>, n: nat)
    requires bad <= p.Keys
    ensures n in p - bad - Stranded(p, bad) <==> n in p && (bad == {} || n < MinOf(bad))
  {
  }

  /** The keys left when only the k lowest stay. */
  ghost predicate IsLowest(kept: set<nat>, keys: set<nat>, k: nat) {
    && kept <= keys && |kept| == (if |keys| <= k then |keys| else k)
    && forall x, y | x in kept && y in keys && y !in kept :: x < y
  }

  ghost function MaxOf(s: set<nat>): (m: nat)
    requires s != {}
    ensures m in s && forall x | x in s :: x <= m
  {
    var x :| x in s;
    if s == {x} then x
    else
      var rest := s - {x};
      assert s == rest + {x};
      var m := MaxOf(rest);
      if m > x then m else x
  }

  ghost function Lowest(keys: set<nat>, k: nat): (kept: set<nat>)
    ensures IsLowest(kept, keys, k)
  {
    if |keys| <= k then keys
    else
      var m := MaxOf(keys);
      var kept := Lowest(keys - {m}, k);
      assert forall x | x in kept :: x in keys - {m} && x < m;
      assert forall y | y in keys && y !in kept :: y == m || (y in keys - {m} && y !in kept);
      kept
  }

  /** There is only one way to keep the k lowest. */
  lemma {:induction false} LowestUnique(a: set<nat>, b: set<nat>, keys: set<nat>, k: nat)
    requires IsLowest(a, keys, k) && IsLowest(b, keys, k)
    ensures a == b
  {
    if a <= b {
      SubsetSize(a, b);
    } else if b <= a {
      SubsetSize(b, a);
    }
  }

  lemma {:induction false} SubsetSize(a: set<nat>, b: set<nat>)
    requires a <= b
    ensures |a| <= |b| && (|a| == |b| ==> a == b)
  {
    assert b == a + (b - a);
  }
}
