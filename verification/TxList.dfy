/** An account's pending (strict) or queued transactions, with the caps that let a
    filter skip its scan. */
module TxList {
  import opened PoolLists
  import opened TxSortedMap

  datatype Replaced = Nothing | Old(tx: Tx)

  ghost predicate Capped(m: Txs, costcap: nat, gascap: nat) {
    forall n | n in m :: Cost(m[n]) <= costcap && m[n].gas <= gascap
  }

  /** What a filter takes besides the unpayable transactions. */
  ghost function Invalidated(m: Txs, strict: bool, removed: set<nat>): set<nat> {
    if strict then Stranded(m, removed) else {}
  }

  /** The full scan: what it keeps, removes and invalidates. */
  ghost predicate Filtered(m: Txs, strict: bool, costLimit: nat, gasLimit: nat, kept: Txs, removed: Txs,
                           invalids: Txs) {
    var bad := Unpayable(m, costLimit, gasLimit);
    && kept == m - bad - Invalidated(m, strict, bad)
    && removed == Restrict(m, bad)
    && invalids == Restrict(m, Invalidated(m, strict, bad))
  }

  /** Kept, removed and invalidated transactions are all there were, once each, and a
      strict list keeps exactly what lies below the lowest removed nonce. */
  lemma {:induction false} FilteredMeaning(m: Txs, strict: bool, costLimit: nat, gasLimit: nat, kept: Txs,
                                           removed: Txs, invalids: Txs)
    requires Filtered(m, strict, costLimit, gasLimit, kept, removed, invalids)
    ensures m == kept + removed + invalids && kept.Keys !! removed.Keys !! invalids.Keys
    ensures strict && removed.Keys != {} ==> kept == Restrict(m, set n | n in m && n < MinOf(removed.Keys))
    ensures Capped(kept, costLimit, gasLimit)
  {
    var bad := Unpayable(m, costLimit, gasLimit);
    assert removed.Keys == bad;
    if strict && bad != {} {
      forall n: nat
        ensures n in kept <==> n in m && n < MinOf(bad)
      {
        StrictKeeps(m, bad, n);
      }
    }
  }

  /** The shortcut: under the caps a full scan would find nothing. */
  lemma {:induction false} CapsCover(m: Txs, strict: bool, costcap: nat, gascap: nat, costLimit: nat, gasLimit: nat)
    requires Capped(m, costcap, gascap) && costcap <= costLimit && gascap <= gasLimit
    ensures Filtered(m, strict, costLimit, gasLimit, m, map[], map[])
  {
    assert Unpayable(m, costLimit, gasLimit) == {};
    assert Restrict(m, {}) == map[];
  }

  lemma {:induction false} ScannedLoose(m: Txs, f: Tx -> bool, costLimit: nat, gasLimit: nat, kept: Txs, removed: Txs)
    requires forall tx :: f(tx) == TooCostly(tx, costLimit, gasLimit)
    requires kept == m - Hits(m, f) && removed == Restrict(m, Hits(m, f))
    ensures Filtered(m, false, costLimit, gasLimit, kept, removed, map[])
    ensures removed == map[] ==> Filtered(m, true, costLimit, gasLimit, kept, removed, map[])
  {
    var bad := Unpayable(m, costLimit, gasLimit);
    assert Hits(m, f) == bad && removed.Keys == bad;
    assert Restrict(m, {}) == map[];
    if removed == map[] {
      assert bad == {};
    }
  }

  lemma {:induction false} ScannedStrict(m: Txs, costLimit: nat, gasLimit: nat, rest: Txs, removed: Txs,
                                         g: Tx -> bool, kept: Txs, invalids: Txs)
    requires Keyed(m) && Filtered(m, false, costLimit, gasLimit, rest, removed, map[]) && removed.Keys != {}
    requires forall tx :: g(tx) == (tx.nonce > MinOf(removed.Keys))
    requires kept == rest - Hits(rest, g) && invalids == Restrict(rest, Hits(rest, g))
    ensures Filtered(m, true, costLimit, gasLimit, kept, removed, invalids)
  {
    var bad := Unpayable(m, costLimit, gasLimit);
    assert removed.Keys == bad;
    assert forall n | n in rest :: n in m && rest[n] == m[n];
    assert Hits(rest, g) == Stranded(m, bad);
  }

  lemma {:induction false} RemovedHits(m: Txs, rest: Txs, f: Tx -> bool, nonce: nat)
    requires Keyed(m) && rest == m - {nonce} && forall tx :: f(tx) == (tx.nonce > nonce)
    ensures rest - Hits(rest, f) == Restrict(m, set n | n in m && n < nonce)
    ensures Restrict(rest, Hits(rest, f)) == Restrict(m, set n | n in m && n > nonce)
  {
    assert forall n | n in rest :: rest[n].nonce == n;
  }

  /** The lowest nonce among the removed ones. */
  method LowestNonce(removed: Txs) returns (lowest: nat)
    requires removed != map[]
    ensures removed.Keys != {} && lowest == MinOf(removed.Keys)
  {
    assert removed.Keys != {};
    lowest :| lowest in removed;
    var left := removed.Keys;
    while left != {}
      invariant lowest in removed && left <= removed.Keys && forall n | n in removed && n !in left :: lowest <= n
    {
      var n :| n in left;
      if lowest > n {
        lowest := n;
      }
      left := left - {n};
    }
  }

  class List {
    const strict: bool
    const txs: SortedMap
    var costcap: nat
    var gascap: nat

    /** The caps bound every transaction held. */
    ghost predicate Valid()
      reads this, txs
    {
      txs.Valid() && Capped(txs.items, costcap, gascap)
    }

    constructor (strict: bool)
      ensures Valid() && fresh(txs) && this.strict == strict && txs.items == map[]
    {
      this.strict := strict;
      txs := new SortedMap();
      costcap, gascap := 0, 0;
    }

    /** Inserts tx unless a transaction of its nonce is there that it may not replace. */
    method Add(tx: Tx, bump: nat) returns (inserted: bool, prev: Replaced)
      requires Valid()
      modifies this, txs
      ensures Valid()
      ensures inserted <==> tx.nonce !in old(txs.items) || Replaces(tx, old(txs.items)[tx.nonce], bump)
      ensures txs.items == if inserted then old(txs.items)[tx.nonce := tx] else old(txs.items)
      ensures prev == if inserted && tx.nonce in old(txs.items) then Old(old(txs.items)[tx.nonce]) else Nothing
    {
      prev := Nothing;
      if tx.nonce in txs.items {
        var was := txs.items[tx.nonce];
        if was.feeCap >= tx.feeCap || was.tipCap >= tx.tipCap {
          return false, Nothing;
        }
        var thresholdFeeCap := (100 + bump) * was.feeCap / 100;
        var thresholdTip := (100 + bump) * was.tipCap / 100;
        if tx.feeCap < thresholdFeeCap || tx.tipCap < thresholdTip {
          return false, Nothing;
        }
        prev := Old(was);
      }
      txs.Put(tx);
      if costcap < Cost(tx) {
        costcap := Cost(tx);
      }
      if gascap < tx.gas {
        gascap := tx.gas;
      }
      inserted := true;
    }

    method Forward(threshold: nat) returns (removed: seq<Tx>)
      requires Valid()
      modifies txs
      ensures Valid() && txs.items == old(txs.items) - TooOld(old(txs.items), threshold)
      ensures removed == Sorted(Restrict(old(txs.items), TooOld(old(txs.items), threshold)))
    {
      removed := txs.Forward(threshold);
    }

    /** Removes what costs more than the limits allow; a strict list also gives up
        everything above the lowest removed nonce. The caps only save the scan. */
    method Filter(costLimit: nat, gasLimit: nat) returns (removed: Txs, invalids: Txs)
      requires Valid()
      modifies this, txs
      ensures Valid() && Filtered(old(txs.items), strict, costLimit, gasLimit, txs.items, removed, invalids)
    {
      if costcap <= costLimit && gascap <= gasLimit {
        CapsCover(txs.items, strict, costcap, gascap, costLimit, gasLimit);
        return map[], map[];
      }
      ghost var m := txs.items;
      costcap, gascap := costLimit, gasLimit;
      var costly := (tx: Tx) => TooCostly(tx, costLimit, gasLimit);
      removed := txs.Filter(costly);
      invalids := map[];
      ScannedLoose(m, costly, costLimit, gasLimit, txs.items, removed);
      if removed != map[] {
        if strict {
          invalids := Strand(m, costLimit, gasLimit, removed);
        }
        txs.Reheap();
      }
      FilteredMeaning(m, strict, costLimit, gasLimit, txs.items, removed, invalids);
    }

    method Strand(ghost m: Txs, ghost costLimit: nat, ghost gasLimit: nat, removed: Txs) returns (invalids: Txs)
      requires Keyed(m) && removed != map[]
      requires Keyed(txs.items) && Filtered(m, false, costLimit, gasLimit, txs.items, removed, map[])
      modifies txs
      ensures Keyed(txs.items) && Filtered(m, true, costLimit, gasLimit, txs.items, removed, invalids)
    {
      var lowest := LowestNonce(removed);
      var above := (tx: Tx) => tx.nonce > lowest;
      ghost var rest := txs.items;
      invalids := txs.Sift(above);
      ScannedStrict(m, costLimit, gasLimit, rest, removed, above, txs.items, invalids);
    }

    method Cap(threshold: nat) returns (drops: seq<Tx>)
      requires Valid()
      modifies txs
      ensures Valid() && txs.items == Restrict(old(txs.items), Lowest(old(txs.items).Keys, threshold))
    {
      drops := txs.Cap(threshold);
    }

    /** Removes one nonce; a strict list also gives up everything above it. */
    method Remove(nonce: nat) returns (found: bool, invalids: Txs)
      requires Valid()
      modifies txs
      ensures Valid() && found == (nonce in old(txs.items))
      ensures !found ==> txs.items == old(txs.items) && invalids == map[]
      ensures found && !strict ==> txs.items == old(txs.items) - {nonce} && invalids == map[]
      ensures found && strict ==> txs.items == Restrict(old(txs.items), set n | n in old(txs.items) && n < nonce)
      ensures found && strict ==> invalids == Restrict(old(txs.items), set n | n in old(txs.items) && n > nonce)
    {
      found := txs.Remove(nonce);
      invalids := map[];
      if found && strict {
        var above := (tx: Tx) => tx.nonce > nonce;
        RemovedHits(old(txs.items), txs.items, above, nonce);
        invalids := txs.Filter(above);
      }
    }

    method Ready(start: nat) returns (ready: seq<Tx>)
      requires Valid()
      modifies txs
      ensures Valid() && txs.items == old(txs.items) - ReadySet(old(txs.items), start)
      ensures ready == Sorted(Restrict(old(txs.items), ReadySet(old(txs.items), start)))
    {
      ready := txs.Ready(start);
    }
  }
}
