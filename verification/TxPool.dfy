/** The pool as an object: its maps change transaction by transaction, in the order of
    the code, and every operation ends where the pool functions say. */
module TxPool {
  import opened PoolLists
  import opened PoolState
  import opened PoolSteps
  import opened PoolReorg
  import NonceHeap
  import Runs = PoolRuns
  import TxSortedMap
  import TxList
  import opened TxLookup

  // ----------------------------------------------------------------- lists and lookup

  /** No account has an empty list. */
  ghost predicate Tidy(m: map<Addr, Txs>) {
    forall a | a in m :: m[a] != map[]
  }

  lemma {:induction false} SetListTidy(m: map<Addr, Txs>, a: Addr, l: Txs)
    requires Tidy(m)
    ensures Tidy(SetList(m, a, l)) && (Get(m, a) == l ==> SetList(m, a, l) == m)
  {
    if a !in m {
      assert m - {a} == m;
    }
  }

  /** The account's transactions l can join its queue q. */
  ghost predicate Fits(a: Addr, l: Txs, q: Txs) {
    (forall n | n in l :: l[n].nonce == n && l[n].from == a) && l.Keys !! q.Keys
  }

  ghost function Hashes(l: Txs): set<Hash> {
    set n | n in l :: l[n].hash
  }

  lemma {:induction false} HashesOne(l: Txs, left: set<nat>, n: nat)
    requires n in left && n in l
    ensures Hashes(l - (left - {n})) == Hashes(l - left) + {l[n].hash}
  {
    var now, before := l - (left - {n}), l - left;
    assert now[n].hash in Hashes(now);
    forall h: Hash | h in Hashes(before)
      ensures h in Hashes(now)
    {
      var k :| k in before && before[k].hash == h;
      assert now[k].hash == h;
    }
    forall h: Hash | h in Hashes(now)
      ensures h in Hashes(before) + {l[n].hash}
    {
      var k :| k in now && now[k].hash == h;
      assert k == n || before[k].hash == h;
    }
  }

  /** The lookup loses what the lists lose. */
  lemma {:induction false} GoneIs(s: Pool, a: Addr, p: Txs, q: Txs, out: Txs)
    requires Partition(s)
    requires forall n | n in out :: Holds(P(s, a), Q(s, a), out[n]) && out[n].nonce == n && !Holds(p, q, out[n])
    requires forall t | Holds(P(s, a), Q(s, a), t) :: Holds(p, q, t) || (t.nonce in out && out[t.nonce] == t)
    ensures Gone(s, a, p, q) == Hashes(out)
  {
    assert AccountOk(s, a);
    forall h: Hash
      ensures h in Gone(s, a, p, q) <==> h in Hashes(out)
    {
      if h in Gone(s, a, p, q) {
        assert Listed(s, h);
        assert out[s.all[h].nonce].hash == h;
      }
      if h in Hashes(out) {
        var n :| n in out && out[n].hash == h;
        assert s.all[h] == out[n];
      }
    }
  }

  class TxPool {
    var pending: map<Addr, Txs>
    var queue: map<Addr, Txs>
    var all: map<Hash, Tx>
    var nonces: map<Addr, nat>
    var slots: int
    var locals: set<Addr>
    var chain: Chain

    ghost function State(): Pool
      reads `pending, `queue, `all, `nonces
    {
      Pool(pending, queue, all, nonces)
    }

    /** The slots are those of all known transactions. */
    ghost predicate Counted()
      reads `all, `slots
    {
      slots == SlotSum(all)
    }

    /** ... and no list is empty. */
    ghost predicate Valid()
      reads `pending, `queue, `all, `slots
    {
      Tidy(pending) && Tidy(queue) && Counted()
    }

    constructor (chain: Chain, locals: set<Addr>)
      ensures Valid() && Partition(State()) && State() == Pool(map[], map[], map[], map[])
      ensures this.chain == chain && forall a :: Contiguous(State(), chain, a)
    {
      this.chain, this.locals := chain, locals;
      pending, queue, all, nonces, slots := map[], map[], map[], map[], 0;
    }

    /** The lookup forgets a transaction, if it knows it. */
    method Unlist(hash: Hash)
      requires Counted()
      modifies `all, `slots
      ensures Counted() && all == old(all) - {hash}
    {
      if hash in all {
        SlotSumWithout(all, hash);
        slots := slots - NumSlots(all[hash]);
      } else {
        assert all - {hash} == all;
      }
      all := all - {hash};
    }

    method Enlist(tx: Tx)
      requires Counted() && tx.hash !in all
      modifies `all, `slots
      ensures Counted() && all == old(all) + map[tx.hash := tx]
    {
      SlotSumWith(all, tx.hash, tx);
      assert all[tx.hash := tx] == all + map[tx.hash := tx];
      slots := slots + NumSlots(tx);
      all := all[tx.hash := tx];
    }

    /** The account's virtual nonce, remembered from now on. */
    method GetNonce(a: Addr) returns (n: nat)
      modifies `nonces
      ensures n == Virtual(old(State()), chain, a) && nonces == old(nonces)[a := n]
    {
      n := if a in nonces then nonces[a] else StateNonce(chain, a);
      nonces := nonces[a := n];
    }

    method SetIfLower(a: Addr, n: nat)
      modifies `nonces
      ensures var v := Virtual(old(State()), chain, a); nonces == old(nonces)[a := if v <= n then v else n]
    {
      var v := GetNonce(a);
      if n < v {
        nonces := nonces[a := n];
      }
    }

    /** Stores an account's list, or deletes it when it is empty. */
    method SetPending(a: Addr, l: Txs)
      requires Tidy(pending)
      modifies `pending
      ensures pending == SetList(old(pending), a, l) && Tidy(pending)
    {
      SetListTidy(pending, a, l);
      if l == map[] {
        pending := pending - {a};
      } else {
        pending := pending[a := l];
      }
    }

    method SetQueue(a: Addr, l: Txs)
      requires Tidy(queue)
      modifies `queue
      ensures queue == SetList(old(queue), a, l) && Tidy(queue)
    {
      SetListTidy(queue, a, l);
      if l == map[] {
        queue := queue - {a};
      } else {
        queue := queue[a := l];
      }
    }

    /** Drops transactions from the lookup. */
    method Forget(txs: Txs)
      requires Counted()
      modifies `all, `slots
      ensures Counted() && all == old(all) - Hashes(txs)
    {
      var left := txs.Keys;
      while left != {}
        invariant Counted() && left <= txs.Keys && all == old(all) - Hashes(txs - left)
      {
        var n :| n in left;
        HashesOne(txs, left, n);
        Unlist(txs[n].hash);
        left := left - {n};
      }
      assert txs - left == txs;
    }

    /** Queues a transaction unless one of its nonce is there that it may not replace. */
    method EnqueueTx(tx: Tx, addAll: bool, bump: nat) returns (queued: bool, replaced: bool)
      requires Counted() && (addAll ==> tx.hash !in all)
      modifies `queue, `all, `slots
      ensures Counted()
      ensures var q := Get(old(queue), tx.from);
              && replaced == (queued && tx.nonce in q)
              && (queued <==> tx.nonce !in q || Replaces(tx, q[tx.nonce], bump))
              && queue == (if queued then old(queue)[tx.from := q[tx.nonce := tx]] else old(queue))
              && all == (if queued
                         then (old(all) - (if replaced then {q[tx.nonce].hash} else {}))
                              + (if addAll then map[tx.hash := tx] else map[])
                         else old(all))
    {
      var q := Get(queue, tx.from);
      replaced := tx.nonce in q;
      if replaced && !Replaces(tx, q[tx.nonce], bump) {
        return false, false;
      }
      var grown: Txs := q[tx.nonce := tx];
      queue := queue[tx.from := grown];
      if replaced {
        Unlist(q[tx.nonce].hash);
      }
      if addAll {
        Enlist(tx);
      }
      queued := true;
    }

    method PostponeTx(tx: Tx, bump: nat)
      requires Counted() && tx.nonce !in Get(queue, tx.from)
      modifies `queue, `all, `slots
      ensures Counted() && all == old(all) && queue == old(queue)[tx.from := Get(old(queue), tx.from)[tx.nonce := tx]]
    {
      var queued, replaced := EnqueueTx(tx, false, bump);
    }

    /** Sends an account's pending transactions back to the queue, in any order. No
        queued transaction has one of their nonces, so none is refused or replaced. */
    method Postpone(a: Addr, txs: Txs, bump: nat)
      requires Counted() && Tidy(queue) && Fits(a, txs, Get(queue, a))
      modifies `queue, `all, `slots
      ensures Counted() && all == old(all) && queue == SetList(old(queue), a, Get(old(queue), a) + txs) && Tidy(queue)
    {
      var left := txs.Keys;
      SetListTidy(queue, a, Get(queue, a));
      assert Get(queue, a) + (txs - left) == Get(queue, a);
      while left != {}
        invariant Counted() && left <= txs.Keys && all == old(all)
        invariant queue == SetList(old(queue), a, Get(old(queue), a) + (txs - left))
      {
        var n :| n in left;
        QueueOne(old(queue), a, txs, left, n);
        PostponeTx(txs[n], bump);
        left := left - {n};
      }
      assert txs - left == txs;
      SetListTidy(old(queue), a, Get(old(queue), a) + txs);
    }

    method RemoveTx(hash: Hash, bump: nat)
      requires Valid() && Partition(State())
      modifies `pending, `queue, `all, `slots, `nonces
      ensures Valid() && State() == PoolSteps.RemoveTx(old(State()), chain, hash)
    {
      if hash !in all {
        return;
      }
      var tx := all[hash];
      var a := tx.from;
      if a in pending && tx.nonce in pending[a] {
        var p := pending[a];
        var kept := Restrict(p, set n | n in p && n < tx.nonce);
        var invalids := Restrict(p, set n | n in p && n > tx.nonce);
        RemovedPending(State(), chain, hash, kept, invalids);
        TakePending(a, tx.nonce, hash, kept, invalids, bump);
      } else {
        RemovedQueued(State(), chain, hash, Get(queue, a) - {tx.nonce});
        TakeQueued(a, hash, Get(queue, a) - {tx.nonce});
      }
    }

    method TakePending(a: Addr, nonce: nat, hash: Hash, kept: Txs, invalids: Txs, bump: nat)
      requires Valid() && Fits(a, invalids, Get(queue, a))
      modifies `pending, `queue, `all, `slots, `nonces
      ensures Valid()
      ensures var s := old(State());
              State() == Pool(SetList(s.pending, a, kept), SetList(s.queue, a, Q(s, a) + invalids), s.all - {hash},
                              s.nonces[a := if Virtual(s, chain, a) <= nonce then Virtual(s, chain, a) else nonce])
    {
      Unlist(hash);
      SetPending(a, kept);
      Postpone(a, invalids, bump);
      SetIfLower(a, nonce);
    }

    method TakeQueued(a: Addr, hash: Hash, rest: Txs)
      requires Valid()
      modifies `queue, `all, `slots
      ensures Valid() && State() == Pool(old(pending), SetList(old(queue), a, rest), old(all) - {hash}, old(nonces))
    {
      Unlist(hash);
      SetQueue(a, rest);
    }

    method RemoveEach(hashes: seq<Hash>, bump: nat)
      requires Valid() && Partition(State())
      modifies `pending, `queue, `all, `slots, `nonces
      ensures Valid() && State() == RemoveAll(old(State()), chain, hashes)
    {
      ghost var s := State();
      for i := 0 to |hashes|
        invariant Valid() && State() == RemoveAll(s, chain, hashes[..i])
      {
        RemoveAllKeeps(s, chain, hashes[..i]);
        RemoveTx(hashes[i], bump);
        assert hashes[..i + 1][..i] == hashes[..i];
      }
      assert hashes[..|hashes|] == hashes;
    }

    method Insert(tx: Tx, bump: nat) returns (r: Added)
      requires Valid() && tx.hash !in all
      modifies `pending, `queue, `all, `slots
      ensures Valid() && (State(), r) == Offer(old(State()), tx, bump)
    {
      var a, p := tx.from, Get(pending, tx.from);
      SetListTidy(pending, a, p);
      SetListTidy(queue, a, Get(queue, a));
      if tx.nonce in p {
        if !Replaces(tx, p[tx.nonce], bump) {
          return Underpriced;
        }
        SetPending(a, p[tx.nonce := tx]);
        Unlist(p[tx.nonce].hash);
        Enlist(tx);
        return Replaced;
      }
      SetListTidy(queue, a, Get(queue, a)[tx.nonce := tx]);
      var queued, replaced := EnqueueTx(tx, true, bump);
      return if queued then Queued(replaced) else Underpriced;
    }

    /** Makes a transaction pending unless one of its nonce is there that it may not
        replace; that would drop it. */
    method PromoteTx(a: Addr, tx: Tx, bump: nat) returns (promoted: bool)
      requires Counted()
      modifies `pending, `all, `slots, `nonces
      ensures Counted()
      ensures var p := Get(old(pending), a);
              && (promoted <==> tx.nonce !in p || Replaces(tx, p[tx.nonce], bump))
              && pending == (if promoted then old(pending)[a := p[tx.nonce := tx]] else old(pending))
              && all == old(all) - (if !promoted then {tx.hash} else if tx.nonce in p then {p[tx.nonce].hash} else {})
              && nonces == (if promoted then old(nonces)[a := tx.nonce + 1] else old(nonces))
    {
      var p := Get(pending, a);
      if tx.nonce in p {
        if !Replaces(tx, p[tx.nonce], bump) {
          Unlist(tx.hash);
          return false;
        }
        Unlist(p[tx.nonce].hash);
      }
      var grown: Txs := p[tx.nonce := tx];
      pending := pending[a := grown];
      nonces := nonces[a := tx.nonce + 1];
      promoted := true;
    }

    /** Makes an account's ready transactions pending, in nonce order. No pending
        transaction has one of their nonces, so none is refused or replaced. */
    method PromoteRun(a: Addr, ready: seq<Tx>, bump: nat)
      requires Counted()
      requires forall i | 0 <= i < |ready| :: ready[i].nonce !in Get(pending, a)
      requires forall i, j | 0 <= i < j < |ready| :: ready[i].nonce != ready[j].nonce
      modifies `pending, `all, `slots, `nonces
      ensures Counted() && all == old(all)
      ensures pending == if ready == [] then old(pending)
                         else old(pending)[a := Get(old(pending), a) + ByNonce(ready)]
      ensures nonces == (if ready == [] then old(nonces) else old(nonces)[a := ready[|ready| - 1].nonce + 1])
    {
      for i := 0 to |ready|
        invariant Counted() && all == old(all)
        invariant pending == if i == 0 then old(pending)
                             else old(pending)[a := Get(old(pending), a) + ByNonce(ready[..i])]
        invariant nonces == (if i == 0 then old(nonces) else old(nonces)[a := ready[i - 1].nonce + 1])
      {
        ghost var p := Get(old(pending), a);
        assert p + ByNonce([]) == p;
        ByNonceGrows(ready, i, p);
        assert Get(pending, a) == p + ByNonce(ready[..i]);
        var promoted := PromoteTx(a, ready[i], bump);
      }
      assert ready[..|ready|] == ready;
    }

    /** Promotes one account: old and unpayable queued transactions go, the run from the
        virtual nonce becomes pending, and a remote account's rest is capped. */
    method PromoteAccount(a: Addr, isLocal: bool, limit: nat, bump: nat)
      requires Valid() && Partition(State())
      modifies `pending, `queue, `all, `slots, `nonces
      ensures Valid() && State() == PoolReorg.PromoteAccount(old(State()), chain, a, isLocal, limit)
    {
      if a !in queue {
        return;
      }
      var start := if a in nonces then nonces[a] else StateNonce(chain, a);
      var forwards, drops, ready, kept, caps := PlanPromotion(State(), chain, a, queue[a], start, isLocal, limit);
      Carry(a, forwards, drops, ready, kept, caps, bump);
    }

    /** Carries a promotion out, update by update. */
    method Carry(a: Addr, forwards: Txs, drops: Txs, ready: seq<Tx>, kept: Txs, caps: Txs, bump: nat)
      requires Valid()
      requires forall i | 0 <= i < |ready| :: ready[i].nonce !in Get(pending, a)
      requires forall i, j | 0 <= i < j < |ready| :: ready[i].nonce != ready[j].nonce
      modifies `pending, `queue, `all, `slots, `nonces
      ensures Valid() && State() == Promoted(old(State()), chain, a, forwards, drops, ready, kept, caps)
    {
      Forget(forwards);
      Forget(drops);
      var start := GetNonce(a);
      Advance(a, ready, kept, caps, bump);
    }

    method Advance(a: Addr, ready: seq<Tx>, kept: Txs, caps: Txs, bump: nat)
      requires Valid()
      requires forall i | 0 <= i < |ready| :: ready[i].nonce !in Get(pending, a)
      requires forall i, j | 0 <= i < j < |ready| :: ready[i].nonce != ready[j].nonce
      modifies `pending, `queue, `all, `slots, `nonces
      ensures Valid() && queue == SetList(old(queue), a, kept) && all == old(all) - Hashes(caps)
      ensures pending == if ready == [] then old(pending)
                         else old(pending)[a := Get(old(pending), a) + ByNonce(ready)]
      ensures nonces == (if ready == [] then old(nonces) else old(nonces)[a := ready[|ready| - 1].nonce + 1])
    {
      PendingGrown(pending, a, ready);
      SetListTidy(pending, a, Get(pending, a) + ByNonce(ready));
      PromoteRun(a, ready, bump);
      Forget(caps);
      SetQueue(a, kept);
    }

    /** Demotes one account: old and unpayable pending transactions go, and what is then
        behind a gap goes back to the queue. */
    method DemoteAccount(a: Addr, bump: nat)
      requires Valid() && Partition(State())
      modifies `pending, `queue, `all, `slots
      ensures Valid() && State() == PoolReorg.DemoteAccount(old(State()), chain, a)
    {
      var olds, drops, invalids, gapped, kept := PlanDemotion(State(), chain, a, Get(pending, a));
      CarryBack(a, olds, drops, invalids, gapped, kept, bump);
    }

    /** Carries a demotion out, update by update. */
    method CarryBack(a: Addr, olds: Txs, drops: Txs, invalids: Txs, gapped: Txs, kept: Txs, bump: nat)
      requires Valid() && Fits(a, invalids, Get(queue, a)) && Fits(a, gapped, Get(queue, a) + invalids)
      modifies `pending, `queue, `all, `slots
      ensures Valid() && State() == Demoted(old(State()), a, olds, drops, invalids, gapped, kept)
    {
      Forget(olds);
      Forget(drops);
      Postpone(a, invalids, bump);
      Postpone(a, gapped, bump);
      SetPending(a, kept);
    }

    method PromoteExecutables(accounts: seq<(Addr, bool)>, l: Runs.Limits)
      requires Valid() && Partition(State())
      modifies `pending, `queue, `all, `slots, `nonces
      ensures Valid() && State() == Runs.PromoteAll(old(State()), chain, l, accounts)
    {
      ghost var s := State();
      for i := 0 to |accounts|
        invariant Valid() && State() == Runs.PromoteAll(s, chain, l, accounts[..i])
      {
        Runs.PromoteAllPartition(s, chain, l, accounts[..i]);
        PromoteAccount(accounts[i].0, accounts[i].1, l.accountQueue, l.bump);
        assert accounts[..i + 1][..i] == accounts[..i];
      }
      assert accounts[..|accounts|] == accounts;
    }

    /** Demotes every account with pending transactions, in some order. */
    method DemoteUnexecutables(l: Runs.Limits) returns (ghost order: seq<Addr>)
      requires Valid() && Partition(State())
      modifies `pending, `queue, `all, `slots
      ensures Valid() && State() == Runs.DemoteAll(old(State()), chain, order)
      ensures forall a :: a in order <==> a in old(pending)
    {
      ghost var s := State();
      order := [];
      var left := pending.Keys;
      while left != {}
        invariant Valid() && State() == Runs.DemoteAll(s, chain, order)
        invariant left <= s.pending.Keys && forall a :: a in order <==> a in s.pending && a !in left
      {
        var a :| a in left;
        Runs.DemoteAllPartition(s, chain, order);
        DemoteAccount(a, l.bump);
        assert (order + [a])[..|order|] == order;
        order, left := order + [a], left - {a};
      }
    }

    /** The virtual nonces follow the highest pending ones. */
    method UpdateNonces()
      requires Valid() && Partition(State())
      modifies `nonces
      ensures State() == PoolReorg.SetAllNonces(old(State()))
    {
      ghost var s := State();
      forall a | a in pending
        ensures TxSortedMap.Keyed(pending[a])
      {
        assert AccountOk(s, a) && P(s, a) == pending[a];
      }
      nonces := NextNonces(pending);
      NextNoncesAre(s, nonces);
    }

    /** Cuts an account's pending list; each dropped transaction lowers the nonce. */
    method CapPending(a: Addr, k: nat)
      requires Valid() && Partition(State())
      modifies `pending, `all, `slots, `nonces
      ensures Valid() && State() == Runs.CapPending(old(State()), chain, a, k)
    {
      var p := Get(pending, a);
      if |p| <= k {
        NothingCapped(State(), chain, a, k);
        return;
      }
      var kept, drops := PlanCap(State(), chain, a, p, k);
      CarryCap(a, kept, drops);
    }

    method CarryCap(a: Addr, kept: Txs, drops: seq<Tx>)
      requires Valid() && forall i, j | 0 <= i < j < |drops| :: drops[i].nonce > drops[j].nonce
      modifies `pending, `all, `slots, `nonces
      ensures Valid()
      ensures var s := old(State());
              State() == Pool(SetList(s.pending, a, kept), s.queue, s.all - HashesOf(drops),
                              Lowered(s.nonces, Virtual(s, chain, a), a, drops))
    {
      DropCapped(a, drops);
      SetPending(a, kept);
    }

    method DropCapped(a: Addr, drops: seq<Tx>)
      requires Counted()
      requires forall i, j | 0 <= i < j < |drops| :: drops[i].nonce > drops[j].nonce
      modifies `all, `slots, `nonces
      ensures Counted() && all == old(all) - HashesOf(drops)
      ensures nonces == Lowered(old(nonces), Virtual(old(State()), chain, a), a, drops)
    {
      ghost var v := Virtual(State(), chain, a);
      for i := 0 to |drops|
        invariant Counted() && all == old(all) - HashesOf(drops[..i])
        invariant nonces == Lowered(old(nonces), v, a, drops[..i])
      {
        HashesOfGrows(drops, i);
        LoweredGrows(old(State()), chain, a, drops, i, State());
        Unlist(drops[i].hash);
        SetIfLower(a, drops[i].nonce);
      }
      assert drops[..|drops|] == drops;
    }

    method CapEach(caps: seq<(Addr, nat)>)
      requires Valid() && Partition(State())
      modifies `pending, `all, `slots, `nonces
      ensures Valid() && State() == Runs.CapAll(old(State()), chain, caps)
    {
      ghost var s := State();
      for i := 0 to |caps|
        invariant Valid() && State() == Runs.CapAll(s, chain, caps[..i])
      {
        Runs.CapAllPartition(s, chain, caps[..i]);
        CapPending(caps[i].0, caps[i].1);
        assert caps[..i + 1][..i] == caps[..i];
      }
      assert caps[..|caps|] == caps;
    }

    /** The accounts with queued transactions, each with whether it is local. */
    method QueuedAccounts() returns (order: seq<(Addr, bool)>)
      ensures forall x :: x in order <==> x.0 in queue && x.1 == (x.0 in locals)
    {
      order := [];
      var left := queue.Keys;
      while left != {}
        invariant left <= queue.Keys
        invariant forall x :: x in order <==> x.0 in queue && x.0 !in left && x.1 == (x.0 in locals)
      {
        var a :| a in left;
        order, left := order + [(a, a in locals)], left - {a};
      }
    }

    method Revalidate(l: Runs.Limits) returns (ghost order: seq<Addr>)
      requires Valid() && Partition(State())
      modifies `pending, `queue, `all, `slots, `nonces
      ensures Valid() && State() == PoolReorg.SetAllNonces(Runs.DemoteAll(old(State()), chain, order))
      ensures forall a :: a in order <==> a in old(pending)
    {
      ghost var s := State();
      order := DemoteUnexecutables(l);
      Runs.DemoteAllPartition(s, chain, order);
      UpdateNonces();
    }
  }

  // --------------------------------------------------------------------------- capping

  ghost function HashesOf(txs: seq<Tx>): set<Hash> {
    set i | 0 <= i < |txs| :: txs[i].hash
  }

  lemma {:induction false} HashesOfGrows(txs: seq<Tx>, i: nat)
    requires i < |txs|
    ensures HashesOf(txs[..i + 1]) == HashesOf(txs[..i]) + {txs[i].hash}
  {
    var now, before := txs[..i + 1], txs[..i];
    assert now[i].hash in HashesOf(now);
    forall h | h in HashesOf(before)
      ensures h in HashesOf(now)
    {
      var k :| 0 <= k < |before| && before[k].hash == h;
      assert now[k].hash == h;
    }
    forall h | h in HashesOf(now)
      ensures h in HashesOf(before) + {txs[i].hash}
    {
      var k :| 0 <= k < |now| && now[k].hash == h;
      assert k == i || before[k].hash == h;
    }
  }

  /** The virtual nonce v after dropping transactions from the highest nonce down. */
  ghost function Lowered(nonces: map<Addr, nat>, v: nat, a: Addr, drops: seq<Tx>): map<Addr, nat> {
    if drops == [] then nonces
    else nonces[a := if v <= drops[|drops| - 1].nonce then v else drops[|drops| - 1].nonce]
  }

  lemma {:induction false} LoweredGrows(s: Pool, c: Chain, a: Addr, drops: seq<Tx>, i: nat, now: Pool)
    requires i < |drops| && (forall j | 0 <= j < i :: drops[j].nonce > drops[i].nonce)
    requires now.nonces == Lowered(s.nonces, Virtual(s, c, a), a, drops[..i])
    ensures var v := Virtual(now, c, a);
            now.nonces[a := if v <= drops[i].nonce then v else drops[i].nonce]
            == Lowered(s.nonces, Virtual(s, c, a), a, drops[..i + 1])
  {
    if i > 0 {
      assert drops[..i][i - 1] == drops[i - 1];
    }
  }

  lemma {:induction false} NothingCapped(s: Pool, c: Chain, a: Addr, k: nat)
    requires |P(s, a)| <= k
    ensures Runs.CapPending(s, c, a, k) == s
  {
  }

  method PlanCap(ghost s: Pool, c: Chain, a: Addr, p: Txs, k: nat) returns (kept: Txs, drops: seq<Tx>)
    requires Partition(s) && Tidy(s.queue) && p == P(s, a) && k < |p|
    ensures forall i, j | 0 <= i < j < |drops| :: drops[i].nonce > drops[j].nonce
    ensures Runs.CapPending(s, c, a, k)
            == Pool(SetList(s.pending, a, kept), s.queue, s.all - HashesOf(drops),
                    Lowered(s.nonces, Virtual(s, c, a), a, drops))
  {
    assert AccountOk(s, a);
    var index := TxSortedMap.NoncesOf(p);
    index := NonceHeap.Init(index);
    kept, index, drops := TxSortedMap.DropHighest(p, index, k);
    DropsDescend(p, k, drops);
    DropsAre(p, k, kept, drops);
    FirstCut(p, k);
    CappedIs(s, c, a, k, kept, drops);
  }

  lemma {:induction false} DropsDescend(p: Txs, k: nat, drops: seq<Tx>)
    requires TxSortedMap.Keyed(p) && |TxSortedMap.Sorted(p)| == |p| && |drops| == |p| - k
    requires forall i | 0 <= i < |drops| :: drops[i] == TxSortedMap.Sorted(p)[|p| - 1 - i]
    ensures forall i, j | 0 <= i < j < |drops| :: drops[i].nonce > drops[j].nonce
  {
    TxSortedMap.SortedOrdered(p);
    forall i, j | 0 <= i < j < |drops|
      ensures drops[i].nonce > drops[j].nonce
    {
      assert TxSortedMap.Before(TxSortedMap.Sorted(p), |p| - 1 - j, |p| - 1 - i);
    }
  }

  /** What is dropped is all above the k lowest. */
  lemma {:induction false} DropsAre(p: Txs, k: nat, kept: Txs, drops: seq<Tx>)
    requires TxSortedMap.Keyed(p) && |TxSortedMap.Sorted(p)| == |p| && k < |p| && |drops| == |p| - k
    requires kept == Restrict(p, Lowest(p.Keys, k))
    requires forall i | 0 <= i < |drops| :: drops[i] == TxSortedMap.Sorted(p)[|p| - 1 - i]
    ensures HashesOf(drops) == Hashes(p - kept.Keys)
  {
    forall h | h in HashesOf(drops)
      ensures h in Hashes(p - kept.Keys)
    {
      var i :| 0 <= i < |drops| && drops[i].hash == h;
      DropIsOut(p, k, kept, |p| - 1 - i);
    }
    forall h | h in Hashes(p - kept.Keys)
      ensures h in HashesOf(drops)
    {
      var i := OutIndex(p, k, kept, h);
      assert drops[|p| - 1 - i].hash == h;
    }
  }

  lemma {:induction false} DropIsOut(p: Txs, k: nat, kept: Txs, i: nat)
    requires TxSortedMap.Keyed(p) && k <= i < |TxSortedMap.Sorted(p)| && kept == Restrict(p, Lowest(p.Keys, k))
    ensures TxSortedMap.Sorted(p)[i].hash in Hashes(p - kept.Keys)
  {
    TailNonce(p, k, i);
    var n, out := TxSortedMap.Sorted(p)[i].nonce, p - kept.Keys;
    assert out[n].hash in Hashes(out);
  }

  lemma {:induction false} OutIndex(p: Txs, k: nat, kept: Txs, h: Hash) returns (i: nat)
    requires TxSortedMap.Keyed(p) && k <= |TxSortedMap.Sorted(p)| && kept == Restrict(p, Lowest(p.Keys, k))
    requires h in Hashes(p - kept.Keys)
    ensures k <= i < |TxSortedMap.Sorted(p)| && TxSortedMap.Sorted(p)[i].hash == h
  {
    var out := p - kept.Keys;
    var n :| n in out && out[n].hash == h;
    i := IndexIn(p, n);
    TailNonce(p, k, i);
  }

  /** The first that is not kept. */
  lemma {:induction false} FirstCut(p: Txs, k: nat)
    requires TxSortedMap.Keyed(p) && k < |TxSortedMap.Sorted(p)|
    ensures p.Keys - Lowest(p.Keys, k) != {} && TxSortedMap.Sorted(p)[k].nonce == MinOf(p.Keys - Lowest(p.Keys, k))
  {
    var s, cut := TxSortedMap.Sorted(p), p.Keys - Lowest(p.Keys, k);
    TailNonce(p, k, k);
    assert s[k].nonce in cut;
    var n := MinOf(cut);
    var i := IndexIn(p, n);
    TailNonce(p, k, i);
    TxSortedMap.SortedOrdered(p);
    assert TxSortedMap.Before(s, k, i);
  }

  lemma IndexIn(p: Txs, n: nat) returns (i: nat)
    requires TxSortedMap.Keyed(p) && n in p
    ensures i < |TxSortedMap.Sorted(p)| && TxSortedMap.Sorted(p)[i] == p[n]
  {
    TxSortedMap.SortedOrdered(p);
    i :| i < |TxSortedMap.Sorted(p)| && TxSortedMap.Sorted(p)[i] == p[n];
  }

  lemma {:induction false} TailNonce(p: Txs, k: nat, i: nat)
    requires TxSortedMap.Keyed(p) && k <= |TxSortedMap.Sorted(p)| && i < |TxSortedMap.Sorted(p)|
    ensures TxSortedMap.Sorted(p)[i].nonce in p && p[TxSortedMap.Sorted(p)[i].nonce] == TxSortedMap.Sorted(p)[i]
    ensures TxSortedMap.Sorted(p)[i].nonce in Lowest(p.Keys, k) <==> i < k
  {
    var s := TxSortedMap.Sorted(p);
    var t := s[..k];
    TxSortedMap.SortedOrdered(p);
    TxSortedMap.PrefixIsLowest(p, k);
    if i < k {
      assert t[i].nonce in TxSortedMap.NonceSet(t);
    } else {
      forall j: nat | j < |t|
        ensures t[j].nonce != s[i].nonce
      {
        assert TxSortedMap.Before(s, j, i);
      }
    }
  }

  lemma {:induction false} CappedIs(s: Pool, c: Chain, a: Addr, k: nat, kept: Txs, drops: seq<Tx>)
    requires Partition(s) && Tidy(s.queue) && kept == Restrict(P(s, a), Lowest(P(s, a).Keys, k)) && drops != []
    requires HashesOf(drops) == Hashes(P(s, a) - kept.Keys)
    requires var cut := P(s, a).Keys - Lowest(P(s, a).Keys, k); cut != {} && drops[|drops| - 1].nonce == MinOf(cut)
    ensures Runs.CapPending(s, c, a, k)
            == Pool(SetList(s.pending, a, kept), s.queue, s.all - HashesOf(drops),
                    Lowered(s.nonces, Virtual(s, c, a), a, drops))
  {
    CapForm(s, c, a, k, kept);
    CapGone(s, a, kept);
    ShuffleForm(s, a, kept, Q(s, a));
    SetListTidy(s.queue, a, Q(s, a));
  }

  lemma {:induction false} CapGone(s: Pool, a: Addr, kept: Txs)
    requires Partition(s) && kept == Restrict(P(s, a), kept.Keys)
    ensures Gone(s, a, kept, Q(s, a)) == Hashes(P(s, a) - kept.Keys)
  {
    SplitOff(P(s, a), kept.Keys);
    assert Q(s, a) + map[] == Q(s, a);
    GoneDemoted(s, a, map[], kept, P(s, a) - kept.Keys);
  }

  lemma {:induction false} CapForm(s: Pool, c: Chain, a: Addr, k: nat, kept: Txs)
    requires kept == Restrict(P(s, a), Lowest(P(s, a).Keys, k)) && P(s, a).Keys - Lowest(P(s, a).Keys, k) != {}
    ensures kept == Restrict(P(s, a), kept.Keys)
    ensures var cut := MinOf(P(s, a).Keys - Lowest(P(s, a).Keys, k));
            Runs.CapPending(s, c, a, k)
            == Shuffle(s, a, kept, Q(s, a)).(
                 nonces := s.nonces[a := if Virtual(s, c, a) <= cut then Virtual(s, c, a) else cut])
  {
  }

  /** Each account's first nonce after its pending ones. */
  ghost predicate AfterPending(pending: map<Addr, Txs>, m: map<Addr, nat>, a: Addr) {
    a in m ==> a in pending && pending[a].Keys != {} && m[a] == MaxOf(pending[a].Keys) + 1
  }

  method NextNonces(pending: map<Addr, Txs>) returns (m: map<Addr, nat>)
    requires Tidy(pending) && (forall a | a in pending :: TxSortedMap.Keyed(pending[a]))
    ensures m.Keys == pending.Keys && forall a :: AfterPending(pending, m, a)
  {
    m := map[];
    var left := pending.Keys;
    while left != {}
      invariant left <= pending.Keys && m.Keys == pending.Keys - left && forall a :: AfterPending(pending, m, a)
    {
      var a :| a in left;
      var n := HighestNonce(pending[a]);
      ghost var before := m;
      m, left := m[a := n + 1], left - {a};
      forall b
        ensures AfterPending(pending, m, b)
      {
        assert AfterPending(pending, before, b);
      }
    }
  }

  lemma {:induction false} NextNoncesAre(s: Pool, m: map<Addr, nat>)
    requires Tidy(s.pending) && m.Keys == s.pending.Keys && forall a :: AfterPending(s.pending, m, a)
    ensures s.(nonces := m) == SetAllNonces(s)
  {
    forall a | a in s.pending
      ensures s.pending[a].Keys != {} && m[a] == MaxOf(s.pending[a].Keys) + 1
    {
      assert AfterPending(s.pending, m, a);
    }
  }

  /** The nonce of the last transaction in nonce order. */
  method HighestNonce(l: Txs) returns (n: nat)
    requires TxSortedMap.Keyed(l) && l != map[]
    ensures l.Keys != {} && n == MaxOf(l.Keys)
  {
    assert l.Keys != {};
    var txs := TxSortedMap.SortTxs(l);
    TxSortedMap.SortedLast(l);
    n := txs[|txs| - 1].nonce;
  }

  // -------------------------------------------------------------------------- demotion

  /** Where demotion ends, update by update. */
  ghost function Demoted(s: Pool, a: Addr, olds: Txs, drops: Txs, invalids: Txs, gapped: Txs, kept: Txs): Pool {
    Pool(SetList(s.pending, a, kept),
         SetList(SetList(s.queue, a, Q(s, a) + invalids), a, Q(s, a) + invalids + gapped),
         s.all - Hashes(olds) - Hashes(drops),
         s.nonces)
  }

  method PlanDemotion(ghost s: Pool, c: Chain, a: Addr, list: Txs)
    returns (olds: Txs, drops: Txs, invalids: Txs, gapped: Txs, kept: Txs)
    requires Partition(s) && list == P(s, a)
    ensures PoolReorg.DemoteAccount(s, c, a) == Demoted(s, a, olds, drops, invalids, gapped, kept)
    ensures Fits(a, invalids, Q(s, a)) && Fits(a, gapped, Q(s, a) + invalids)
  {
    var nonce := StateNonce(c, a);
    var tooOld := TooOld(list, nonce);
    olds := Restrict(list, tooOld);
    PendingKeyed(s, c, a);
    kept, drops, invalids := ScanStrict(list - tooOld, Balance(c, a), c.maxGas);
    gapped := map[];
    ghost var solid := kept;
    if kept != map[] && nonce !in kept {
      gapped, kept := kept, map[];
    }
    DemotedParts(s, c, a, olds, drops, invalids, solid);
    DemotedIs(s, c, a, olds, drops, invalids, gapped, kept, solid);
  }

  method ScanStrict(list: Txs, costLimit: nat, gasLimit: nat) returns (kept: Txs, removed: Txs, invalids: Txs)
    requires TxSortedMap.Keyed(list)
    ensures TxList.Filtered(list, true, costLimit, gasLimit, kept, removed, invalids)
  {
    var costly := (tx: Tx) => TooCostly(tx, costLimit, gasLimit);
    kept, removed := TxSortedMap.FilterOut(list, costly);
    TxList.ScannedLoose(list, costly, costLimit, gasLimit, kept, removed);
    invalids := map[];
    if removed != map[] {
      var lowest := TxList.LowestNonce(removed);
      var above := (tx: Tx) => tx.nonce > lowest;
      ghost var rest := kept;
      kept, invalids := TxSortedMap.FilterOut(kept, above);
      TxList.ScannedStrict(list, costLimit, gasLimit, rest, removed, above, kept, invalids);
    }
  }

  lemma {:induction false} PendingKeyed(s: Pool, c: Chain, a: Addr)
    requires Partition(s)
    ensures TxSortedMap.Keyed(P(s, a) - TooOld(P(s, a), StateNonce(c, a))) && AccountOk(s, a)
  {
    assert AccountOk(s, a);
  }

  /** Each pending transaction stays, goes back to the queue, or is dropped. */
  lemma {:induction false} DemotedParts(s: Pool, c: Chain, a: Addr, olds: Txs, drops: Txs, invalids: Txs, kept: Txs)
    requires olds == Restrict(P(s, a), TooOld(P(s, a), StateNonce(c, a)))
    requires TxList.Filtered(P(s, a) - TooOld(P(s, a), StateNonce(c, a)), true, Balance(c, a), c.maxGas, kept, drops,
               invalids)
    ensures Parted(P(s, a), invalids, kept, olds + drops) && Hashes(olds + drops) == Hashes(olds) + Hashes(drops)
  {
    var p := P(s, a) - TooOld(P(s, a), StateNonce(c, a));
    SplitOff(P(s, a), TooOld(P(s, a), StateNonce(c, a)));
    TxList.FilteredMeaning(p, true, Balance(c, a), c.maxGas, kept, drops, invalids);
    PartedThree(P(s, a), olds, p, kept, drops, invalids);
  }

  lemma {:induction false} PartedThree(m: Txs, olds: Txs, p: Txs, kept: Txs, drops: Txs, invalids: Txs)
    requires TwoParts(m, olds, p) && p == kept + drops + invalids && kept.Keys !! drops.Keys !! invalids.Keys
    ensures Parted(m, invalids, kept, olds + drops) && Hashes(olds + drops) == Hashes(olds) + Hashes(drops)
  {
    assert forall n | n in drops :: n in p;
    HashesSplit(olds + drops, olds, drops);
  }

  lemma {:induction false} GoneDemoted(s: Pool, a: Addr, moved: Txs, kept: Txs, out: Txs)
    requires Partition(s) && Parted(P(s, a), moved, kept, out)
    ensures Gone(s, a, kept, Q(s, a) + moved) == Hashes(out) && Fits(a, moved, Q(s, a))
  {
    assert AccountOk(s, a);
    var p, q := P(s, a), Q(s, a);
    forall n | n in out
      ensures Holds(p, q, out[n]) && out[n].nonce == n && !Holds(kept, q + moved, out[n])
    {
      assert n in p && p[n] == out[n];
    }
    forall t | Holds(p, q, t)
      ensures Holds(kept, q + moved, t) || (t.nonce in out && out[t.nonce] == t)
    {
      assert t.nonce in p ==> t.nonce !in q;
    }
    GoneIs(s, a, kept, q + moved, out);
    assert forall n | n in moved :: n in p && p[n] == moved[n];
  }

  // ------------------------------------------------------------------------- promotion

  method TakeReady(list: Txs, start: nat) returns (ready: seq<Tx>, rest: Txs)
    requires TxSortedMap.Keyed(list)
    ensures rest == list - ReadySet(list, start) && ready == TxSortedMap.Sorted(Restrict(list, ReadySet(list, start)))
  {
    var index := TxSortedMap.NoncesOf(list);
    index := NonceHeap.Init(index);
    if index == [] || index[0] > start {
      TxSortedMap.NotReady(list, index, start);
      return [], list;
    }
    rest, index, ready := TxSortedMap.PopRun(list, index, start);
  }

  /** What a queue keeps when it is capped: a local account's everything. */
  ghost function KeptOf(list: Txs, isLocal: bool, k: nat): Txs {
    if isLocal then list else Restrict(list, Lowest(list.Keys, k))
  }

  method Capped(list: Txs, isLocal: bool, k: nat) returns (kept: Txs, caps: Txs)
    requires TxSortedMap.Keyed(list)
    ensures kept == KeptOf(list, isLocal, k) && TwoParts(list, kept, caps)
  {
    if isLocal {
      return list, map[];
    }
    if |list| <= k {
      TxSortedMap.FewEnough(list, k);
      return list, map[];
    }
    var index := TxSortedMap.NoncesOf(list);
    index := NonceHeap.Init(index);
    var drops;
    kept, index, drops := TxSortedMap.DropHighest(list, index, k);
    caps := list - kept.Keys;
    assert kept == Restrict(list, kept.Keys);
    SplitOff(list, kept.Keys);
  }

  /** What becomes pending, what stays queued and what is dropped from a cleaned queue. */
  method Plan(list: Txs, start: nat, isLocal: bool, limit: nat) returns (ready: seq<Tx>, kept: Txs, caps: Txs)
    requires TxSortedMap.Keyed(list)
    ensures ready == TxSortedMap.Sorted(Restrict(list, ReadySet(list, start)))
    ensures kept == KeptOf(list - ReadySet(list, start), isLocal, limit)
            && TwoParts(list - ReadySet(list, start), kept, caps)
  {
    var rest;
    ready, rest := TakeReady(list, start);
    kept, caps := Capped(rest, isLocal, limit);
  }

  lemma {:induction false} ExecutableKeyed(s: Pool, c: Chain, a: Addr)
    requires Partition(s)
    ensures TxSortedMap.Keyed(Executable(s, c, a)) && AccountOk(s, a)
  {
    assert AccountOk(s, a);
  }

  /** What is ready is not pending. */
  lemma {:induction false} ReadyFits(s: Pool, c: Chain, a: Addr, ready: seq<Tx>)
    requires AccountOk(s, a)
    requires ready == TxSortedMap.Sorted(Restrict(Executable(s, c, a), ReadySet(Executable(s, c, a), Virtual(s, c, a))))
    ensures ByNonce(ready) == Restrict(Executable(s, c, a), ReadySet(Executable(s, c, a), Virtual(s, c, a)))
    ensures forall i | 0 <= i < |ready| :: ready[i].nonce !in P(s, a)
    ensures forall i, j | 0 <= i < j < |ready| :: ready[i].nonce != ready[j].nonce
  {
    ByNonceSorted(Restrict(Executable(s, c, a), ReadySet(Executable(s, c, a), Virtual(s, c, a))), ready);
  }

  // ------------------------------------------------------------- sequences of transactions

  ghost function ByNonce(txs: seq<Tx>): Txs {
    if txs == [] then map[] else ByNonce(txs[..|txs| - 1])[txs[|txs| - 1].nonce := txs[|txs| - 1]]
  }

  lemma {:induction false} ByNonceHas(txs: seq<Tx>, n: nat)
    ensures n in ByNonce(txs) ==> exists i | 0 <= i < |txs| :: txs[i].nonce == n && ByNonce(txs)[n] == txs[i]
    ensures n !in ByNonce(txs) ==> forall i | 0 <= i < |txs| :: txs[i].nonce != n
  {
    if txs != [] {
      ByNonceHas(txs[..|txs| - 1], n);
    }
  }

  lemma {:induction false} ByNonceGrows(txs: seq<Tx>, i: nat, p: Txs)
    requires i < |txs| && (forall j | 0 <= j < i :: txs[j].nonce != txs[i].nonce) && txs[i].nonce !in p
    ensures txs[i].nonce !in p + ByNonce(txs[..i])
    ensures (p + ByNonce(txs[..i]))[txs[i].nonce := txs[i]] == p + ByNonce(txs[..i + 1])
  {
    assert txs[..i + 1][..i] == txs[..i];
    ByNonceHas(txs[..i], txs[i].nonce);
  }

  /** The nonce order of a list, back as a list. */
  lemma {:induction false} ByNonceSorted(m: Txs, s: seq<Tx>)
    requires TxSortedMap.Keyed(m) && s == TxSortedMap.Sorted(m)
    ensures ByNonce(s) == m
    ensures forall i, j | 0 <= i < j < |s| :: s[i].nonce != s[j].nonce
    ensures forall i | 0 <= i < |s| :: s[i].nonce in m
  {
    TxSortedMap.SortedOrdered(m);
    forall i, j | 0 <= i < j < |s|
      ensures s[i].nonce != s[j].nonce
    {
      assert TxSortedMap.Before(s, i, j);
    }
    forall n: nat
      ensures n in ByNonce(s) <==> n in m
      ensures n in m ==> ByNonce(s)[n] == m[n]
    {
      ByNonceHas(s, n);
      assert n in m ==> m[n] in s;
    }
  }

  lemma {:induction false} RemovedPending(s: Pool, c: Chain, h: Hash, kept: Txs, invalids: Txs)
    requires Partition(s) && h in s.all && s.all[h].nonce in P(s, s.all[h].from)
    requires var p, n := P(s, s.all[h].from), s.all[h].nonce;
             kept == Restrict(p, set k | k in p && k < n) && invalids == Restrict(p, set k | k in p && k > n)
    ensures var a, n := s.all[h].from, s.all[h].nonce;
            && RemoveTx(s, c, h) == Pool(SetList(s.pending, a, kept), SetList(s.queue, a, Q(s, a) + invalids),
                                         s.all - {h},
                                         s.nonces[a := if Virtual(s, c, a) <= n then Virtual(s, c, a) else n])
            && Fits(a, invalids, Q(s, a))
  {
    var t := s.all[h];
    RemovedGone(s, h, kept, invalids);
    assert AccountOk(s, t.from);
  }

  lemma {:induction false} RemovedGone(s: Pool, h: Hash, kept: Txs, invalids: Txs)
    requires Partition(s) && h in s.all && s.all[h].nonce in P(s, s.all[h].from)
    requires var p, n := P(s, s.all[h].from), s.all[h].nonce;
             kept == Restrict(p, set k | k in p && k < n) && invalids == Restrict(p, set k | k in p && k > n)
    ensures Gone(s, s.all[h].from, kept, Q(s, s.all[h].from) + invalids) == {h}
  {
    var t := s.all[h];
    var out: Txs := map[t.nonce := t];
    assert AccountOk(s, t.from) && Listed(s, h);
    GoneIs(s, t.from, kept, Q(s, t.from) + invalids, out);
    assert Hashes(out) == {h};
  }

  lemma {:induction false} QueuedGone(s: Pool, h: Hash)
    requires Partition(s) && h in s.all && s.all[h].nonce !in P(s, s.all[h].from)
    ensures s.all[h].nonce in Q(s, s.all[h].from)
    ensures Gone(s, s.all[h].from, P(s, s.all[h].from), Q(s, s.all[h].from) - {s.all[h].nonce}) == {h}
  {
    var t := s.all[h];
    var out: Txs := map[t.nonce := t];
    assert AccountOk(s, t.from) && Listed(s, h);
    GoneIs(s, t.from, P(s, t.from), Q(s, t.from) - {t.nonce}, out);
    assert Hashes(out) == {h};
  }

  lemma {:induction false} RemovedQueued(s: Pool, c: Chain, h: Hash, rest: Txs)
    requires Partition(s) && Tidy(s.pending) && h in s.all && s.all[h].nonce !in P(s, s.all[h].from)
    requires rest == Q(s, s.all[h].from) - {s.all[h].nonce}
    ensures s.all[h].nonce in Q(s, s.all[h].from)
    ensures RemoveTx(s, c, h) == Pool(s.pending, SetList(s.queue, s.all[h].from, rest), s.all - {h}, s.nonces)
  {
    QueuedGone(s, h);
    SetListTidy(s.pending, s.all[h].from, P(s, s.all[h].from));
  }

  lemma {:induction false} HashesSplit(m: Txs, x: Txs, y: Txs)
    requires m == x + y && x.Keys !! y.Keys
    ensures Hashes(m) == Hashes(x) + Hashes(y)
  {
    forall h: Hash | h in Hashes(m)
      ensures h in Hashes(x) + Hashes(y)
    {
      var k :| k in m && m[k].hash == h;
      assert k in x || k in y;
    }
    forall h: Hash | h in Hashes(x) || h in Hashes(y)
      ensures h in Hashes(m)
    {
      if h in Hashes(x) {
        var k :| k in x && x[k].hash == h;
        assert m[k] == x[k];
      } else {
        var k :| k in y && y[k].hash == h;
        assert m[k] == y[k];
      }
    }
  }

  ghost predicate TwoParts(m: Txs, x: Txs, y: Txs) {
    m == x + y && x.Keys !! y.Keys
  }

  lemma {:induction false} SplitOff(m: Txs, keys: set<nat>)
    ensures TwoParts(m, Restrict(m, keys), m - keys)
  {
  }

  lemma {:induction false} SplitAgain(m: Txs, x: Txs, y: Txs, y1: Txs, y2: Txs)
    requires TwoParts(m, x, y) && TwoParts(y, y1, y2)
    ensures TwoParts(m, x + y1, y2) && Hashes(x + y1) == Hashes(x) + Hashes(y1)
  {
    HashesSplit(x + y1, x, y1);
  }

  /** Each of q's transactions is in exactly one of the parts. */
  ghost predicate Parted(q: Txs, run: Txs, kept: Txs, out: Txs) {
    q == run + kept + out && run.Keys !! kept.Keys !! out.Keys
  }

  lemma {:induction false} PartedOf(q: Txs, out: Txs, list: Txs, run: Txs, rest: Txs, kept: Txs, caps: Txs)
    requires TwoParts(q, out, list) && TwoParts(list, run, rest) && TwoParts(rest, kept, caps)
    ensures Parted(q, run, kept, out + caps) && Hashes(out + caps) == Hashes(out) + Hashes(caps)
  {
    HashesSplit(out + caps, out, caps);
  }

  lemma {:induction false} GoneParted(s: Pool, a: Addr, run: Txs, kept: Txs, out: Txs)
    requires Partition(s) && Parted(Q(s, a), run, kept, out)
    ensures Gone(s, a, P(s, a) + run, kept) == Hashes(out)
  {
    assert AccountOk(s, a);
    var p, q := P(s, a), Q(s, a);
    forall n | n in out
      ensures Holds(p, q, out[n]) && out[n].nonce == n && !Holds(p + run, kept, out[n])
    {
      assert n in q && q[n] == out[n];
    }
    forall t | Holds(p, q, t)
      ensures Holds(p + run, kept, t) || (t.nonce in out && out[t.nonce] == t)
    {
      assert t.nonce in p ==> t.nonce !in q;
    }
    GoneIs(s, a, p + run, kept, out);
  }

  lemma {:induction false} PromotedGone(s: Pool, c: Chain, a: Addr, out: Txs, ready: seq<Tx>, kept: Txs, caps: Txs)
    requires Partition(s) && TwoParts(Q(s, a), out, Executable(s, c, a))
    requires var q := Executable(s, c, a);
             && ByNonce(ready) == Restrict(q, ReadySet(q, Virtual(s, c, a)))
             && TwoParts(q - ReadySet(q, Virtual(s, c, a)), kept, caps)
    ensures Gone(s, a, P(s, a) + ByNonce(ready), kept) == Hashes(out) + Hashes(caps)
  {
    var q := Executable(s, c, a);
    SplitOff(q, ReadySet(q, Virtual(s, c, a)));
    PartedOf(Q(s, a), out, q, ByNonce(ready), q - ReadySet(q, Virtual(s, c, a)), kept, caps);
    GoneParted(s, a, ByNonce(ready), kept, out + caps);
  }

  /** After the last transaction of the run comes the run's end. */
  lemma {:induction false} RunLast(q: Txs, start: nat, ready: seq<Tx>)
    requires TxSortedMap.Keyed(q) && ready == TxSortedMap.Sorted(Restrict(q, ReadySet(q, start)))
    ensures ready == [] <==> ReadySet(q, start) == {}
    ensures ready != [] ==> q.Keys != {} && ready[|ready| - 1].nonce + 1 == RunEnd(q.Keys, MinOf(q.Keys))
  {
    var run := Restrict(q, ReadySet(q, start));
    assert run.Keys == ReadySet(q, start);
    TxSortedMap.SortedOrdered(run);
    TxSortedMap.OrderedEmpty(ready, run);
    if ready != [] {
      TxSortedMap.SortedLast(run);
      ReadyIsRun(q, start, MaxOf(run.Keys));
      ReadyIsRun(q, start, RunEnd(q.Keys, MinOf(q.Keys)) - 1);
    }
  }

  /** Where promotion ends, update by update. */
  ghost function Promoted(s: Pool, c: Chain, a: Addr, forwards: Txs, drops: Txs, ready: seq<Tx>, kept: Txs,
                          caps: Txs): Pool {
    var seen := s.nonces[a := Virtual(s, c, a)];
    Pool(if ready == [] then s.pending else s.pending[a := P(s, a) + ByNonce(ready)],
         SetList(s.queue, a, kept),
         s.all - Hashes(forwards) - Hashes(drops) - Hashes(caps),
         if ready == [] then seen else seen[a := ready[|ready| - 1].nonce + 1])
  }

  method PlanPromotion(ghost s: Pool, c: Chain, a: Addr, queued: Txs, start: nat, isLocal: bool, limit: nat)
    returns (forwards: Txs, drops: Txs, ready: seq<Tx>, kept: Txs, caps: Txs)
    requires Partition(s) && Tidy(s.pending) && a in s.queue && queued == s.queue[a] && start == Virtual(s, c, a)
    ensures PromoteAccount(s, c, a, isLocal, limit) == Promoted(s, c, a, forwards, drops, ready, kept, caps)
    ensures forall i | 0 <= i < |ready| :: ready[i].nonce !in P(s, a)
    ensures forall i, j | 0 <= i < j < |ready| :: ready[i].nonce != ready[j].nonce
  {
    var list;
    forwards, drops, list := Clean(s, c, a, queued);
    ready, kept, caps := Plan(list, start, isLocal, limit);
    ReadyFits(s, c, a, ready);
    PromotedGone(s, c, a, forwards + drops, ready, kept, caps);
    PromotedIs(s, c, a, isLocal, limit, ready, kept, forwards, drops, caps);
  }

  /** Splits off an account's old and unpayable queued transactions. */
  method Clean(ghost s: Pool, c: Chain, a: Addr, queued: Txs) returns (forwards: Txs, drops: Txs, list: Txs)
    requires Partition(s) && a in s.queue && queued == s.queue[a]
    ensures list == Executable(s, c, a) && TxSortedMap.Keyed(list) && AccountOk(s, a)
    ensures TwoParts(queued, forwards + drops, list) && Hashes(forwards + drops) == Hashes(forwards) + Hashes(drops)
  {
    var tooOld := TooOld(queued, StateNonce(c, a));
    SplitOff(queued, tooOld);
    forwards, list := Restrict(queued, tooOld), queued - tooOld;
    var bad := Unpayable(list, Balance(c, a), c.maxGas);
    SplitOff(list, bad);
    drops := Restrict(list, bad);
    SplitAgain(queued, forwards, list, drops, list - bad);
    list := list - bad;
    ExecutableKeyed(s, c, a);
  }

  lemma {:induction false} PromotedIs(s: Pool, c: Chain, a: Addr, isLocal: bool, limit: nat, ready: seq<Tx>,
                                      kept: Txs, forwards: Txs, drops: Txs, caps: Txs)
    requires Partition(s) && Tidy(s.pending) && a in s.queue
    requires var q := Executable(s, c, a);
             && ready == TxSortedMap.Sorted(Restrict(q, ReadySet(q, Virtual(s, c, a))))
             && ByNonce(ready) == Restrict(q, ReadySet(q, Virtual(s, c, a)))
             && kept == KeptOf(q - ReadySet(q, Virtual(s, c, a)), isLocal, limit)
    requires Hashes(forwards) + Hashes(drops) + Hashes(caps) == Gone(s, a, P(s, a) + ByNonce(ready), kept)
    ensures PromoteAccount(s, c, a, isLocal, limit) == Promoted(s, c, a, forwards, drops, ready, kept, caps)
  {
    PromotedForm(s, c, a, isLocal, limit, ByNonce(ready), kept);
    ExecutableKeyed(s, c, a);
    RunLast(Executable(s, c, a), Virtual(s, c, a), ready);
    PendingGrown(s.pending, a, ready);
    Assemble(s, c, a, ready, kept, forwards, drops, caps, PromoteAccount(s, c, a, isLocal, limit));
  }

  lemma {:induction false} Assemble(s: Pool, c: Chain, a: Addr, ready: seq<Tx>, kept: Txs, forwards: Txs, drops: Txs,
                                    caps: Txs, r: Pool)
    requires SetList(s.pending, a, P(s, a) + ByNonce(ready))
             == if ready == [] then s.pending else s.pending[a := P(s, a) + ByNonce(ready)]
    requires r == Pool(SetList(s.pending, a, P(s, a) + ByNonce(ready)), SetList(s.queue, a, kept),
                       s.all - (Hashes(forwards) + Hashes(drops) + Hashes(caps)),
                       s.nonces[a := if ready == [] then Virtual(s, c, a) else ready[|ready| - 1].nonce + 1])
    ensures r == Promoted(s, c, a, forwards, drops, ready, kept, caps)
  {
    MinusEach(s.all, Hashes(forwards), Hashes(drops), Hashes(caps));
  }

  lemma {:induction false} MinusEach(m: map<Hash, Tx>, x: set<Hash>, y: set<Hash>, z: set<Hash>)
    ensures m - x - y - z == m - (x + y + z)
  {
  }

  lemma {:induction false} PromotedForm(s: Pool, c: Chain, a: Addr, isLocal: bool, limit: nat, run: Txs, kept: Txs)
    requires a in s.queue
    requires var q := Executable(s, c, a);
             && run == Restrict(q, ReadySet(q, Virtual(s, c, a)))
             && kept == KeptOf(q - ReadySet(q, Virtual(s, c, a)), isLocal, limit)
    ensures var q := Executable(s, c, a);
            PromoteAccount(s, c, a, isLocal, limit)
            == Pool(SetList(s.pending, a, P(s, a) + run), SetList(s.queue, a, kept),
                    s.all - Gone(s, a, P(s, a) + run, kept),
                    s.nonces[a := if ReadySet(q, Virtual(s, c, a)) == {} then Virtual(s, c, a)
                                  else RunEnd(q.Keys, MinOf(q.Keys))])
  {
    ShuffleForm(s, a, P(s, a) + run, kept);
  }

  lemma {:induction false} ShuffleForm(s: Pool, a: Addr, p: Txs, q: Txs)
    ensures Shuffle(s, a, p, q) == Pool(SetList(s.pending, a, p), SetList(s.queue, a, q), s.all - Gone(s, a, p, q),
              s.nonces)
  {
    var gone := Gone(s, a, p, q);
    assert (s.all - gone) + map[] == s.all - gone;
  }

  lemma {:induction false} PendingGrown(m: map<Addr, Txs>, a: Addr, ready: seq<Tx>)
    requires Tidy(m)
    ensures SetList(m, a, Get(m, a) + ByNonce(ready)) == if ready == [] then m else m[a := Get(m, a) + ByNonce(ready)]
  {
    if ready == [] {
      assert Get(m, a) + ByNonce(ready) == Get(m, a);
      SetListTidy(m, a, Get(m, a));
    } else {
      assert ready[|ready| - 1].nonce in Get(m, a) + ByNonce(ready);
    }
  }

  lemma {:induction false} DemotedIs(s: Pool, c: Chain, a: Addr, olds: Txs, drops: Txs, invalids: Txs, gapped: Txs,
                                     kept: Txs, solid: Txs)
    requires Partition(s) && Parted(P(s, a), invalids, solid, olds + drops)
             && Hashes(olds + drops) == Hashes(olds) + Hashes(drops)
    requires TxList.Filtered(P(s, a) - TooOld(P(s, a), StateNonce(c, a)), true, Balance(c, a), c.maxGas, solid,
               drops, invalids)
    requires if solid != map[] && StateNonce(c, a) !in solid then gapped == solid && kept == map[]
             else gapped == map[] && kept == solid
    ensures PoolReorg.DemoteAccount(s, c, a) == Demoted(s, a, olds, drops, invalids, gapped, kept)
    ensures Fits(a, invalids, Q(s, a)) && Fits(a, gapped, Q(s, a) + invalids)
  {
    var moved := invalids + gapped;
    MovedParts(P(s, a), invalids, solid, olds + drops, gapped, kept);
    GoneDemoted(s, a, moved, kept, olds + drops);
    FitsTwice(a, invalids, gapped, Q(s, a));
    DemotedForm(s, c, a, solid, invalids, gapped, kept);
    DemotedSame(s, a, olds, drops, invalids, gapped, kept);
  }

  lemma {:induction false} MovedParts(m: Txs, invalids: Txs, solid: Txs, out: Txs, gapped: Txs, kept: Txs)
    requires Parted(m, invalids, solid, out)
    requires (gapped == solid && kept == map[]) || (gapped == map[] && kept == solid)
    ensures Parted(m, invalids + gapped, kept, out) && invalids.Keys !! gapped.Keys
  {
  }

  lemma {:induction false} FitsTwice(a: Addr, x: Txs, y: Txs, q: Txs)
    requires Fits(a, x + y, q) && x.Keys !! y.Keys
    ensures Fits(a, x, q) && Fits(a, y, q + x) && q + x + y == q + (x + y)
  {
    assert forall n | n in x :: (x + y)[n] == x[n];
    assert forall n | n in y :: (x + y)[n] == y[n];
  }

  lemma {:induction false} DemotedForm(s: Pool, c: Chain, a: Addr, solid: Txs, invalids: Txs, gapped: Txs, kept: Txs)
    requires var p := P(s, a) - TooOld(P(s, a), StateNonce(c, a));
             var bad := Unpayable(p, Balance(c, a), c.maxGas);
             TxList.Filtered(p, true, Balance(c, a), c.maxGas, solid, Restrict(p, bad), invalids)
    requires if solid != map[] && StateNonce(c, a) !in solid then gapped == solid && kept == map[]
             else gapped == map[] && kept == solid
    ensures PoolReorg.DemoteAccount(s, c, a) == Shuffle(s, a, kept, Q(s, a) + invalids + gapped)
  {
    assert Q(s, a) + invalids + map[] == Q(s, a) + invalids;
  }

  lemma {:induction false} DemotedSame(s: Pool, a: Addr, olds: Txs, drops: Txs, invalids: Txs, gapped: Txs, kept: Txs)
    requires Gone(s, a, kept, Q(s, a) + invalids + gapped) == Hashes(olds) + Hashes(drops)
    ensures Shuffle(s, a, kept, Q(s, a) + invalids + gapped) == Demoted(s, a, olds, drops, invalids, gapped, kept)
  {
    ShuffleForm(s, a, kept, Q(s, a) + invalids + gapped);
    SetTwice(s.queue, a, Q(s, a) + invalids, Q(s, a) + invalids + gapped);
    MinusEach(s.all, Hashes(olds), Hashes(drops), {});
  }

  lemma {:induction false} SetTwice(m: map<Addr, Txs>, a: Addr, x: Txs, y: Txs)
    ensures SetList(SetList(m, a, x), a, y) == SetList(m, a, y)
  {
  }

  lemma {:induction false} QueueOne(m: map<Addr, Txs>, a: Addr, txs: Txs, left: set<nat>, n: nat)
    requires n in left && n in txs && n !in Get(m, a)
    ensures var now := SetList(m, a, Get(m, a) + (txs - left));
            && n !in Get(now, a)
            && now[a := Get(now, a)[n := txs[n]]] == SetList(m, a, Get(m, a) + (txs - (left - {n})))
  {
    var q := Get(m, a);
    assert (q + (txs - left))[n := txs[n]] == q + (txs - (left - {n}));
  }
}
