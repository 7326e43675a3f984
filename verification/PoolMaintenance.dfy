/** The pool's maintenance runs: truncation to the global limits, and the whole
    reorganisation run as one step of the pool. */
module PoolMaintenance {
  import opened PoolLists
  import opened PoolState
  import opened PoolSteps
  import opened TxPool
  import Runs = PoolRuns
  import NonceHeap
  import TxSortedMap
  import Truncation
  import Admission = PoolAdmission
  import Offers = PoolOffers
  import Prices = PricedList
  import PoolReorg
  import opened Options

  // ------------------------------------------------------------------------- accounts

  ghost predicate Distinct(accounts: seq<Addr>) {
    forall i, j | 0 <= i < j < |accounts| :: accounts[i] != accounts[j]
  }

  /** Each of the keys once, in some order. */
  ghost predicate Enumerates(accounts: seq<Addr>, keys: set<Addr>) {
    Distinct(accounts) && forall a :: a in accounts <==> a in keys
  }

  method Enumerate(keys: set<Addr>) returns (accounts: seq<Addr>)
    ensures Enumerates(accounts, keys)
  {
    accounts := [];
    var left := keys;
    while left != {}
      invariant left <= keys && Enumerates(accounts, keys - left)
    {
      var a :| a in left;
      accounts, left := accounts + [a], left - {a};
    }
    assert keys - left == keys;
  }

  function Sizes(m: map<Addr, Txs>, accounts: seq<Addr>): (r: seq<nat>)
    ensures |r| == |accounts|
  {
    seq(|accounts|, i requires 0 <= i < |accounts| => |Get(m, accounts[i])|)
  }

  function Flags(locals: set<Addr>, accounts: seq<Addr>): (r: seq<bool>)
    ensures |r| == |accounts|
  {
    seq(|accounts|, i requires 0 <= i < |accounts| => accounts[i] in locals)
  }

  // ----------------------------------------------------------------- cutting pending

  /** The k transactions of the lowest nonces. */
  ghost function Lower(p: Txs, k: nat): (r: Txs)
    ensures |r| == if |p| <= k then |p| else k
  {
    assert Restrict(p, Lowest(p.Keys, k)).Keys == Lowest(p.Keys, k) && |p.Keys| == |p|;
    Restrict(p, Lowest(p.Keys, k))
  }

  /** Every list keeps its lowest nonces. */
  ghost predicate KeepsLowest(before: map<Addr, Txs>, after: map<Addr, Txs>) {
    forall a {:trigger Get(after, a)} :: Get(after, a) == Lower(Get(before, a), |Get(after, a)|)
  }

  function Cuts(accounts: seq<Addr>, r: seq<nat>): seq<(Addr, nat)>
    requires |r| == |accounts|
  {
    seq(|accounts|, i requires 0 <= i < |accounts| => (accounts[i], r[i]))
  }

  lemma {:induction false} CapOther(s: Pool, c: Chain, b: Addr, k: nat, a: Addr)
    requires a != b
    ensures P(Runs.CapPending(s, c, b, k), a) == P(s, a)
  {
  }

  lemma {:induction false} CapThis(s: Pool, c: Chain, a: Addr, k: nat)
    ensures P(Runs.CapPending(s, c, a, k), a) == Lower(P(s, a), k)
  {
    var p := P(s, a);
    assert Restrict(p, p.Keys) == p;
  }

  /** A capped account keeps what it was left, whatever is capped after it. */
  lemma {:induction false} CapLast(s: Pool, c: Chain, caps: seq<(Addr, nat)>, a: Addr)
    requires caps != []
    ensures var last, t := caps[|caps| - 1], Runs.CapAll(s, c, caps[..|caps| - 1]);
            P(Runs.CapAll(s, c, caps), a) == if last.0 == a then Lower(P(t, a), last.1) else P(t, a)
  {
    var last, t := caps[|caps| - 1], Runs.CapAll(s, c, caps[..|caps| - 1]);
    if last.0 != a {
      CapOther(t, c, last.0, last.1, a);
    } else {
      CapThis(t, c, a, last.1);
    }
  }

  lemma {:induction false} CapAllOther(s: Pool, c: Chain, caps: seq<(Addr, nat)>, a: Addr)
    requires forall i | 0 <= i < |caps| :: caps[i].0 != a
    ensures P(Runs.CapAll(s, c, caps), a) == P(s, a)
  {
    if caps != [] {
      CapLast(s, c, caps, a);
      CapAllOther(s, c, caps[..|caps| - 1], a);
    }
  }

  /** Capping distinct accounts leaves each its lowest nonces. */
  lemma {:induction false} CapAllThis(s: Pool, c: Chain, caps: seq<(Addr, nat)>, i: nat)
    requires i < |caps| && (forall j | 0 <= j < |caps| && j != i :: caps[j].0 != caps[i].0)
    ensures P(Runs.CapAll(s, c, caps), caps[i].0) == Lower(P(s, caps[i].0), caps[i].1)
  {
    var n := |caps| - 1;
    CapLast(s, c, caps, caps[i].0);
    if i == n {
      CapAllOther(s, c, caps[..n], caps[i].0);
    } else {
      CapAllThis(s, c, caps[..n], i);
    }
  }

  /** Each listed account keeps its lowest, all others everything. */
  ghost predicate AllLowered(before: map<Addr, Txs>, after: map<Addr, Txs>, accounts: seq<Addr>, r: seq<nat>)
    requires |r| == |accounts|
  {
    && (forall a {:trigger Get(after, a)} | a !in accounts :: Get(after, a) == Get(before, a))
    && (forall i {:trigger accounts[i]} | 0 <= i < |r| ::
          Get(after, accounts[i]) == Lower(Get(before, accounts[i]), r[i]))
  }

  lemma {:induction false} LoweredSizes(before: map<Addr, Txs>, after: map<Addr, Txs>, accounts: seq<Addr>, r: seq<nat>)
    requires |r| == |accounts| && AllLowered(before, after, accounts, r)
    requires forall i | 0 <= i < |r| :: r[i] <= |Get(before, accounts[i])|
    ensures Sizes(after, accounts) == r && KeepsLowest(before, after)
  {
    forall i: nat | i < |r|
      ensures |Get(after, accounts[i])| == r[i]
    {
      assert Get(after, accounts[i]) == Lower(Get(before, accounts[i]), r[i]);
    }
    forall a
      ensures Get(after, a) == Lower(Get(before, a), |Get(after, a)|)
    {
      if i :| 0 <= i < |r| && accounts[i] == a {
        assert Get(after, accounts[i]) == Lower(Get(before, accounts[i]), r[i]);
      } else {
        WholeLower(Get(before, a));
      }
    }
  }

  lemma {:induction false} CapSizes(s: Pool, c: Chain, accounts: seq<Addr>, r: seq<nat>)
    requires |r| == |accounts| && Distinct(accounts)
    requires forall i | 0 <= i < |r| :: r[i] <= |P(s, accounts[i])|
    ensures Sizes(Runs.CapAll(s, c, Cuts(accounts, r)).pending, accounts) == r
    ensures KeepsLowest(s.pending, Runs.CapAll(s, c, Cuts(accounts, r)).pending)
  {
    var cuts := Cuts(accounts, r);
    var t := Runs.CapAll(s, c, cuts);
    forall i: nat | i < |r|
      ensures P(t, accounts[i]) == Lower(P(s, accounts[i]), r[i])
    {
      assert cuts[i] == (accounts[i], r[i]);
      CapAllThis(s, c, cuts, i);
    }
    forall a | a !in accounts
      ensures P(t, a) == P(s, a)
    {
      CapAllOther(s, c, cuts, a);
    }
    LoweredSizes(s.pending, t.pending, accounts, r);
  }

  lemma {:induction false} WholeLower(p: Txs)
    ensures Lower(p, |p|) == p
  {
    assert Restrict(p, p.Keys) == p;
  }

  /** Cuts the pending lists back to the global limit by levelling the large ones. */
  method TruncatePending(pool: TxPool, l: Runs.Limits)
    returns (ghost caps: seq<(Addr, nat)>, ghost accounts: seq<Addr>, ghost level: nat)
    requires pool.Valid() && Partition(pool.State())
    modifies pool`pending, pool`all, pool`slots, pool`nonces
    ensures pool.Valid() && pool.State() == Runs.CapAll(old(pool.State()), pool.chain, caps)
    ensures Enumerates(accounts, old(pool.pending).Keys) && KeepsLowest(old(pool.pending), pool.pending)
    ensures Truncation.Levelled(Sizes(old(pool.pending), accounts), Flags(pool.locals, accounts), l.accountSlots,
                                l.globalSlots, Sizes(pool.pending, accounts), level)
  {
    var keys := Enumerate(pool.pending.Keys);
    var r;
    r, level := Truncation.TruncatePending(Sizes(pool.pending, keys), Flags(pool.locals, keys), l.accountSlots,
        l.globalSlots);
    CapSizes(pool.State(), pool.chain, keys, r);
    pool.CapEach(Cuts(keys, r));
    caps, accounts := Cuts(keys, r), keys;
  }

  // ------------------------------------------------------------------ cutting queued

  /** Only account a's queue changed, to q. */
  ghost predicate QueueCut(s: Pool, t: Pool, a: Addr, q: Txs) {
    && (forall b {:trigger P(t, b)} :: P(t, b) == P(s, b))
    && (forall b {:trigger Q(t, b)} :: Q(t, b) == if b == a then q else Q(s, b))
  }

  lemma {:induction false} RemoveQueued(s: Pool, c: Chain, a: Addr, n: nat)
    requires Partition(s) && n in Q(s, a)
    ensures QueueCut(s, RemoveTx(s, c, Q(s, a)[n].hash), a, Q(s, a) - {n})
  {
    assert AccountOk(s, a);
    var t := RemoveTx(s, c, Q(s, a)[n].hash);
    assert s.all[Q(s, a)[n].hash] == Q(s, a)[n] && n !in P(s, a);
    assert t == Shuffle(s, a, P(s, a), Q(s, a) - {n});
  }

  lemma {:induction false} QueueCutTwice(s: Pool, t: Pool, u: Pool, a: Addr, p: Txs, q: Txs)
    requires QueueCut(s, t, a, p) && QueueCut(t, u, a, q)
    ensures QueueCut(s, u, a, q)
  {
  }

  /** What is dropped is exactly what is not among the k lowest. */
  lemma {:induction false} DropNonces(p: Txs, k: nat, drops: seq<Tx>)
    requires TxSortedMap.Keyed(p) && |TxSortedMap.Sorted(p)| == |p| && k <= |p| && |drops| == |p| - k
    requires forall i | 0 <= i < |drops| :: drops[i] == TxSortedMap.Sorted(p)[|p| - 1 - i]
    ensures p - TxSortedMap.NonceSet(drops) == Restrict(p, Lowest(p.Keys, k))
  {
    forall n | n in p
      ensures n in TxSortedMap.NonceSet(drops) <==> n !in Lowest(p.Keys, k)
    {
      var i := IndexIn(p, n);
      TailNonce(p, k, i);
      if i >= k {
        assert drops[|p| - 1 - i].nonce == n;
      } else {
        NotDropped(p, k, drops, n);
      }
    }
  }

  lemma {:induction false} NotDropped(p: Txs, k: nat, drops: seq<Tx>, n: nat)
    requires TxSortedMap.Keyed(p) && |TxSortedMap.Sorted(p)| == |p| && k <= |p| && |drops| == |p| - k
    requires forall i | 0 <= i < |drops| :: drops[i] == TxSortedMap.Sorted(p)[|p| - 1 - i]
    requires n in Lowest(p.Keys, k)
    ensures n !in TxSortedMap.NonceSet(drops)
  {
    forall j | 0 <= j < |drops|
      ensures drops[j].nonce != n
    {
      TailNonce(p, k, |p| - 1 - j);
    }
  }

  /** The drops are entries of the list, each nonce once. */
  ghost predicate DrawnFrom(drops: seq<Tx>, p: Txs) {
    && (forall i | 0 <= i < |drops| :: drops[i].nonce in p && p[drops[i].nonce] == drops[i])
    && (forall i, j | 0 <= i < j < |drops| :: drops[i].nonce != drops[j].nonce)
  }

  method Highest(p: Txs, k: nat) returns (drops: seq<Tx>)
    requires TxSortedMap.Keyed(p) && k < |p|
    ensures DrawnFrom(drops, p) && p - TxSortedMap.NonceSet(drops) == Restrict(p, Lowest(p.Keys, k))
  {
    var index := TxSortedMap.NoncesOf(p);
    index := NonceHeap.Init(index);
    var kept;
    kept, index, drops := TxSortedMap.DropHighest(p, index, k);
    DropsDescend(p, k, drops);
    DropNonces(p, k, drops);
    TxSortedMap.SortedOrdered(p);
  }

  lemma {:induction false} NonceSetGrows(drops: seq<Tx>, i: nat)
    requires i < |drops|
    ensures TxSortedMap.NonceSet(drops[..i + 1]) == TxSortedMap.NonceSet(drops[..i]) + {drops[i].nonce}
  {
    var now, before := drops[..i + 1], drops[..i];
    assert now[i].nonce in TxSortedMap.NonceSet(now);
    forall n | n in TxSortedMap.NonceSet(before)
      ensures n in TxSortedMap.NonceSet(now)
    {
      var k :| 0 <= k < |before| && before[k].nonce == n;
      assert now[k].nonce == n;
    }
    forall n | n in TxSortedMap.NonceSet(now)
      ensures n in TxSortedMap.NonceSet(before) + {drops[i].nonce}
    {
      var k :| 0 <= k < |now| && now[k].nonce == n;
      assert k == i || before[k].nonce == n;
    }
  }

  lemma {:induction false} EvictOne(s: Pool, now: Pool, c: Chain, a: Addr, drops: seq<Tx>, i: nat)
    requires Partition(now) && i < |drops| && DrawnFrom(drops, Q(s, a))
    requires QueueCut(s, now, a, Q(s, a) - TxSortedMap.NonceSet(drops[..i]))
    ensures QueueCut(s, RemoveTx(now, c, drops[i].hash), a, Q(s, a) - TxSortedMap.NonceSet(drops[..i + 1]))
  {
    var n, q := drops[i].nonce, Q(s, a) - TxSortedMap.NonceSet(drops[..i]);
    assert Q(now, a) == q;
    assert n !in TxSortedMap.NonceSet(drops[..i]);
    RemoveQueued(now, c, a, n);
    NonceSetGrows(drops, i);
    assert q - {n} == Q(s, a) - TxSortedMap.NonceSet(drops[..i + 1]);
    QueueCutTwice(s, now, RemoveTx(now, c, drops[i].hash), a, q, q - {n});
  }

  /** Drops an account's highest queued transactions until k are left. */
  method Evict(pool: TxPool, a: Addr, k: nat, bump: nat) returns (ghost hashes: seq<Hash>)
    requires pool.Valid() && Partition(pool.State())
    modifies pool`pending, pool`queue, pool`all, pool`slots, pool`nonces
    ensures pool.Valid() && pool.State() == RemoveAll(old(pool.State()), pool.chain, hashes)
    ensures QueueCut(old(pool.State()), pool.State(), a, Lower(Q(old(pool.State()), a), k))
  {
    ghost var s := pool.State();
    var list := Get(pool.queue, a);
    hashes := [];
    if |list| <= k {
      TxSortedMap.FewEnough(list, k);
      return;
    }
    assert AccountOk(s, a);
    var drops := Highest(list, k);
    hashes := EvictEach(pool, a, drops, bump);
  }

  method EvictEach(pool: TxPool, a: Addr, drops: seq<Tx>, bump: nat) returns (ghost hashes: seq<Hash>)
    requires pool.Valid() && Partition(pool.State()) && DrawnFrom(drops, Q(pool.State(), a))
    modifies pool`pending, pool`queue, pool`all, pool`slots, pool`nonces
    ensures pool.Valid() && pool.State() == RemoveAll(old(pool.State()), pool.chain, hashes)
    ensures QueueCut(old(pool.State()), pool.State(), a, Q(old(pool.State()), a) - TxSortedMap.NonceSet(drops))
  {
    ghost var s := pool.State();
    hashes := [];
    for i := 0 to |drops|
      invariant pool.Valid() && |hashes| == i && pool.State() == RemoveAll(s, pool.chain, hashes)
      invariant QueueCut(s, pool.State(), a, Q(s, a) - TxSortedMap.NonceSet(drops[..i]))
    {
      RemoveAllKeeps(s, pool.chain, hashes);
      EvictOne(s, pool.State(), pool.chain, a, drops, i);
      pool.RemoveTx(drops[i].hash, bump);
      assert (hashes + [drops[i].hash])[..i] == hashes;
      hashes := hashes + [drops[i].hash];
    }
    assert drops[..|drops|] == drops;
  }

  function Heard(beats: map<Addr, nat>, accounts: seq<Addr>): (r: seq<nat>)
    ensures |r| == |accounts|
  {
    seq(|accounts|, i requires 0 <= i < |accounts| => if accounts[i] in beats then beats[accounts[i]] else 0)
  }

  /** The first n accounts' queues are cut to their new length, all else is as before. */
  ghost predicate CutSoFar(s: Pool, t: Pool, accounts: seq<Addr>, r: seq<nat>, n: nat)
    requires |r| == |accounts|
  {
    && (forall b {:trigger P(t, b)} :: P(t, b) == P(s, b))
    && (forall b {:trigger Q(t, b)} | b !in accounts :: Q(t, b) == Q(s, b))
    && (forall i {:trigger accounts[i]} | 0 <= i < |r| ::
          Q(t, accounts[i]) == if i < n then Lower(Q(s, accounts[i]), r[i]) else Q(s, accounts[i]))
  }

  lemma {:induction false} CutNext(s: Pool, t: Pool, u: Pool, accounts: seq<Addr>, r: seq<nat>, n: nat)
    requires |r| == |accounts| && n < |r| && Distinct(accounts)
    requires CutSoFar(s, t, accounts, r, n) && QueueCut(t, u, accounts[n], Lower(Q(t, accounts[n]), r[n]))
    ensures CutSoFar(s, u, accounts, r, n + 1)
  {
    forall i | 0 <= i < |r|
      ensures Q(u, accounts[i]) == if i < n + 1 then Lower(Q(s, accounts[i]), r[i]) else Q(s, accounts[i])
    {
      assert i == n || accounts[i] != accounts[n];
    }
  }

  lemma {:induction false} AllCut(s: Pool, t: Pool, accounts: seq<Addr>, r: seq<nat>)
    requires |r| == |accounts| && CutSoFar(s, t, accounts, r, |r|)
    requires forall i | 0 <= i < |r| :: r[i] <= |Q(s, accounts[i])|
    ensures Sizes(t.queue, accounts) == r && KeepsLowest(s.queue, t.queue)
  {
    forall a | a !in accounts
      ensures Get(t.queue, a) == Get(s.queue, a)
    {
      assert Q(t, a) == Q(s, a);
    }
    LoweredSizes(s.queue, t.queue, accounts, r);
  }

  lemma {:induction false} RemoveAllAppend(s: Pool, c: Chain, x: seq<Hash>, y: seq<Hash>)
    ensures RemoveAll(s, c, x + y) == RemoveAll(RemoveAll(s, c, x), c, y)
  {
    if y == [] {
      assert x + y == x;
    } else {
      assert (x + y)[..|x + y| - 1] == x + y[..|y| - 1];
      RemoveAllAppend(s, c, x, y[..|y| - 1]);
    }
  }

  /** Cuts the queues back to the global limit, the longest unheard accounts first. */
  method TruncateQueue(pool: TxPool, beats: map<Addr, nat>, l: Runs.Limits)
    returns (ghost evict: seq<Hash>, ghost accounts: seq<Addr>)
    requires pool.Valid() && Partition(pool.State())
    modifies pool`pending, pool`queue, pool`all, pool`slots, pool`nonces
    ensures pool.Valid() && pool.State() == RemoveAll(old(pool.State()), pool.chain, evict)
    ensures Enumerates(accounts, old(pool.queue).Keys) && forall b :: P(pool.State(), b) == P(old(pool.State()), b)
    ensures KeepsLowest(old(pool.queue), pool.queue)
    ensures Truncation.OldestFirst(Sizes(old(pool.queue), accounts), Flags(pool.locals, accounts),
                                   Heard(beats, accounts), Sizes(pool.queue, accounts))
    ensures Truncation.Fits(Sizes(old(pool.queue), accounts), Flags(pool.locals, accounts), l.globalQueue,
              Sizes(pool.queue, accounts))
  {
    ghost var s := pool.State();
    var keys := Enumerate(pool.queue.Keys);
    var r := Truncation.TruncateQueue(Sizes(pool.queue, keys), Flags(pool.locals, keys), Heard(beats, keys),
        l.globalQueue);
    evict, accounts := [], keys;
    for n := 0 to |keys|
      invariant pool.Valid() && pool.State() == RemoveAll(s, pool.chain, evict) && CutSoFar(s, pool.State(), keys, r, n)
    {
      ghost var t := pool.State();
      RemoveAllKeeps(s, pool.chain, evict);
      ghost var hashes := Evict(pool, keys[n], r[n], l.bump);
      RemoveAllAppend(s, pool.chain, evict, hashes);
      CutNext(s, t, pool.State(), keys, r, n);
      evict := evict + hashes;
    }
    AllCut(s, pool.State(), keys, r);
  }

  // ------------------------------------------------------------------ the whole run

  /** The accounts whose lists were cut, and the level of the pending ones. */
  datatype Cut = Cut(pending: seq<Addr>, level: nat, queued: seq<Addr>)

  /** After the cuts the lists are within the global limits: pending lists levelled,
      queues dropped from the longest unheard account on, and every list keeps its lowest
      nonces. */
  ghost predicate WithinLimits(before: Pool, after: Pool, locals: set<Addr>, beats: map<Addr, nat>, l: Runs.Limits,
                               cut: Cut) {
    && Enumerates(cut.pending, before.pending.Keys) && Enumerates(cut.queued, before.queue.Keys)
    && KeepsLowest(before.pending, after.pending) && KeepsLowest(before.queue, after.queue)
    && Truncation.Levelled(Sizes(before.pending, cut.pending), Flags(locals, cut.pending), l.accountSlots,
                           l.globalSlots, Sizes(after.pending, cut.pending), cut.level)
    && Truncation.OldestFirst(Sizes(before.queue, cut.queued), Flags(locals, cut.queued), Heard(beats, cut.queued),
                              Sizes(after.queue, cut.queued))
    && Truncation.Fits(Sizes(before.queue, cut.queued), Flags(locals, cut.queued), l.globalQueue,
                       Sizes(after.queue, cut.queued))
  }

  /** What a run is for: new transactions only, a new head whose blocks or state are
      missing, or a new head with the transactions to offer again. */
  datatype Target = Same | Lost | At(chain: Chain, txs: seq<(Tx, bool)>)

  /** The run turns to its target; a new head's transactions are offered to the pool as
      it is then. */
  ghost predicate Reaches(s: Pool, l: Runs.Limits, base: Prices.BaseFee, start: Offers.Moment, head: Runs.Head,
                          target: Target, story: seq<Offers.Offering>) {
    match target
    case Same => head.Same?
    case Lost => head.Lost?
    case At(chain, txs) => head.New? && Offers.OffersAgain(s, l, base, start, chain, txs, head.reset, story)
  }

  /** The accounts a run tries to promote: the given ones, or for a new head exactly those
      with queued transactions. For a new head it then revalidates exactly those with
      pending ones. */
  ghost predicate Visits(s: Pool, c: Chain, l: Runs.Limits, e: Runs.Event, dirty: seq<(Addr, bool)>, locals: set<Addr>)
    requires e.Reorganise?
  {
    if e.head.Same? then e.promote == dirty
    else
      && (forall x :: x in e.promote <==> x.0 in Offered(s, l, e.head).queue && x.1 == (x.0 in locals))
      && (forall a :: a in e.demote <==> a in Runs.AfterPromote(s, c, l, e).pending)
  }

  ghost function Offered(s: Pool, l: Runs.Limits, head: Runs.Head): Pool {
    if head.New? then Runs.AfterReset(s, l, head.reset) else s
  }

  // ------------------------------------------------------------- remote transactions left

  /** Nothing entered the lookup. */
  ghost predicate Shrinks(s: Pool, t: Pool) {
    forall h | h in t.all :: h in s.all && t.all[h] == s.all[h]
  }

  lemma {:induction false} PromoteShrinks(s: Pool, c: Chain, l: Runs.Limits, order: seq<(Addr, bool)>)
    ensures Shrinks(s, Runs.PromoteAll(s, c, l, order))
  {
    if order != [] {
      PromoteShrinks(s, c, l, order[..|order| - 1]);
    }
  }

  lemma {:induction false} DemoteShrinks(s: Pool, c: Chain, order: seq<Addr>)
    ensures Shrinks(s, Runs.DemoteAll(s, c, order))
  {
    if order != [] {
      DemoteShrinks(s, c, order[..|order| - 1]);
    }
  }

  lemma {:induction false} CapShrinks(s: Pool, c: Chain, caps: seq<(Addr, nat)>)
    ensures Shrinks(s, Runs.CapAll(s, c, caps))
  {
    if caps != [] {
      CapShrinks(s, c, caps[..|caps| - 1]);
    }
  }

  lemma {:induction false} RemoveOneShrinks(s: Pool, c: Chain, h: Hash)
    ensures Shrinks(s, RemoveTx(s, c, h))
  {
  }

  lemma {:induction false} RemoveShrinks(s: Pool, c: Chain, hs: seq<Hash>)
    ensures Shrinks(s, RemoveAll(s, c, hs))
  {
    if hs != [] {
      var t := RemoveAll(s, c, hs[..|hs| - 1]);
      RemoveShrinks(s, c, hs[..|hs| - 1]);
      RemoveOneShrinks(t, c, hs[|hs| - 1]);
    }
  }

  /** What is left of the remote transactions is tracked as before. */
  lemma {:induction false} RemainingTracked(s: Pool, t: Pool, remotes: map<Hash, Tx>, entries: Prices.Bag,
                                            locals: set<Addr>)
    requires Admission.PartOf(remotes, s.all) && Shrinks(s, t)
    ensures Admission.PartOf(Admission.Remaining(remotes, t.all), t.all)
    ensures Prices.Tracks(remotes, entries) ==> Prices.Tracks(Admission.Remaining(remotes, t.all), entries)
    ensures Prices.Once(remotes, entries) ==> Prices.Once(Admission.Remaining(remotes, t.all), entries)
    ensures remotes == Admission.NonLocal(s.all, locals) ==>
              Admission.Remaining(remotes, t.all) == Admission.NonLocal(t.all, locals)
  {
  }

  /** The heaps once the run has turned to its target. */
  function HeapsAt(start: Offers.Moment, target: Target, story: seq<Offers.Offering>): Prices.Heaps {
    if target.At? then Offers.End(start, story).heaps else start.heaps
  }

  /** A new base fee orders the price list, which then tracks what is remote, each once.
      Without one the price list is as the offers left it. */
  ghost predicate Repriced(base: Prices.BaseFee, base': Prices.BaseFee, start: Offers.Moment, heaps: Prices.Heaps,
                           remotes: map<Hash, Tx>, target: Target, fee: Option<nat>, story: seq<Offers.Offering>) {
    if !target.Same? && fee.Some? then
      && base' == Prices.BaseFee(fee.value) && Prices.Balanced(base', heaps)
      && Prices.Tracks(remotes, heaps.Entries()) && Prices.Once(remotes, heaps.Entries())
    else base' == base && heaps == HeapsAt(start, target, story)
  }

  /** A reorganisation run is one step of the pool that offers again what it was given,
      visits whom it should and ends within the limits, and a forward one if no account
      nonce of the chain fell. The price list tracks every remote transaction throughout,
      and takes on the new base fee. */
  method RunReorg(pool: TxPool, priced: Prices.List, remotes: map<Hash, Tx>, target: Target, fee: Option<nat>,
                  dirty: seq<(Addr, bool)>, beats: map<Addr, nat>, changes: nat, l: Runs.Limits)
    returns (remotes': map<Hash, Tx>, changes': nat, ghost e: Runs.Event, ghost cut: Cut,
             ghost story: seq<Offers.Offering>)
    requires pool.Valid() && Partition(pool.State()) && Admission.PartOf(remotes, pool.all)
    modifies pool`pending, pool`queue, pool`all, pool`slots, pool`nonces, pool`chain, pool`locals, priced
    ensures pool.Valid() && Partition(pool.State()) && Admission.PartOf(remotes', pool.all)
    ensures changes' == 0 && pool.locals == old(pool.locals) && e.Reorganise?
    ensures Reaches(old(pool.State()), l, old(priced.baseFee),
              Offers.Moment(old(priced.Contents()), remotes, pool.locals, changes), e.head, target, story)
    ensures Runs.Node(pool.State(), pool.chain) == Runs.Next(Runs.Node(old(pool.State()), old(pool.chain)), l, e)
    ensures Visits(old(pool.State()), old(pool.chain), l, e, dirty, pool.locals)
    ensures WithinLimits(Runs.AfterDemote(old(pool.State()), old(pool.chain), l, e), pool.State(), pool.locals,
              beats, l, cut)
    ensures (forall a :: StateNonce(old(pool.chain), a) <= StateNonce(pool.chain, a)) ==>
              Runs.Forward(Runs.Node(old(pool.State()), old(pool.chain)), l, e)
    ensures remotes == Admission.NonLocal(old(pool.all), pool.locals) ==>
              remotes' == Admission.NonLocal(pool.all, pool.locals)
    ensures Prices.Tracks(remotes, old(priced.Entries())) ==> Prices.Tracks(remotes', priced.Entries())
    ensures Repriced(old(priced.baseFee), priced.baseFee,
              Offers.Moment(old(priced.Contents()), remotes, pool.locals, changes), priced.Contents(), remotes', target,
              fee, story)
  {
    ghost var s, c := pool.State(), pool.chain;
    ghost var uncut, caps, evict;
    changes' := 0;
    remotes', uncut, story := Revise(pool, priced, remotes, target, fee, dirty, changes, l);
    ghost var t := pool.State();
    caps, evict, cut := Truncate(pool, beats, l);
    e := Runs.Reorganise(uncut.head, uncut.promote, uncut.demote, caps, evict);
    SameBefore(s, c, l, uncut, e);
    Runs.ReorganisedPartition(s, c, l, e);
    TruncateShrinks(t, pool.chain, caps, evict);
    RemainingTracked(t, pool.State(), remotes', priced.Entries(), pool.locals);
    remotes' := Admission.Remaining(remotes', pool.all);
  }

  lemma {:induction false} TruncateShrinks(s: Pool, c: Chain, caps: seq<(Addr, nat)>, evict: seq<Hash>)
    ensures Shrinks(s, RemoveAll(Runs.CapAll(s, c, caps), c, evict))
  {
    CapShrinks(s, c, caps);
    RemoveShrinks(Runs.CapAll(s, c, caps), c, evict);
  }

  lemma SameBefore(s: Pool, c: Chain, l: Runs.Limits, e: Runs.Event, f: Runs.Event)
    requires e.Reorganise? && f.Reorganise? && f == e.(caps := f.caps, evict := f.evict)
    ensures Runs.AfterDemote(s, c, l, f) == Runs.AfterDemote(s, c, l, e)
            && Runs.AfterPromote(s, c, l, f) == Runs.AfterPromote(s, c, l, e)
  {
  }

  /** The run up to the truncations: reset, promotion, and for a new head demotion and the
      new base fee. */
  method Revise(pool: TxPool, priced: Prices.List, remotes: map<Hash, Tx>, target: Target, fee: Option<nat>,
                dirty: seq<(Addr, bool)>, changes: nat, l: Runs.Limits)
    returns (remotes': map<Hash, Tx>, ghost e: Runs.Event, ghost story: seq<Offers.Offering>)
    requires pool.Valid() && Partition(pool.State()) && Admission.PartOf(remotes, pool.all)
    modifies pool`pending, pool`queue, pool`all, pool`slots, pool`nonces, pool`chain, pool`locals, priced
    ensures pool.Valid() && Partition(pool.State()) && Admission.PartOf(remotes', pool.all)
    ensures e.Reorganise? && pool.chain == Runs.HeadChain(old(pool.chain), e) && pool.locals == old(pool.locals)
    ensures Reaches(old(pool.State()), l, old(priced.baseFee),
              Offers.Moment(old(priced.Contents()), remotes, pool.locals, changes), e.head, target, story)
    ensures pool.State() == Runs.AfterDemote(old(pool.State()), old(pool.chain), l, e)
    ensures Visits(old(pool.State()), old(pool.chain), l, e, dirty, pool.locals)
    ensures remotes == Admission.NonLocal(old(pool.all), pool.locals) ==>
              remotes' == Admission.NonLocal(pool.all, pool.locals)
    ensures Prices.Tracks(remotes, old(priced.Entries())) ==> Prices.Tracks(remotes', priced.Entries())
    ensures Repriced(old(priced.baseFee), priced.baseFee,
              Offers.Moment(old(priced.Contents()), remotes, pool.locals, changes), priced.Contents(), remotes', target,
              fee, story)
  {
    ghost var head, promote, demote;
    ghost var start := Offers.Moment(priced.Contents(), remotes, pool.locals, changes);
    remotes', head, story := Turn(pool, priced, remotes, target, changes, l);
    ghost var t := pool.State();
    promote, demote := Visit(pool, target.Same?, dirty, l);
    e := Runs.Reorganise(head, promote, demote, [], []);
    RemainingTracked(t, pool.State(), remotes', priced.Entries(), pool.locals);
    remotes' := Admission.Remaining(remotes', pool.all);
    Admission.KnownByHash(pool.State());
    Reprice(priced, remotes', target, fee, start, story);
  }

  /** Takes on the new base fee, if there is one. */
  method Reprice(priced: Prices.List, remotes: map<Hash, Tx>, target: Target, fee: Option<nat>,
                 ghost start: Offers.Moment, ghost story: seq<Offers.Offering>)
    requires Prices.HashKeyed(remotes) && priced.Contents() == HeapsAt(start, target, story)
    modifies priced
    ensures Repriced(old(priced.baseFee), priced.baseFee, start, priced.Contents(), remotes, target, fee, story)
    ensures Prices.Tracks(remotes, old(priced.Entries())) ==> Prices.Tracks(remotes, priced.Entries())
  {
    if !target.Same? && fee.Some? {
      priced.SetBaseFee(fee.value, remotes);
    }
  }

  /** Promotion, and for a new head demotion. */
  method Visit(pool: TxPool, same: bool, dirty: seq<(Addr, bool)>, l: Runs.Limits)
    returns (ghost promote: seq<(Addr, bool)>, ghost demote: seq<Addr>)
    requires pool.Valid() && Partition(pool.State())
    modifies pool`pending, pool`queue, pool`all, pool`slots, pool`nonces
    ensures pool.Valid() && Partition(pool.State()) && Shrinks(old(pool.State()), pool.State())
    ensures same ==> promote == dirty && pool.State() == Runs.PromoteAll(old(pool.State()), pool.chain, l, promote)
    ensures !same ==> forall x :: x in promote <==> x.0 in old(pool.queue) && x.1 == (x.0 in pool.locals)
    ensures !same ==>
              var t := Runs.PromoteAll(old(pool.State()), pool.chain, l, promote);
              && (forall a :: a in demote <==> a in t.pending)
              && pool.State() == PoolReorg.SetAllNonces(Runs.DemoteAll(t, pool.chain, demote))
  {
    ghost var s := pool.State();
    var order := dirty;
    if !same {
      order := pool.QueuedAccounts();
    }
    promote, demote := order, [];
    pool.PromoteExecutables(order, l);
    ghost var t := pool.State();
    Runs.PromoteAllPartition(s, pool.chain, l, promote);
    if !same {
      demote := pool.Revalidate(l);
      RevalidatedPartition(t, pool.chain, demote);
    }
    ReviseShrinks(s, pool.chain, l, promote, demote);
  }

  lemma {:induction false} RevalidatedPartition(s: Pool, c: Chain, order: seq<Addr>)
    requires Partition(s)
    ensures Partition(PoolReorg.SetAllNonces(Runs.DemoteAll(s, c, order)))
  {
    Runs.DemoteAllPartition(s, c, order);
    NoncesDoNotMatter(Runs.DemoteAll(s, c, order), PoolReorg.SetAllNonces(Runs.DemoteAll(s, c, order)));
  }

  lemma {:induction false} ReviseShrinks(s: Pool, c: Chain, l: Runs.Limits, promote: seq<(Addr, bool)>,
                                         demote: seq<Addr>)
    ensures var t := Runs.PromoteAll(s, c, l, promote);
            Shrinks(s, t) && Shrinks(s, PoolReorg.SetAllNonces(Runs.DemoteAll(t, c, demote)))
  {
    PromoteShrinks(s, c, l, promote);
    DemoteShrinks(Runs.PromoteAll(s, c, l, promote), c, demote);
  }

  /** Turns to the new head, if there is one that is not lost. */
  method Turn(pool: TxPool, priced: Prices.List, remotes: map<Hash, Tx>, target: Target, changes: nat, l: Runs.Limits)
    returns (remotes': map<Hash, Tx>, ghost head: Runs.Head, ghost story: seq<Offers.Offering>)
    requires pool.Valid() && Partition(pool.State()) && Admission.PartOf(remotes, pool.all)
    modifies pool`pending, pool`queue, pool`all, pool`slots, pool`nonces, pool`chain, pool`locals, priced
    ensures pool.Valid() && Partition(pool.State()) && Admission.PartOf(remotes', pool.all)
    ensures Reaches(old(pool.State()), l, priced.baseFee,
              Offers.Moment(old(priced.Contents()), remotes, pool.locals, changes), head, target, story)
    ensures priced.baseFee == old(priced.baseFee) && pool.locals == old(pool.locals)
    ensures priced.Contents() ==
            HeapsAt(Offers.Moment(old(priced.Contents()), remotes, pool.locals, changes), target, story)
    ensures pool.State() == Offered(old(pool.State()), l, head)
    ensures pool.chain == if head.New? then head.reset.chain else old(pool.chain)
    ensures remotes == Admission.NonLocal(old(pool.all), pool.locals) ==>
              remotes' == Admission.NonLocal(pool.all, pool.locals)
    ensures Prices.Tracks(remotes, old(priced.Entries())) ==> Prices.Tracks(remotes', priced.Entries())
  {
    remotes', head, story := remotes, if target.Same? then Runs.Same else Runs.Lost, [];
    if target.At? {
      ghost var r;
      var answers;
      answers, remotes', r, story := Offers.Reset(pool, priced, remotes, target.chain, target.txs, changes, l);
      head := Runs.New(r);
    }
  }

  /** Both truncations. */
  method Truncate(pool: TxPool, beats: map<Addr, nat>, l: Runs.Limits)
    returns (ghost caps: seq<(Addr, nat)>, ghost evict: seq<Hash>, ghost cut: Cut)
    requires pool.Valid() && Partition(pool.State())
    modifies pool`pending, pool`queue, pool`all, pool`slots, pool`nonces
    ensures pool.Valid()
    ensures pool.State() == RemoveAll(Runs.CapAll(old(pool.State()), pool.chain, caps), pool.chain, evict)
    ensures WithinLimits(old(pool.State()), pool.State(), pool.locals, beats, l, cut)
  {
    ghost var s := pool.State();
    ghost var accounts, level, queued;
    caps, accounts, level := TruncatePending(pool, l);
    ghost var t := pool.State();
    Runs.CapAllPartition(s, pool.chain, caps);
    evict, queued := TruncateQueue(pool, beats, l);
    SamePending(s.pending, t, pool.State(), accounts);
    cut := Cut(accounts, level, queued);
  }

  lemma {:induction false} SamePending(before: map<Addr, Txs>, s: Pool, t: Pool, accounts: seq<Addr>)
    requires KeepsLowest(before, s.pending) && forall b :: P(t, b) == P(s, b)
    ensures Sizes(t.pending, accounts) == Sizes(s.pending, accounts) && KeepsLowest(before, t.pending)
  {
    forall i | 0 <= i < |accounts|
      ensures |Get(t.pending, accounts[i])| == |Get(s.pending, accounts[i])|
    {
      assert P(t, accounts[i]) == P(s, accounts[i]);
    }
    forall a
      ensures Get(t.pending, a) == Lower(Get(before, a), |Get(t.pending, a)|)
    {
      assert P(t, a) == P(s, a);
    }
  }
}
