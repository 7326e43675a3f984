/** Admission of a transaction to a pool that may be full: what the price list gives up
    to make room, and the bound on the pool's slots that results. */
module PoolAdmission {
  import opened PoolLists
  import opened PoolState
  import opened PoolSteps
  import Prices = PricedList
  import opened TxLookup
  import opened TxPool
  import Runs = PoolRuns

  /** What becomes of an offered transaction: the pool's own answer with what was dropped
      to make room, or a refusal for lack of room. */
  datatype Answer = Answered(added: Added, drop: seq<Tx>) | TooCheap | Overflow

  /** The price list's answer: what to drop, or a refusal. */
  datatype Room = Made(drop: seq<Tx>) | Refused(why: Answer)

  predicate Accepted(added: Added) {
    added.Queued? || added.Replaced?
  }

  /** Accepted as a remote transaction. */
  predicate Joins(r: Answer, isLocal: bool) {
    r.Answered? && Accepted(r.added) && !isLocal
  }

  function Capacity(l: Runs.Limits): nat {
    l.globalSlots + l.globalQueue
  }

  /** The remote part of the lookup. */
  ghost predicate PartOf(remotes: map<Hash, Tx>, all: map<Hash, Tx>) {
    forall h | h in remotes :: h in all && all[h] == remotes[h]
  }

  /** The remote transactions that are still in the pool. */
  function Remaining(remotes: map<Hash, Tx>, all: map<Hash, Tx>): map<Hash, Tx> {
    map h | h in remotes && h in all :: remotes[h]
  }

  /** The remote transactions after an offer: those still in the pool, and the offered one
      if it joins them. */
  function RemotesAfter(remotes: map<Hash, Tx>, all: map<Hash, Tx>, tx: Tx, joins: bool): map<Hash, Tx> {
    if joins then Remaining(remotes, all)[tx.hash := tx] else Remaining(remotes, all)
  }

  /** The transactions of accounts that are not local. */
  function NonLocal(all: map<Hash, Tx>, locals: set<Addr>): map<Hash, Tx> {
    map h | h in all && all[h].from !in locals :: all[h]
  }

  // ----------------------------------------------------------------- slots of the pool

  /** Removing a known transaction takes exactly it from the lookup. */
  lemma {:induction false} RemoveTakesOne(s: Pool, c: Chain, h: Hash)
    requires Partition(s)
    ensures RemoveTx(s, c, h).all == s.all - {h}
  {
    if h in s.all {
      var t := s.all[h];
      var p := P(s, t.from);
      if t.nonce in p {
        RemovedGone(s, h, Restrict(p, set n | n in p && n < t.nonce), Restrict(p, set n | n in p && n > t.nonce));
      } else {
        QueuedGone(s, h);
      }
    } else {
      assert s.all - {h} == s.all;
    }
  }

  function SetOf(hs: seq<Hash>): set<Hash> {
    set i | 0 <= i < |hs| :: hs[i]
  }

  lemma {:induction false} SetOfLast(hs: seq<Hash>)
    requires hs != []
    ensures SetOf(hs) == SetOf(hs[..|hs| - 1]) + {hs[|hs| - 1]}
  {
    var init := hs[..|hs| - 1];
    forall h | h in SetOf(hs)
      ensures h in SetOf(init) + {hs[|hs| - 1]}
    {
      var i :| 0 <= i < |hs| && hs[i] == h;
      assert i == |hs| - 1 || init[i] == h;
    }
    forall h | h in SetOf(init)
      ensures h in SetOf(hs)
    {
      var i :| 0 <= i < |init| && init[i] == h;
      assert hs[i] == h;
    }
    assert hs[|hs| - 1] in SetOf(hs);
  }

  lemma {:induction false} RemoveTakesAll(s: Pool, c: Chain, hs: seq<Hash>)
    requires Partition(s)
    ensures RemoveAll(s, c, hs).all == s.all - SetOf(hs)
  {
    if hs == [] {
      assert s.all - SetOf(hs) == s.all;
    } else {
      var init, last := hs[..|hs| - 1], hs[|hs| - 1];
      RemoveTakesAll(s, c, init);
      RemoveAllKeeps(s, c, init);
      RemoveTakesOne(RemoveAll(s, c, init), c, last);
      SetOfLast(hs);
      assert s.all - SetOf(init) - {last} == s.all - SetOf(hs);
    }
  }

  function HashSeq(txs: seq<Tx>): (hs: seq<Hash>)
    ensures |hs| == |txs|
  {
    seq(|txs|, i requires 0 <= i < |txs| => txs[i].hash)
  }

  /** Dropping distinct known transactions frees exactly their slots. */
  lemma {:induction false} DropsFree(all: map<Hash, Tx>, drop: seq<Tx>)
    requires forall i | 0 <= i < |drop| :: drop[i].hash in all && all[drop[i].hash] == drop[i]
    requires Prices.DistinctHashes(drop)
    ensures SlotSum(all - SetOf(HashSeq(drop))) == SlotSum(all) - Prices.SlotsOf(drop)
  {
    if drop == [] {
      assert all - SetOf(HashSeq(drop)) == all;
    } else {
      var n := |drop| - 1;
      var init, last := drop[..n], drop[n];
      DropsFree(all, init);
      assert HashSeq(drop)[..n] == HashSeq(init);
      SetOfLast(HashSeq(drop));
      var rest := all - SetOf(HashSeq(init));
      NotAmong(init, last);
      SlotSumWithout(rest, last.hash);
      assert rest - {last.hash} == all - SetOf(HashSeq(drop));
    }
  }

  lemma {:induction false} NotAmong(txs: seq<Tx>, tx: Tx)
    requires forall i | 0 <= i < |txs| :: txs[i].hash != tx.hash
    ensures tx.hash !in SetOf(HashSeq(txs))
  {
  }

  /** Dropping known transactions frees the slots it counts if and only if it drops none
      of them twice, and otherwise fewer. */
  lemma {:induction false} FreesIffDistinct(all: map<Hash, Tx>, drop: seq<Tx>)
    requires forall i | 0 <= i < |drop| :: drop[i].hash in all && all[drop[i].hash] == drop[i] && NumSlots(drop[i]) > 0
    ensures SlotSum(all - SetOf(HashSeq(drop))) >= SlotSum(all) - Prices.SlotsOf(drop)
    ensures SlotSum(all - SetOf(HashSeq(drop))) == SlotSum(all) - Prices.SlotsOf(drop) <==>
            Prices.DistinctHashes(drop)
  {
    if Prices.DistinctHashes(drop) {
      DropsFree(all, drop);
    } else {
      FreesFewer(all, drop);
    }
  }

  lemma {:induction false} FreesFewer(all: map<Hash, Tx>, drop: seq<Tx>)
    requires forall i | 0 <= i < |drop| :: drop[i].hash in all && all[drop[i].hash] == drop[i] && NumSlots(drop[i]) > 0
    requires !Prices.DistinctHashes(drop)
    ensures SlotSum(all - SetOf(HashSeq(drop))) > SlotSum(all) - Prices.SlotsOf(drop)
  {
    var n := |drop| - 1;
    var init, last := drop[..n], drop[n];
    var rest := all - SetOf(HashSeq(init));
    assert HashSeq(drop)[..n] == HashSeq(init);
    SetOfLast(HashSeq(drop));
    assert all - SetOf(HashSeq(drop)) == rest - {last.hash};
    if last.hash in rest {
      SlotSumWithout(rest, last.hash);
      NoneAmong(init, last);
    } else {
      assert rest - {last.hash} == rest;
    }
    if Prices.DistinctHashes(init) {
      DropsFree(all, init);
    } else {
      FreesFewer(all, init);
    }
  }

  lemma {:induction false} NoneAmong(txs: seq<Tx>, tx: Tx)
    requires tx.hash !in SetOf(HashSeq(txs))
    ensures forall i | 0 <= i < |txs| :: txs[i].hash != tx.hash
  {
    forall i | 0 <= i < |txs|
      ensures txs[i].hash != tx.hash
    {
      assert HashSeq(txs)[i] in SetOf(HashSeq(txs));
    }
  }

  /** Inserting adds at most the transaction's own slots. */
  lemma {:induction false} OfferSlots(s: Pool, tx: Tx, bump: nat)
    requires tx.hash !in s.all
    ensures SlotSum(Offer(s, tx, bump).0.all) <= SlotSum(s.all) + NumSlots(tx)
  {
    var p, q := P(s, tx.from), Q(s, tx.from);
    if tx.nonce in p && Replaces(tx, p[tx.nonce], bump) {
      SwapSlots(s.all, p[tx.nonce].hash, tx);
    } else if tx.nonce !in p && tx.nonce in q && Replaces(tx, q[tx.nonce], bump) {
      SwapSlots(s.all, q[tx.nonce].hash, tx);
    } else if tx.nonce !in p && tx.nonce !in q {
      assert s.all - {} == s.all;
      AddSlots(s.all, tx);
    }
  }

  lemma {:induction false} AddSlots(all: map<Hash, Tx>, tx: Tx)
    requires tx.hash !in all
    ensures SlotSum(all + map[tx.hash := tx]) == SlotSum(all) + NumSlots(tx)
  {
    assert all + map[tx.hash := tx] == all[tx.hash := tx];
    SlotSumWith(all, tx.hash, tx);
  }

  lemma {:induction false} SwapSlots(all: map<Hash, Tx>, prev: Hash, tx: Tx)
    requires tx.hash !in all
    ensures SlotSum((all - {prev}) + map[tx.hash := tx]) <= SlotSum(all) + NumSlots(tx)
  {
    AddSlots(all - {prev}, tx);
    if prev in all {
      SlotSumWithout(all, prev);
    } else {
      assert all - {prev} == all;
    }
  }

  // ----------------------------------------------------------------------- admission

  /** The drops free the slots they count, if no live entry is there twice. */
  lemma {:induction false} RoomMade(s: Pool, c: Chain, remotes: map<Hash, Tx>, before: Prices.Bag, after: Prices.Bag,
                                    drop: seq<Tx>)
    requires Partition(s) && PartOf(remotes, s.all) && Prices.Conserved(remotes, before, after, drop)
    ensures Prices.Once(remotes, before) ==>
              SlotSum(RemoveAll(s, c, HashSeq(drop)).all) == SlotSum(s.all) - Prices.SlotsOf(drop)
  {
    if Prices.Once(remotes, before) {
      Prices.DropsLive(remotes, before, after, drop);
      Prices.DropsDistinct(remotes, before, after, drop);
      RemoveTakesAll(s, c, HashSeq(drop));
      DropsFree(s.all, drop);
    }
  }

  /** In general they do so if and only if none is dropped twice. */
  lemma {:induction false} RoomIffDistinct(s: Pool, c: Chain, remotes: map<Hash, Tx>, before: Prices.Bag,
                                           after: Prices.Bag, drop: seq<Tx>)
    requires Partition(s) && PartOf(remotes, s.all) && Prices.Matches(remotes, before)
    requires Prices.Conserved(remotes, before, after, drop) && forall tx | tx in before :: NumSlots(tx) > 0
    ensures SlotSum(RemoveAll(s, c, HashSeq(drop)).all) >= SlotSum(s.all) - Prices.SlotsOf(drop)
    ensures SlotSum(RemoveAll(s, c, HashSeq(drop)).all) == SlotSum(s.all) - Prices.SlotsOf(drop) <==>
            Prices.DistinctHashes(drop)
  {
    Prices.DropsLive(remotes, before, after, drop);
    RemoveTakesAll(s, c, HashSeq(drop));
    FreesIffDistinct(s.all, drop);
  }

  /** The pool is full, and a remote transaction undercuts what it tracks. */
  ghost predicate Cheap(slots: int, heaps: Prices.Heaps, base: Prices.BaseFee, remotes: map<Hash, Tx>, tx: Tx,
                        isLocal: bool, l: Runs.Limits) {
    && slots + NumSlots(tx) > Capacity(l) && !isLocal
    && Prices.Undercut(base, heaps.urgent, heaps.floating, remotes, tx)
  }

  /** The pool is full, the transaction is not too cheap, and there were too many changes
      since the last reorganisation run or the remote transactions are too few. */
  ghost predicate Crowded(slots: int, heaps: Prices.Heaps, base: Prices.BaseFee, remotes: map<Hash, Tx>, tx: Tx,
                          isLocal: bool, changes: nat, l: Runs.Limits) {
    && slots + NumSlots(tx) > Capacity(l) && !Cheap(slots, heaps, base, remotes, tx, isLocal, l)
    && (changes > l.globalSlots / 4
        || (!isLocal && Prices.LiveSlots(remotes, heaps.Entries()) < slots + NumSlots(tx) - Capacity(l)))
  }

  /** Enough slots are dropped, or every tracked transaction for a local one: the worst
      ones, no more than needed, and all other live entries stay. */
  ghost predicate MadeRoom(remotes: map<Hash, Tx>, base: Prices.BaseFee, before: Prices.Heaps, after: Prices.Heaps,
                           drop: seq<Tx>, slots: int, isLocal: bool) {
    && Prices.Conserved(remotes, before.Entries(), after.Entries(), drop) && Prices.AllLive(remotes, drop)
    && Prices.WorstDropped(remotes, base, before, after, drop, slots)
    && (Prices.SlotsOf(drop) >= slots || (isLocal && after.Entries() == multiset{}))
  }

  /** The decision on a transaction: too cheap, too crowded, or room is made for it. */
  ghost predicate Decided(slots: int, heaps: Prices.Heaps, base: Prices.BaseFee, remotes: map<Hash, Tx>, tx: Tx,
                          isLocal: bool, changes: nat, l: Runs.Limits, room: Room, kept: Prices.Heaps) {
    && (room == Refused(TooCheap) <==> Cheap(slots, heaps, base, remotes, tx, isLocal, l))
    && (room == Refused(Overflow) <==> Crowded(slots, heaps, base, remotes, tx, isLocal, changes, l))
    && (if room.Made?
        then MadeRoom(remotes, base, heaps, kept, room.drop, slots + NumSlots(tx) - Capacity(l), isLocal)
        else !room.why.Answered? && Prices.Conserved(remotes, heaps.Entries(), kept.Entries(), []))
  }

  /** Asks the price list for room: none is needed while the transaction fits. */
  method MakeRoom(slots: int, heaps: Prices.Heaps, base: Prices.BaseFee, remotes: map<Hash, Tx>, tx: Tx, isLocal: bool,
                  changes: nat, l: Runs.Limits)
    returns (room: Room, kept: Prices.Heaps)
    ensures Decided(slots, heaps, base, remotes, tx, isLocal, changes, l, room, kept)
  {
    var need := slots + NumSlots(tx) - Capacity(l);
    Prices.NothingMoved(remotes, base, heaps);
    kept := heaps;
    if need <= 0 {
      return Made([]), kept;
    }
    if !isLocal {
      var under;
      kept, under := Prices.Settle(heaps, base, remotes, tx);
      Prices.SettledEntries(remotes, base, heaps, kept);
      if under {
        return Refused(TooCheap), kept;
      }
    }
    if changes > l.globalSlots / 4 {
      return Refused(Overflow), kept;
    }
    room, kept := FindRoom(kept, base, remotes, need, isLocal, heaps);
  }

  /** Discards for the slots needed, after stale entries have gone. */
  method FindRoom(settled: Prices.Heaps, base: Prices.BaseFee, remotes: map<Hash, Tx>, need: int, isLocal: bool,
                  ghost heaps: Prices.Heaps)
    returns (room: Room, kept: Prices.Heaps)
    requires Prices.Settled(remotes, base, heaps, settled)
    ensures room.Made? <==> isLocal || Prices.LiveSlots(remotes, heaps.Entries()) >= need
    ensures if room.Made? then MadeRoom(remotes, base, heaps, kept, room.drop, need, isLocal)
            else room == Refused(Overflow) && Prices.Conserved(remotes, heaps.Entries(), kept.Entries(), [])
  {
    Prices.SettledEntries(remotes, base, heaps, settled);
    var drop, ok;
    kept, drop, ok := Prices.DiscardFrom(settled, base, remotes, need, isLocal);
    Prices.ConservedTwice(remotes, heaps.Entries(), settled.Entries(), kept.Entries(), drop);
    if !ok {
      return Refused(Overflow), kept;
    }
    Prices.SettledFirst(remotes, base, heaps, settled, kept, drop, need);
    return Made(drop), kept;
  }

  // ------------------------------------------------------------- what is left of the pool

  /** What an offer leaves in the lookup: what was there, not what it drops, and the
      transaction itself if it is accepted. */
  ghost predicate LeftAfter(before: map<Hash, Tx>, after: map<Hash, Tx>, drop: seq<Tx>, tx: Tx, accepted: bool) {
    && (forall h | h in after :: h == tx.hash || (h in before && after[h] == before[h]))
    && (forall i | 0 <= i < |drop| :: drop[i].hash !in after)
    && (if accepted then tx.hash in after && after[tx.hash] == tx else tx.hash !in after)
  }

  /** Offering changes the lookup by the transaction and the one it replaces. */
  lemma {:induction false} OfferAll(s: Pool, tx: Tx, bump: nat, r: (Pool, Added)) returns (prev: set<Hash>)
    requires r == Offer(s, tx, bump)
    ensures r.0.all == if Accepted(r.1) then (s.all - prev) + map[tx.hash := tx] else s.all
  {
    var p, q := P(s, tx.from), Q(s, tx.from);
    prev := if tx.nonce in p then {p[tx.nonce].hash} else if tx.nonce in q then {q[tx.nonce].hash} else {};
  }

  lemma {:induction false} OfferLeaves(s: Pool, c: Chain, drop: seq<Tx>, tx: Tx, bump: nat, left: Pool,
                                       r: (Pool, Added))
    requires Partition(s) && tx.hash !in s.all && forall i | 0 <= i < |drop| :: drop[i].hash != tx.hash
    requires left == RemoveAll(s, c, HashSeq(drop)) && r == Offer(left, tx, bump)
    ensures LeftAfter(s.all, r.0.all, drop, tx, Accepted(r.1))
  {
    RemoveTakesAll(s, c, HashSeq(drop));
    var prev := OfferAll(left, tx, bump, r);
    LeavesOf(s.all, left.all, drop, tx, prev);
  }

  lemma {:induction false} LeavesOf(before: map<Hash, Tx>, left: map<Hash, Tx>, drop: seq<Tx>, tx: Tx, prev: set<Hash>)
    requires left == before - SetOf(HashSeq(drop)) && tx.hash !in before
    requires forall i | 0 <= i < |drop| :: drop[i].hash != tx.hash
    ensures LeftAfter(before, (left - prev) + map[tx.hash := tx], drop, tx, true)
    ensures LeftAfter(before, left, drop, tx, false)
  {
    forall i | 0 <= i < |drop|
      ensures drop[i].hash !in left
    {
      assert HashSeq(drop)[i] in SetOf(HashSeq(drop));
    }
  }

  /** New transactions are urgent first. */
  ghost function Joined(heaps: Prices.Heaps, tx: Tx, joins: bool): Prices.Heaps {
    if joins then heaps.(urgent := heaps.urgent + multiset{tx}) else heaps
  }

  lemma {:induction false} JoinedEntries(heaps: Prices.Heaps, tx: Tx, joins: bool)
    ensures Joined(heaps, tx, joins).Entries() == if joins then heaps.Entries() + multiset{tx} else heaps.Entries()
  {
  }

  /** What an offer means for the price list: it keeps tracking every remote transaction
      of the pool, and keeps every live entry there once if and only if the transaction
      that joins has no entry yet, live or stale. */
  ghost predicate Booked(remotes: map<Hash, Tx>, entries: Prices.Bag, all: map<Hash, Tx>, kept: Prices.Bag, tx: Tx,
                         joins: bool, remotes': map<Hash, Tx>, entries': Prices.Bag) {
    && remotes' == RemotesAfter(remotes, all, tx, joins) && PartOf(remotes', all)
    && entries' == (if joins then kept + multiset{tx} else kept)
    && (Prices.Tracks(remotes, entries) ==> Prices.Tracks(remotes', entries'))
    && (Prices.Once(remotes, entries) ==>
          (Prices.Once(remotes', entries') <==> (joins ==> forall y | y in kept :: y.hash != tx.hash)))
  }

  lemma {:induction false} Rebooked(before: map<Hash, Tx>, after: map<Hash, Tx>, remotes: map<Hash, Tx>, drop: seq<Tx>,
                                    tx: Tx, joins: bool, entries: Prices.Bag, kept: Prices.Bag)
    requires Prices.HashKeyed(before) && PartOf(remotes, before) && tx.hash !in before
    requires Prices.Conserved(remotes, entries, kept, drop)
    requires LeftAfter(before, after, drop, tx, tx.hash in after) && (joins ==> tx.hash in after)
    ensures Booked(remotes, entries, after, kept, tx, joins, RemotesAfter(remotes, after, tx, joins),
              if joins then kept + multiset{tx} else kept)
  {
    var left := RemotesAfter(remotes, after, tx, false);
    if Prices.Tracks(remotes, entries) {
      Prices.TracksRest(remotes, left, entries, kept, drop);
    }
    if Prices.Once(remotes, entries) {
      Prices.OnceKept(remotes, left, entries, kept, drop);
      Prices.OnceIffUntracked(left, kept, tx);
    }
  }

  /** The lookup loses transactions, and gains the offered one exactly if it is accepted. */
  ghost predicate Gains(before: map<Hash, Tx>, after: map<Hash, Tx>, tx: Tx, accepted: bool) {
    && (forall h | h in after :: (h in before && after[h] == before[h]) || (accepted && h == tx.hash))
    && (accepted ==> tx.hash in after && after[tx.hash] == tx && tx.hash !in before)
  }

  lemma {:induction false} Unbooked(all: map<Hash, Tx>, remotes: map<Hash, Tx>, tx: Tx, entries: Prices.Bag,
                                    kept: Prices.Bag)
    requires Prices.HashKeyed(all) && PartOf(remotes, all) && Prices.Conserved(remotes, entries, kept, [])
    ensures Booked(remotes, entries, all, kept, tx, false, remotes, kept)
  {
    assert RemotesAfter(remotes, all, tx, false) == remotes;
    if Prices.Tracks(remotes, entries) {
      Prices.TracksRest(remotes, remotes, entries, kept, []);
    }
    if Prices.Once(remotes, entries) {
      Prices.OnceKept(remotes, remotes, entries, kept, []);
    }
  }

  lemma {:induction false} KnownByHash(s: Pool)
    requires Partition(s)
    ensures Prices.HashKeyed(s.all)
  {
    forall h | h in s.all
      ensures s.all[h].hash == h
    {
      assert Listed(s, h);
    }
  }

  /** Removes what is dropped, then offers the transaction to the lists and, if it is
      accepted, to the price list. */
  method Place(pool: TxPool, priced: Prices.List, remotes: map<Hash, Tx>, drop: seq<Tx>, tx: Tx, isLocal: bool,
               bump: nat, ghost entries: Prices.Bag)
    returns (added: Added, remotes': map<Hash, Tx>)
    requires pool.Valid() && Partition(pool.State()) && PartOf(remotes, pool.all) && tx.hash !in pool.all
    requires Prices.Conserved(remotes, entries, priced.Entries(), drop)
    modifies pool`pending, pool`queue, pool`all, pool`slots, pool`nonces, priced
    ensures pool.Valid() && Partition(pool.State())
    ensures (pool.State(), added) == Offer(RemoveAll(old(pool.State()), pool.chain, HashSeq(drop)), tx, bump)
    ensures Prices.Once(remotes, entries) ==>
              pool.slots <= old(pool.slots) - Prices.SlotsOf(drop) + NumSlots(tx)
    ensures priced.baseFee == old(priced.baseFee)
    ensures priced.Contents() == Joined(old(priced.Contents()), tx, Accepted(added) && !isLocal)
    ensures Gains(old(pool.all), pool.all, tx, Accepted(added))
    ensures Booked(remotes, entries, pool.all, old(priced.Entries()), tx, Accepted(added) && !isLocal, remotes',
              priced.Entries())
  {
    ghost var s, heaps, kept := pool.State(), priced.Contents(), priced.Entries();
    KnownByHash(s);
    Prices.DropsLive(remotes, entries, kept, drop);
    RemoveAllKeeps(s, pool.chain, HashSeq(drop));
    RemoveTakesAll(s, pool.chain, HashSeq(drop));
    RoomMade(s, pool.chain, remotes, entries, kept, drop);
    pool.RemoveEach(HashSeq(drop), bump);
    ghost var left := pool.State();
    OfferSlots(left, tx, bump);
    OfferKeeps(left, pool.chain, tx, bump);
    added := pool.Insert(tx, bump);
    OfferLeaves(s, pool.chain, drop, tx, bump, left, (pool.State(), added));
    if Accepted(added) {
      priced.Put(tx, isLocal);
    }
    remotes' := RemotesAfter(remotes, pool.all, tx, Accepted(added) && !isLocal);
    Rebooked(s.all, pool.all, remotes, drop, tx, Accepted(added) && !isLocal, entries, kept);
    JoinedEntries(heaps, tx, Accepted(added) && !isLocal);
  }

  function RoomOf(r: Answer): Room {
    if r.Answered? then Made(r.drop) else Refused(r)
  }

  /** The decision on an unknown valid transaction, and what it means for the pool. */
  method Admit(pool: TxPool, priced: Prices.List, remotes: map<Hash, Tx>, tx: Tx, isLocal: bool, changes: nat,
               l: Runs.Limits)
    returns (r: Answer, remotes': map<Hash, Tx>, ghost kept: Prices.Heaps)
    requires pool.Valid() && Partition(pool.State()) && PartOf(remotes, pool.all) && tx.hash !in pool.all
    modifies pool`pending, pool`queue, pool`all, pool`slots, pool`nonces, priced
    ensures pool.Valid() && Partition(pool.State())
    ensures if r.Answered?
            then (pool.State(), r.added) ==
                 Offer(RemoveAll(old(pool.State()), pool.chain, HashSeq(r.drop)), tx, l.bump)
            else pool.State() == old(pool.State())
    ensures Decided(old(pool.slots), old(priced.Contents()), priced.baseFee, remotes, tx, isLocal, changes, l,
              RoomOf(r), kept)
    ensures priced.baseFee == old(priced.baseFee) && priced.Contents() == Joined(kept, tx, Joins(r, isLocal))
    ensures Booked(remotes, old(priced.Entries()), pool.all, kept.Entries(), tx, Joins(r, isLocal), remotes',
              priced.Entries())
    ensures Gains(old(pool.all), pool.all, tx, r.Answered? && Accepted(r.added))
    ensures Joins(r, isLocal) && Prices.Once(remotes, old(priced.Entries())) ==> pool.slots <= Capacity(l)
  {
    ghost var s, heaps := pool.State(), priced.Contents();
    var room, left := MakeRoom(pool.slots, priced.Contents(), priced.baseFee, remotes, tx, isLocal, changes, l);
    priced.urgent, priced.floating, kept := left.urgent, left.floating, left;
    if room.Refused? {
      KnownByHash(s);
      Unbooked(pool.all, remotes, tx, heaps.Entries(), kept.Entries());
      return room.why, remotes, kept;
    }
    var added;
    added, remotes' := Place(pool, priced, remotes, room.drop, tx, isLocal, l.bump, heaps.Entries());
    r := Answered(added, room.drop);
  }

  /** The pool's step for an offer: none if it is refused for lack of room. */
  ghost predicate Steps(s: Pool, t: Pool, c: Chain, l: Runs.Limits, tx: Tx, sane: bool, r: Answer) {
    if r.Answered? then (t, r.added) == PoolSteps.Add(s, c, tx, sane, HashSeq(r.drop), l.bump) else t == s
  }

  /** An unknown valid transaction is decided on; any other needs no room. */
  ghost predicate Ruled(s: Pool, c: Chain, l: Runs.Limits, heaps: Prices.Heaps, base: Prices.BaseFee,
                        remotes: map<Hash, Tx>, tx: Tx, sane: bool, isLocal: bool, changes: nat, r: Answer,
                        kept: Prices.Heaps) {
    if tx.hash !in s.all && Admissible(c, tx, sane)
    then Decided(SlotSum(s.all), heaps, base, remotes, tx, isLocal, changes, l, RoomOf(r), kept)
    else RoomOf(r) == Made([]) && kept == heaps
  }

  /** Adds a transaction as a local or a remote one. */
  method AddAs(pool: TxPool, priced: Prices.List, remotes: map<Hash, Tx>, tx: Tx, isLocal: bool, sane: bool,
             changes: nat, l: Runs.Limits)
    returns (r: Answer, remotes': map<Hash, Tx>, changes': nat, ghost kept: Prices.Heaps)
    requires pool.Valid() && Partition(pool.State()) && PartOf(remotes, pool.all)
    modifies pool`pending, pool`queue, pool`all, pool`slots, pool`nonces, priced
    ensures pool.Valid() && Partition(pool.State())
    ensures Steps(old(pool.State()), pool.State(), pool.chain, l, tx, sane, r)
    ensures Ruled(old(pool.State()), pool.chain, l, old(priced.Contents()), priced.baseFee, remotes, tx, sane, isLocal,
              changes, r, kept)
    ensures priced.baseFee == old(priced.baseFee) && priced.Contents() == Joined(kept, tx, Joins(r, isLocal))
    ensures Booked(remotes, old(priced.Entries()), pool.all, kept.Entries(), tx, Joins(r, isLocal), remotes',
              priced.Entries())
    ensures Gains(old(pool.all), pool.all, tx, r.Answered? && Accepted(r.added))
    ensures Joins(r, isLocal) && Prices.Once(remotes, old(priced.Entries())) ==> pool.slots <= Capacity(l)
    ensures changes' == changes + if r.Answered? then |r.drop| else 0
  {
    if tx.hash !in pool.all && Admissible(pool.chain, tx, sane) {
      r, remotes', kept := Admit(pool, priced, remotes, tx, isLocal, changes, l);
      return r, remotes', changes + if r.Answered? then |r.drop| else 0, kept;
    }
    r := Answered(if tx.hash in pool.all then Known else Invalid, []);
    remotes', changes', kept := remotes, changes, priced.Contents();
    Prices.NothingMoved(remotes, priced.baseFee, kept);
    KnownByHash(pool.State());
    Unbooked(pool.all, remotes, tx, kept.Entries(), kept.Entries());
  }

  // ------------------------------------------------------------------------ local accounts

  /** An account becomes local with its first local transaction that enters the queue. */
  predicate Marks(r: Answer, tx: Tx, local: bool, locals: set<Addr>) {
    local && tx.from !in locals && r.Answered? && r.added.Queued?
  }

  function LocalsAfter(r: Answer, tx: Tx, local: bool, locals: set<Addr>): set<Addr> {
    if Marks(r, tx, local, locals) then locals + {tx.from} else locals
  }

  /** Its transactions are not remote any more. */
  function Migrated(r: Answer, tx: Tx, local: bool, locals: set<Addr>, remotes: map<Hash, Tx>): map<Hash, Tx> {
    if Marks(r, tx, local, locals) then map h | h in remotes && remotes[h].from !in locals + {tx.from} :: remotes[h]
    else remotes
  }

  /** The remote transactions stay those of the accounts that are not local, except if the
      local transaction of an account that is not replaces a pending one. */
  lemma {:induction false} NonLocalIff(before: map<Hash, Tx>, after: map<Hash, Tx>, tx: Tx, r: Answer, local: bool,
                                       locals: set<Addr>)
    requires Gains(before, after, tx, r.Answered? && Accepted(r.added))
    ensures var left := RemotesAfter(NonLocal(before, locals), after, tx, Joins(r, local || tx.from in locals));
            Migrated(r, tx, local, locals, left) == NonLocal(after, LocalsAfter(r, tx, local, locals)) <==>
            !(local && tx.from !in locals && r.Answered? && r.added == Replaced)
  {
    var left := RemotesAfter(NonLocal(before, locals), after, tx, Joins(r, local || tx.from in locals));
    var remotes, remote := Migrated(r, tx, local, locals, left), NonLocal(after, LocalsAfter(r, tx, local, locals));
    if local && tx.from !in locals && r.Answered? && r.added == Replaced {
      assert tx.hash in remote && tx.hash !in remotes;
    } else {
      assert remotes == remote;
    }
  }

  lemma {:induction false} MigratedPart(r: Answer, tx: Tx, local: bool, locals: set<Addr>, remotes: map<Hash, Tx>,
                                        all: map<Hash, Tx>, entries: Prices.Bag)
    requires PartOf(remotes, all)
    ensures PartOf(Migrated(r, tx, local, locals, remotes), all)
    ensures Prices.Tracks(remotes, entries) ==> Prices.Tracks(Migrated(r, tx, local, locals, remotes), entries)
    ensures Prices.Once(remotes, entries) ==> Prices.Once(Migrated(r, tx, local, locals, remotes), entries)
  {
  }

  /** What an offer means for the price list, the lookup and the local accounts. */
  ghost predicate Settles(before: map<Hash, Tx>, after: map<Hash, Tx>, remotes: map<Hash, Tx>, remotes': map<Hash, Tx>,
                          entries: Prices.Bag, entries': Prices.Bag, kept: Prices.Bag, locals: set<Addr>, tx: Tx,
                          local: bool, r: Answer) {
    var joins := Joins(r, local || tx.from in locals);
    && Gains(before, after, tx, r.Answered? && Accepted(r.added))
    && remotes' == Migrated(r, tx, local, locals, RemotesAfter(remotes, after, tx, joins)) && PartOf(remotes', after)
    && (Prices.Tracks(remotes, entries) ==> Prices.Tracks(remotes', entries'))
    && (Prices.Once(remotes, entries) ==>
          (Prices.Once(remotes', entries') <==> (joins ==> forall y | y in kept :: y.hash != tx.hash)))
    && (remotes == NonLocal(before, locals) ==>
          (remotes' == NonLocal(after, LocalsAfter(r, tx, local, locals)) <==>
           !(local && tx.from !in locals && r.Answered? && r.added == Replaced)))
  }

  lemma {:induction false} OfferSettles(before: map<Hash, Tx>, after: map<Hash, Tx>, remotes: map<Hash, Tx>,
                                        left: map<Hash, Tx>, entries: Prices.Bag, entries': Prices.Bag,
                                        kept: Prices.Bag, locals: set<Addr>, tx: Tx, local: bool, r: Answer)
    requires Gains(before, after, tx, r.Answered? && Accepted(r.added))
    requires Booked(remotes, entries, after, kept, tx, Joins(r, local || tx.from in locals), left, entries')
    ensures Settles(before, after, remotes, Migrated(r, tx, local, locals, left), entries, entries', kept, locals, tx,
              local, r)
  {
    MigratedPart(r, tx, local, locals, left, after, entries');
    NonLocalIff(before, after, tx, r, local, locals);
  }

  // ------------------------------------------------------------ what becomes of the lists

  /** Both caps rise, and each by at least the bump in percent, rounded down. */
  predicate PaysMore(tx: Tx, prev: Tx, bump: nat) {
    && tx.feeCap > prev.feeCap && tx.tipCap > prev.tipCap
    && 100 * tx.feeCap + 99 >= prev.feeCap * 100 + prev.feeCap * bump
    && 100 * tx.tipCap + 99 >= prev.tipCap * 100 + prev.tipCap * bump
  }

  lemma {:induction false} Hundredths(x: nat, y: nat, bump: nat)
    ensures x >= (100 + bump) * y / 100 <==> 100 * x + 99 >= y * 100 + y * bump
  {
    var z := (100 + bump) * y;
    assert z == y * 100 + y * bump;
    assert x >= z / 100 <==> 100 * x + 99 >= z;
  }

  lemma {:induction false} ReplacesMeans(tx: Tx, prev: Tx, bump: nat)
    ensures Replaces(tx, prev, bump) <==> PaysMore(tx, prev, bump)
  {
    Hundredths(tx.feeCap, prev.feeCap, bump);
    Hundredths(tx.tipCap, prev.tipCap, bump);
  }

  /** Valid on its own, within the block's gas, not of a spent nonce, and payable in full. */
  lemma {:induction false} AdmissibleMeans(c: Chain, tx: Tx, sane: bool)
    ensures Admissible(c, tx, sane) <==>
            && sane && tx.gas <= c.maxGas && (tx.from in c.nonces ==> c.nonces[tx.from] <= tx.nonce)
            && tx.gas * tx.feeCap + tx.value <= if tx.from in c.balances then c.balances[tx.from] else 0
  {
    assert tx.feeCap * tx.gas == tx.gas * tx.feeCap;
  }

  ghost predicate SameLists(s: Pool, t: Pool, b: Addr) {
    P(t, b) == P(s, b) && Q(t, b) == Q(s, b)
  }

  /** The pending transaction of its nonce is replaced if the transaction pays more, else
      the queued one of its nonce if it does, and with a free nonce it is queued. */
  ghost predicate Lands(s: Pool, t: Pool, tx: Tx, added: Added, bump: nat) {
    var a, n := tx.from, tx.nonce;
    && t.nonces == s.nonces && (forall b | b != a :: SameLists(s, t, b))
    && (if n in P(s, a) then
          if Replaces(tx, P(s, a)[n], bump) then
            && added == Replaced && P(t, a) == P(s, a)[n := tx] && Q(t, a) == Q(s, a)
            && t.all == (s.all - {P(s, a)[n].hash})[tx.hash := tx]
          else added == Underpriced && t == s
        else if n in Q(s, a) then
          if Replaces(tx, Q(s, a)[n], bump) then
            && added == Queued(true) && P(t, a) == P(s, a) && Q(t, a) == Q(s, a)[n := tx]
            && t.all == (s.all - {Q(s, a)[n].hash})[tx.hash := tx]
          else added == Underpriced && t == s
        else
          && added == Queued(false) && P(t, a) == P(s, a) && Q(t, a) == Q(s, a)[n := tx]
          && t.all == s.all[tx.hash := tx])
  }

  lemma {:induction false} InsertLands(s: Pool, tx: Tx, toPending: bool, prev: set<Hash>)
    ensures var t := Insert(s, tx, toPending, prev);
            && t.nonces == s.nonces && (forall b | b != tx.from :: SameLists(s, t, b))
            && P(t, tx.from) == (if toPending then P(s, tx.from)[tx.nonce := tx] else P(s, tx.from))
            && Q(t, tx.from) == (if toPending then Q(s, tx.from) else Q(s, tx.from)[tx.nonce := tx])
            && t.all == (s.all - prev)[tx.hash := tx]
  {
    assert (s.all - prev) + map[tx.hash := tx] == (s.all - prev)[tx.hash := tx];
  }

  lemma {:induction false} OfferLands(s: Pool, tx: Tx, bump: nat, r: (Pool, Added))
    requires r == Offer(s, tx, bump)
    ensures Lands(s, r.0, tx, r.1, bump)
  {
    var p, q := P(s, tx.from), Q(s, tx.from);
    if tx.nonce in p {
      InsertLands(s, tx, true, {p[tx.nonce].hash});
    } else if tx.nonce in q {
      InsertLands(s, tx, false, {q[tx.nonce].hash});
    } else {
      InsertLands(s, tx, false, {});
      assert s.all - {} == s.all;
    }
  }

  /** h is pending in s, at or below nonce n of the account. */
  ghost predicate Undermines(s: Pool, h: Hash, a: Addr, n: nat) {
    h in s.all && s.all[h].from == a && s.all[h].nonce in P(s, a) && s.all[h].nonce <= n
  }

  /** The hashes are gone, and with every pending one the later transactions of its account
      are pending no more. All other transactions are still there. */
  ghost predicate Dropped(s: Pool, t: Pool, hs: seq<Hash>) {
    && Partition(t) && t.all == s.all - SetOf(hs)
    && forall a, n :: DroppedAt(s, t, hs, a, n)
  }

  ghost predicate DroppedAt(s: Pool, t: Pool, hs: seq<Hash>, a: Addr, n: nat) {
    && (n in P(t, a) <==> n in P(s, a) && forall i | 0 <= i < |hs| :: !Undermines(s, hs[i], a, n))
    && (n in P(t, a) ==> P(t, a)[n] == P(s, a)[n])
  }

  lemma {:induction false} RemovePending(s: Pool, c: Chain, h: Hash, a: Addr, n: nat)
    requires Partition(s)
    ensures var t := RemoveTx(s, c, h);
            && (n in P(t, a) <==> n in P(s, a) && !Undermines(s, h, a, n))
            && (n in P(t, a) ==> P(t, a)[n] == P(s, a)[n])
  {
    assert AccountOk(s, a);
  }

  lemma {:induction false} RemoveAllDrops(s: Pool, c: Chain, hs: seq<Hash>)
    requires Partition(s)
    ensures Dropped(s, RemoveAll(s, c, hs), hs)
  {
    var t := RemoveAll(s, c, hs);
    RemoveAllKeeps(s, c, hs);
    RemoveTakesAll(s, c, hs);
    forall a, n
      ensures DroppedAt(s, t, hs, a, n)
    {
      RemoveAllPending(s, c, hs, a, n);
    }
  }

  lemma {:induction false} RemoveAllPending(s: Pool, c: Chain, hs: seq<Hash>, a: Addr, n: nat)
    requires Partition(s)
    ensures DroppedAt(s, RemoveAll(s, c, hs), hs, a, n)
    decreases |hs|, 0
  {
    if hs != [] {
      var init, h := hs[..|hs| - 1], hs[|hs| - 1];
      var t := RemoveAll(s, c, init);
      RemoveAllKeeps(s, c, init);
      RemoveAllPending(s, c, init, a, n);
      RemovePending(t, c, h, a, n);
      if n in P(t, a) {
        UnderminesNext(s, c, init, h, a, n);
      }
      assert forall i | 0 <= i < |init| :: init[i] == hs[i];
    }
  }

  /** A removal undermines the same nonces now as at the start, but for those already gone. */
  lemma {:induction false} UnderminesNext(s: Pool, c: Chain, hs: seq<Hash>, h: Hash, a: Addr, n: nat)
    requires Partition(s) && n in P(RemoveAll(s, c, hs), a)
    ensures Undermines(RemoveAll(s, c, hs), h, a, n) <==> Undermines(s, h, a, n)
    decreases |hs|, 1
  {
    var t := RemoveAll(s, c, hs);
    RemoveTakesAll(s, c, hs);
    RemoveAllPending(s, c, hs, a, n);
    if Undermines(s, h, a, n) {
      var k := s.all[h].nonce;
      RemoveAllPending(s, c, hs, a, k);
      assert h !in SetOf(hs);
    }
    if Undermines(t, h, a, n) {
      RemoveAllPending(s, c, hs, a, t.all[h].nonce);
    }
  }

  /** What becomes of an offered transaction, on the lists: `left` is the pool once the
      drops are gone. */
  ghost predicate Landed(s: Pool, left: Pool, t: Pool, c: Chain, tx: Tx, sane: bool, r: Answer, bump: nat) {
    && (r == Answered(Known, []) <==> tx.hash in s.all)
    && (r == Answered(Invalid, []) <==> tx.hash !in s.all && !Admissible(c, tx, sane))
    && (if r.Answered? && r.added != Known && r.added != Invalid
        then Dropped(s, left, HashSeq(r.drop)) && Lands(left, t, tx, r.added, bump) else t == s)
  }

  lemma {:induction false} OfferLanded(s: Pool, t: Pool, c: Chain, l: Runs.Limits, heaps: Prices.Heaps,
                                       base: Prices.BaseFee, remotes: map<Hash, Tx>, tx: Tx, sane: bool, isLocal: bool,
                                       changes: nat, r: Answer, kept: Prices.Heaps)
    returns (left: Pool)
    requires Partition(s) && Steps(s, t, c, l, tx, sane, r)
    requires Ruled(s, c, l, heaps, base, remotes, tx, sane, isLocal, changes, r, kept)
    ensures Landed(s, left, t, c, tx, sane, r, l.bump)
  {
    left := s;
    if tx.hash !in s.all && Admissible(c, tx, sane) && r.Answered? {
      left := RemoveAll(s, c, HashSeq(r.drop));
      RemoveAllDrops(s, c, HashSeq(r.drop));
      OfferLands(left, tx, l.bump, (t, r.added));
    }
  }

  /** Marks the account, if the transaction does. */
  method Mark(pool: TxPool, r: Answer, tx: Tx, local: bool, ghost before: map<Hash, Tx>, ghost remotes: map<Hash, Tx>,
              left: map<Hash, Tx>, ghost entries: Prices.Bag, ghost entries': Prices.Bag, ghost kept: Prices.Bag)
    returns (remotes': map<Hash, Tx>)
    requires Gains(before, pool.all, tx, r.Answered? && Accepted(r.added))
    requires Booked(remotes, entries, pool.all, kept, tx, Joins(r, local || tx.from in pool.locals), left, entries')
    modifies pool`locals
    ensures pool.locals == LocalsAfter(r, tx, local, old(pool.locals))
    ensures Settles(before, pool.all, remotes, remotes', entries, entries', kept, old(pool.locals), tx, local, r)
  {
    OfferSettles(before, pool.all, remotes, left, entries, entries', kept, pool.locals, tx, local, r);
    remotes' := left;
    if Marks(r, tx, local, pool.locals) {
      remotes' := Migrated(r, tx, local, pool.locals, left);
      pool.locals := pool.locals + {tx.from};
    }
  }

  /** Adds a transaction and marks its account, if it does. */
  method AddMarked(pool: TxPool, priced: Prices.List, remotes: map<Hash, Tx>, tx: Tx, local: bool, sane: bool,
             changes: nat, l: Runs.Limits)
    returns (r: Answer, remotes': map<Hash, Tx>, changes': nat, ghost kept: Prices.Heaps)
    requires pool.Valid() && Partition(pool.State()) && PartOf(remotes, pool.all)
    modifies pool`pending, pool`queue, pool`all, pool`slots, pool`nonces, pool`locals, priced
    ensures pool.Valid() && Partition(pool.State())
    ensures Steps(old(pool.State()), pool.State(), pool.chain, l, tx, sane, r)
    ensures Ruled(old(pool.State()), pool.chain, l, old(priced.Contents()), priced.baseFee, remotes, tx, sane,
              local || tx.from in old(pool.locals), changes, r, kept)
    ensures priced.baseFee == old(priced.baseFee)
    ensures priced.Contents() == Joined(kept, tx, Joins(r, local || tx.from in old(pool.locals)))
    ensures pool.locals == LocalsAfter(r, tx, local, old(pool.locals))
    ensures Settles(old(pool.all), pool.all, remotes, remotes', old(priced.Entries()), priced.Entries(),
              kept.Entries(), old(pool.locals), tx, local, r)
    ensures Joins(r, local || tx.from in old(pool.locals)) && Prices.Once(remotes, old(priced.Entries())) ==>
              pool.slots <= Capacity(l)
    ensures changes' == changes + if r.Answered? then |r.drop| else 0
  {
    ghost var all, entries := pool.all, priced.Entries();
    r, remotes', changes', kept := AddAs(pool, priced, remotes, tx, local || tx.from in pool.locals, sane, changes, l);
    remotes' := Mark(pool, r, tx, local, all, remotes, remotes', entries, priced.Entries(), kept.Entries());
  }

  /** Adds a transaction to a pool that may be full. It is too cheap or overflows exactly
      if the conditions say so, and then nothing changes. Otherwise the worst remote
      transactions make room, no more than needed; a remote transaction is accepted only
      within the pool's capacity, if no live price entry is there twice. The price list
      keeps tracking every remote transaction of the pool, and an account becomes local
      with its first local transaction that enters the queue. */
  method Add(pool: TxPool, priced: Prices.List, remotes: map<Hash, Tx>, tx: Tx, local: bool, sane: bool,
             changes: nat, l: Runs.Limits)
    returns (r: Answer, remotes': map<Hash, Tx>, changes': nat, ghost kept: Prices.Heaps, ghost left: Pool)
    requires pool.Valid() && Partition(pool.State()) && PartOf(remotes, pool.all)
    modifies pool`pending, pool`queue, pool`all, pool`slots, pool`nonces, pool`locals, priced
    ensures pool.Valid() && Partition(pool.State())
    ensures Landed(old(pool.State()), left, pool.State(), pool.chain, tx, sane, r, l.bump)
    ensures Steps(old(pool.State()), pool.State(), pool.chain, l, tx, sane, r)
    ensures Ruled(old(pool.State()), pool.chain, l, old(priced.Contents()), priced.baseFee, remotes, tx, sane,
              local || tx.from in old(pool.locals), changes, r, kept)
    ensures priced.baseFee == old(priced.baseFee)
    ensures priced.Contents() == Joined(kept, tx, Joins(r, local || tx.from in old(pool.locals)))
    ensures pool.locals == LocalsAfter(r, tx, local, old(pool.locals))
    ensures Settles(old(pool.all), pool.all, remotes, remotes', old(priced.Entries()), priced.Entries(),
              kept.Entries(), old(pool.locals), tx, local, r)
    ensures Joins(r, local || tx.from in old(pool.locals)) && Prices.Once(remotes, old(priced.Entries())) ==>
              pool.slots <= Capacity(l)
    ensures changes' == changes + if r.Answered? then |r.drop| else 0
  {
    ghost var s, heaps, locals := pool.State(), priced.Contents(), pool.locals;
    r, remotes', changes', kept := AddMarked(pool, priced, remotes, tx, local, sane, changes, l);
    left := OfferLanded(s, pool.State(), pool.chain, l, heaps, priced.baseFee, remotes, tx, sane,
      local || tx.from in locals, changes, r, kept);
  }

  // ------------------------------------------------------------------------ over capacity

  /** The pool's only transaction is tracked twice: both entries are dropped for one that
      is larger and pays more. */
  lemma {:induction false} DropsBoth(slots: int, heaps: Prices.Heaps, base: Prices.BaseFee, remotes: map<Hash, Tx>,
                                     cheap: Tx, tx: Tx, l: Runs.Limits, room: Room, kept: Prices.Heaps)
    requires slots == NumSlots(cheap) && remotes == map[cheap.hash := cheap]
    requires heaps.Entries() == multiset{cheap, cheap} && Capacity(l) == NumSlots(cheap)
    requires Prices.Cheaper(base, cheap, tx) && Prices.Cheaper(Prices.NoBaseFee, cheap, tx)
    requires NumSlots(cheap) < NumSlots(tx) <= 2 * NumSlots(cheap)
    requires Decided(slots, heaps, base, remotes, tx, false, 0, l, room, kept)
    ensures room == Made([cheap, cheap])
  {
    Prices.TwiceTheSlots(cheap);
    assert cheap in heaps.urgent || cheap in heaps.floating;
    assert Prices.Live(remotes, cheap);
    assert room.Made?;
    Prices.OnlyOf(cheap, kept.Entries(), room.drop);
  }

  lemma {:induction false} EmptyLists(s: Pool, a: Addr)
    requires Partition(s) && s.all == map[]
    ensures P(s, a) == map[] && Q(s, a) == map[]
  {
    assert AccountOk(s, a);
  }

  lemma {:induction false} OnlyOneLeft(s: Pool, c: Chain, cheap: Tx, tx: Tx, bump: nat)
    requires Partition(s) && s.all == map[cheap.hash := cheap] && tx.hash != cheap.hash
    ensures var r := Offer(RemoveAll(s, c, HashSeq([cheap, cheap])), tx, bump);
            r.1 == Queued(false) && r.0.all == map[tx.hash := tx] && SlotSum(r.0.all) == NumSlots(tx)
  {
    var hs := HashSeq([cheap, cheap]);
    RemoveTakesAll(s, c, hs);
    RemoveAllKeeps(s, c, hs);
    assert hs[0] in SetOf(hs);
    var left := RemoveAll(s, c, hs);
    assert left.all == map[];
    EmptyLists(left, tx.from);
    SlotSumWith(map[], tx.hash, tx);
    assert map[] + map[tx.hash := tx] == map[tx.hash := tx];
  }

  lemma {:induction false} OverFull(s: Pool, c: Chain, slots: int, heaps: Prices.Heaps, base: Prices.BaseFee, cheap: Tx,
                                    tx: Tx, l: Runs.Limits, r: Answer, kept: Prices.Heaps, t: Pool)
    requires Partition(s) && s.all == map[cheap.hash := cheap] && slots == NumSlots(cheap) == Capacity(l)
    requires heaps.Entries() == multiset{cheap, cheap} && tx.hash !in s.all && Admissible(c, tx, true)
    requires Prices.Cheaper(base, cheap, tx) && Prices.Cheaper(Prices.NoBaseFee, cheap, tx)
    requires NumSlots(cheap) < NumSlots(tx) <= 2 * NumSlots(cheap)
    requires Decided(slots, heaps, base, s.all, tx, false, 0, l, RoomOf(r), kept)
    requires r.Answered? ==> (t, r.added) == PoolSteps.Add(s, c, tx, true, HashSeq(r.drop), l.bump)
    ensures Joins(r, false) && SlotSum(t.all) == NumSlots(tx)
  {
    DropsBoth(slots, heaps, base, s.all, cheap, tx, l, RoomOf(r), kept);
    OnlyOneLeft(s, c, cheap, tx, l.bump);
  }

  /** A pool at capacity whose only transaction is tracked twice accepts a larger one for
      the slots it counts twice, and ends over capacity. */
  method OverCapacity(pool: TxPool, priced: Prices.List, cheap: Tx, tx: Tx, l: Runs.Limits) returns (r: Answer)
    requires pool.Valid() && Partition(pool.State()) && pool.all == map[cheap.hash := cheap]
    requires priced.Entries() == multiset{cheap, cheap} && Capacity(l) == NumSlots(cheap)
    requires Prices.Cheaper(priced.baseFee, cheap, tx) && Prices.Cheaper(Prices.NoBaseFee, cheap, tx)
    requires NumSlots(cheap) < NumSlots(tx) <= 2 * NumSlots(cheap)
    requires tx.hash != cheap.hash && tx.from !in pool.locals && Admissible(pool.chain, tx, true)
    modifies pool`pending, pool`queue, pool`all, pool`slots, pool`nonces, pool`locals, priced
    ensures Joins(r, false) && pool.slots == NumSlots(tx) > Capacity(l)
  {
    ghost var s, slots, heaps, base := pool.State(), pool.slots, priced.Contents(), priced.baseFee;
    SlotSumWith(map[], cheap.hash, cheap);
    var remotes, changes;
    ghost var kept, left;
    r, remotes, changes, kept, left := Add(pool, priced, pool.all, tx, false, true, 0, l);
    OverFull(s, pool.chain, slots, heaps, base, cheap, tx, l, r, kept, pool.State());
  }
}
