/** Several transactions offered to the pool in turn, as one step of its runs: what every
    offer is decided on, and what becomes of the pool's capacity. */
module PoolOffers {
  import opened PoolLists
  import opened PoolState
  import opened PoolSteps
  import opened PoolAdmission
  import Prices = PricedList
  import opened TxLookup
  import opened TxPool
  import Runs = PoolRuns

  // ----------------------------------------------------------------- the story of a run

  /** What an offer is decided on besides the pool. */
  datatype Moment = Moment(heaps: Prices.Heaps, remotes: map<Hash, Tx>, locals: set<Addr>, changes: nat)

  /** One offer: where it starts, the answer, what the price list keeps, where it ends. */
  datatype Offering = Offering(before: Moment, r: Answer, kept: Prices.Heaps, after: Moment)

  /** The offer as a step of the pool. One that is refused for lack of room changes the
      pool no more than one that fails validation. */
  function StepOf(tx: Tx, sane: bool, r: Answer): Runs.Insertion {
    if r.Answered? then Runs.Insertion(tx, sane, HashSeq(r.drop)) else Runs.Insertion(tx, false, [])
  }

  /** The moment after an offer that leaves all in the lookup. */
  ghost function After(m: Moment, all: map<Hash, Tx>, tx: Tx, local: bool, r: Answer, kept: Prices.Heaps): Moment {
    var joins := Joins(r, local || tx.from in m.locals);
    Moment(Joined(kept, tx, joins), Migrated(r, tx, local, m.locals, RemotesAfter(m.remotes, all, tx, joins)),
           LocalsAfter(r, tx, local, m.locals), m.changes + if r.Answered? then |r.drop| else 0)
  }

  /** The offer takes the pool from s to t as the decision on it says. */
  ghost predicate Follows(s: Pool, t: Pool, c: Chain, l: Runs.Limits, base: Prices.BaseFee, o: Offering, tx: Tx,
                          sane: bool, local: bool) {
    && Steps(s, t, c, l, tx, sane, o.r)
    && Ruled(s, c, l, o.before.heaps, base, o.before.remotes, tx, sane, local || tx.from in o.before.locals,
         o.before.changes, o.r, o.kept)
    && o.after == After(o.before, t.all, tx, local, o.r, o.kept)
  }

  function End(start: Moment, story: seq<Offering>): Moment {
    if story == [] then start else story[|story| - 1].after
  }

  function StepsOf(txs: seq<(Tx, bool)>, story: seq<Offering>): (done: seq<Runs.Insertion>)
    requires |txs| == |story|
    ensures |done| == |txs|
  {
    seq(|txs|, i requires 0 <= i < |txs| => StepOf(txs[i].0, txs[i].1, story[i].r))
  }

  ghost predicate OfferedAt(s: Pool, c: Chain, l: Runs.Limits, base: Prices.BaseFee, start: Moment,
                            txs: seq<(Tx, bool)>, local: bool, story: seq<Offering>, i: nat)
    requires i < |txs| == |story|
  {
    var done := StepsOf(txs, story);
    && story[i].before == End(start, story[..i])
    && Follows(Runs.AddAll(s, c, l, done[..i]), Runs.AddAll(s, c, l, done[..i + 1]), c, l, base, story[i], txs[i].0,
         txs[i].1, local)
  }

  /** Each transaction was offered in turn, starting with s, and decided on as it should. */
  ghost predicate Offers(s: Pool, c: Chain, l: Runs.Limits, base: Prices.BaseFee, start: Moment,
                         txs: seq<(Tx, bool)>, local: bool, story: seq<Offering>) {
    && |txs| == |story|
    && forall i: nat | i < |txs| :: OfferedAt(s, c, l, base, start, txs, local, story, i)
  }

  lemma {:induction false} StepAdded(s: Pool, c: Chain, l: Runs.Limits, done: seq<Runs.Insertion>, i: Runs.Insertion)
    ensures Runs.AddAll(s, c, l, done + [i]) ==
            PoolSteps.Add(Runs.AddAll(s, c, l, done), c, i.tx, i.sane, i.drops, l.bump).0
  {
    assert (done + [i])[..|done|] == done;
  }

  lemma {:induction false} StepsMore(txs: seq<(Tx, bool)>, story: seq<Offering>, n: nat, o: Offering)
    requires |story| == n < |txs|
    ensures StepsOf(txs[..n + 1], story + [o]) ==
            StepsOf(txs[..n], story) + [StepOf(txs[n].0, txs[n].1, o.r)]
  {
  }

  lemma {:induction false} OfferedStill(s: Pool, c: Chain, l: Runs.Limits, base: Prices.BaseFee, start: Moment,
                                        txs: seq<(Tx, bool)>, local: bool, story: seq<Offering>, n: nat, o: Offering,
                                        i: nat)
    requires i < |story| == n < |txs| && OfferedAt(s, c, l, base, start, txs[..n], local, story, i)
    ensures OfferedAt(s, c, l, base, start, txs[..n + 1], local, story + [o], i)
  {
    var done := StepsOf(txs[..n], story);
    StepsMore(txs, story, n, o);
    var done' := StepsOf(txs[..n + 1], story + [o]);
    assert done'[..i] == done[..i] && done'[..i + 1] == done[..i + 1];
    assert (story + [o])[..i] == story[..i];
  }

  lemma {:induction false} OffersNext(s: Pool, c: Chain, l: Runs.Limits, base: Prices.BaseFee, start: Moment,
                                      txs: seq<(Tx, bool)>, local: bool, story: seq<Offering>, n: nat, o: Offering)
    requires n < |txs| && Offers(s, c, l, base, start, txs[..n], local, story) && o.before == End(start, story)
    requires var done := StepsOf(txs[..n], story);
             Follows(Runs.AddAll(s, c, l, done), Runs.AddAll(s, c, l, done + [StepOf(txs[n].0, txs[n].1, o.r)]), c, l,
               base, o, txs[n].0, txs[n].1, local)
    ensures Offers(s, c, l, base, start, txs[..n + 1], local, story + [o])
  {
    var done, txs', story' := StepsOf(txs[..n], story), txs[..n + 1], story + [o];
    StepsMore(txs, story, n, o);
    forall i: nat | i < n + 1
      ensures OfferedAt(s, c, l, base, start, txs', local, story', i)
    {
      if i < n {
        OfferedStill(s, c, l, base, start, txs, local, story, n, o, i);
      } else {
        var done' := StepsOf(txs', story');
        assert done'[..n] == done && done'[..n + 1] == done';
        assert story'[..n] == story;
      }
    }
  }

  // ---------------------------------------------------------------------- room for all

  function SlotsOfAll(txs: seq<(Tx, bool)>): nat {
    if txs == [] then 0 else SlotsOfAll(txs[..|txs| - 1]) + NumSlots(txs[|txs| - 1].0)
  }

  ghost predicate HasRoom(all: map<Hash, Tx>, txs: seq<(Tx, bool)>, l: Runs.Limits) {
    SlotSum(all) + SlotsOfAll(txs) <= Capacity(l)
  }

  /** The transactions as they are, with nothing dropped for them. */
  function AsOffered(txs: seq<(Tx, bool)>): seq<Runs.Insertion> {
    seq(|txs|, i requires 0 <= i < |txs| => Runs.Insertion(txs[i].0, txs[i].1, []))
  }

  /** While a transaction fits, or is not one to decide on, nothing is dropped for it and
      it is not refused. */
  lemma {:induction false} TakenIfFits(s: Pool, t: Pool, c: Chain, l: Runs.Limits, base: Prices.BaseFee, o: Offering,
                                       tx: Tx, sane: bool, local: bool)
    requires Follows(s, t, c, l, base, o, tx, sane, local)
    requires SlotSum(s.all) + NumSlots(tx) <= Capacity(l) || tx.hash in s.all || !Admissible(c, tx, sane)
    ensures o.r.Answered? && o.r.drop == [] && StepOf(tx, sane, o.r) == Runs.Insertion(tx, sane, [])
  {
    assert HashSeq([]) == [];
  }

  lemma {:induction false} AddFits(s: Pool, c: Chain, tx: Tx, sane: bool, bump: nat)
    ensures SlotSum(PoolSteps.Add(s, c, tx, sane, [], bump).0.all) <= SlotSum(s.all) + NumSlots(tx)
  {
    if tx.hash !in s.all {
      OfferSlots(s, tx, bump);
    }
  }

  /** If the pool has room for all of them, all are offered as they are. */
  lemma {:induction false} RoomForAll(s: Pool, c: Chain, l: Runs.Limits, base: Prices.BaseFee, start: Moment,
                                      txs: seq<(Tx, bool)>, local: bool, story: seq<Offering>, n: nat)
    requires Offers(s, c, l, base, start, txs, local, story) && n <= |txs|
    requires HasRoom(s.all, txs, l)
    ensures StepsOf(txs, story)[..n] == AsOffered(txs[..n])
    ensures SlotSum(Runs.AddAll(s, c, l, AsOffered(txs[..n])).all) <= SlotSum(s.all) + SlotsOfAll(txs[..n])
  {
    if n > 0 {
      var done := StepsOf(txs, story);
      RoomForAll(s, c, l, base, start, txs, local, story, n - 1);
      assert done[..n] == done[..n - 1] + [done[n - 1]];
      FewerSlots(txs, n);
      assert OfferedAt(s, c, l, base, start, txs, local, story, n - 1);
      TakenIfFits(Runs.AddAll(s, c, l, done[..n - 1]), Runs.AddAll(s, c, l, done[..n]), c, l, base, story[n - 1],
          txs[n - 1].0, txs[n - 1].1, local);
      OfferedNext(s, c, l, txs, n);
    }
  }

  lemma {:induction false} OfferedNext(s: Pool, c: Chain, l: Runs.Limits, txs: seq<(Tx, bool)>, n: nat)
    requires 0 < n <= |txs|
    ensures AsOffered(txs[..n]) == AsOffered(txs[..n - 1]) + [Runs.Insertion(txs[n - 1].0, txs[n - 1].1, [])]
    ensures SlotSum(Runs.AddAll(s, c, l, AsOffered(txs[..n])).all) <=
            SlotSum(Runs.AddAll(s, c, l, AsOffered(txs[..n - 1])).all) + NumSlots(txs[n - 1].0)
  {
    var before, last := AsOffered(txs[..n - 1]), Runs.Insertion(txs[n - 1].0, txs[n - 1].1, []);
    assert AsOffered(txs[..n]) == before + [last];
    StepAdded(s, c, l, before, last);
    AddFits(Runs.AddAll(s, c, l, before), c, last.tx, last.sane, l.bump);
  }

  lemma {:induction false} FewerSlots(txs: seq<(Tx, bool)>, n: nat)
    requires 0 < n <= |txs|
    ensures SlotsOfAll(txs[..n]) == SlotsOfAll(txs[..n - 1]) + NumSlots(txs[n - 1].0)
    ensures SlotsOfAll(txs[..n]) <= SlotsOfAll(txs)
    decreases |txs| - n
  {
    assert txs[..n][..n - 1] == txs[..n - 1];
    if n < |txs| {
      FewerSlots(txs, n + 1);
      assert txs[..n + 1][..n] == txs[..n];
    } else {
      assert txs[..n] == txs;
    }
  }

  // ------------------------------------------------------------------------- capacity

  /** Fewer transactions take no more slots. */
  lemma {:induction false} FewerTake(m: map<Hash, Tx>, m': map<Hash, Tx>)
    requires forall h | h in m' :: h in m && m'[h] == m[h]
    ensures SlotSum(m') <= SlotSum(m)
    decreases |m|
  {
    if m'.Keys == m.Keys {
      assert m' == m;
    } else {
      assert m'.Keys <= m.Keys;
      var h :| h in m && h !in m';
      SlotSumWithout(m, h);
      FewerTake(m - {h}, m');
    }
  }

  /** No tracked entry has the hash. */
  ghost predicate Untracked(entries: Prices.Bag, tx: Tx) {
    forall y | y in entries :: y.hash != tx.hash
  }

  /** Within capacity, and every live price entry there once. */
  ghost predicate Orderly(all: map<Hash, Tx>, m: Moment, l: Runs.Limits) {
    SlotSum(all) <= Capacity(l) && Prices.Once(m.remotes, m.heaps.Entries())
  }

  /** The price list keeps some of its entries. */
  lemma {:induction false} KeptFrom(s: Pool, c: Chain, l: Runs.Limits, heaps: Prices.Heaps, base: Prices.BaseFee,
                                    remotes: map<Hash, Tx>, tx: Tx, sane: bool, isLocal: bool, changes: nat, r: Answer,
                                    kept: Prices.Heaps)
    requires Ruled(s, c, l, heaps, base, remotes, tx, sane, isLocal, changes, r, kept)
    ensures kept.Entries() <= heaps.Entries()
  {
    if kept != heaps {
      var drop := if r.Answered? then r.drop else [];
      assert Prices.Conserved(remotes, heaps.Entries(), kept.Entries(), drop);
      forall y
        ensures kept.Entries()[y] <= heaps.Entries()[y]
      {
        assert Prices.ConservedAt(remotes, heaps.Entries(), kept.Entries(), drop, y);
      }
    }
  }

  /** The offer of a remote transaction that is not tracked keeps the pool orderly. */
  lemma {:induction false} StaysOrderly(before: map<Hash, Tx>, after: map<Hash, Tx>, l: Runs.Limits, o: Offering,
                                        tx: Tx)
    requires Orderly(before, o.before, l) && Untracked(o.before.heaps.Entries(), tx) && tx.from !in o.before.locals
    requires o.kept.Entries() <= o.before.heaps.Entries()
    requires Settles(before, after, o.before.remotes, o.after.remotes, o.before.heaps.Entries(),
               o.after.heaps.Entries(), o.kept.Entries(), o.before.locals, tx, false, o.r)
    requires Joins(o.r, false) ==> SlotSum(after) <= Capacity(l)
    ensures Orderly(after, o.after, l)
  {
    assert forall y | y in o.kept.Entries() :: y in o.before.heaps.Entries();
    if !Joins(o.r, false) {
      FewerTake(before, after);
    }
  }

  // ------------------------------------------------------------------------ the offers

  lemma {:induction false} AddFollows(s: Pool, t: Pool, c: Chain, l: Runs.Limits, base: Prices.BaseFee, o: Offering,
                                      tx: Tx, sane: bool, local: bool)
    requires Steps(s, t, c, l, tx, sane, o.r)
    requires Ruled(s, c, l, o.before.heaps, base, o.before.remotes, tx, sane, local || tx.from in o.before.locals,
               o.before.changes, o.r, o.kept)
    requires Settles(s.all, t.all, o.before.remotes, o.after.remotes, o.before.heaps.Entries(),
               o.after.heaps.Entries(), o.kept.Entries(), o.before.locals, tx, local, o.r)
    requires o.after.heaps == Joined(o.kept, tx, Joins(o.r, local || tx.from in o.before.locals))
    requires o.after.locals == LocalsAfter(o.r, tx, local, o.before.locals)
    requires o.after.changes == o.before.changes + if o.r.Answered? then |o.r.drop| else 0
    ensures Follows(s, t, c, l, base, o, tx, sane, local) && o.kept.Entries() <= o.before.heaps.Entries()
  {
    KeptFrom(s, c, l, o.before.heaps, base, o.before.remotes, tx, sane, local || tx.from in o.before.locals,
        o.before.changes, o.r, o.kept);
  }

  /** One transaction of several, each with whether it passes the stateless checks. */
  method AddNext(pool: TxPool, priced: Prices.List, remotes: map<Hash, Tx>, tx: Tx, local: bool, sane: bool,
                 changes: nat, l: Runs.Limits)
    returns (r: Answer, remotes': map<Hash, Tx>, changes': nat, ghost o: Offering)
    requires pool.Valid() && Partition(pool.State()) && PartOf(remotes, pool.all)
    modifies pool`pending, pool`queue, pool`all, pool`slots, pool`nonces, pool`locals, priced
    ensures pool.Valid() && Partition(pool.State()) && PartOf(remotes', pool.all) && o.r == r
    ensures o.before == Moment(old(priced.Contents()), remotes, old(pool.locals), changes)
    ensures o.after == Moment(priced.Contents(), remotes', pool.locals, changes')
    ensures Follows(old(pool.State()), pool.State(), pool.chain, l, priced.baseFee, o, tx, sane, local)
    ensures priced.baseFee == old(priced.baseFee) && (!local ==> pool.locals == old(pool.locals))
    ensures remotes == NonLocal(old(pool.all), old(pool.locals)) && !local ==>
              remotes' == NonLocal(pool.all, pool.locals)
    ensures Prices.Tracks(remotes, old(priced.Entries())) ==> Prices.Tracks(remotes', priced.Entries())
    ensures o.kept.Entries() <= old(priced.Entries())
    ensures Orderly(old(pool.all), o.before, l) && Untracked(old(priced.Entries()), tx) && !local
            && tx.from !in old(pool.locals) ==>
              Orderly(pool.all, o.after, l)
  {
    ghost var kept, s, left := priced.Contents(), pool.State(), pool.State();
    ghost var before := Moment(priced.Contents(), remotes, pool.locals, changes);
    r, remotes', changes', kept, left := PoolAdmission.Add(pool, priced, remotes, tx, local, sane, changes, l);
    o := Offering(before, r, kept, Moment(priced.Contents(), remotes', pool.locals, changes'));
    AddFollows(s, pool.State(), pool.chain, l, priced.baseFee, o, tx, sane, local);
    if Orderly(s.all, before, l) && Untracked(before.heaps.Entries(), tx) && !local && tx.from !in before.locals {
      StaysOrderly(s.all, pool.all, l, o, tx);
    }
  }

  predicate IsNew(r: Answer) {
    r.Answered? && r.added == Queued(false)
  }

  /** The senders of the transactions that are new in the queue. */
  ghost predicate Dirty(dirty: set<Addr>, txs: seq<(Tx, bool)>, answers: seq<Answer>)
    requires |txs| == |answers|
  {
    forall a :: a in dirty <==> exists i :: 0 <= i < |txs| && IsNew(answers[i]) && txs[i].0.from == a
  }

  lemma {:induction false} DirtyNext(dirty: set<Addr>, txs: seq<(Tx, bool)>, answers: seq<Answer>, n: nat, r: Answer)
    requires |answers| == n < |txs| && Dirty(dirty, txs[..n], answers)
    ensures Dirty(if IsNew(r) then dirty + {txs[n].0.from} else dirty, txs[..n + 1], answers + [r])
  {
    var now, before := txs[..n + 1], txs[..n];
    var dirty' := if IsNew(r) then dirty + {txs[n].0.from} else dirty;
    forall a
      ensures a in dirty' <==> exists i :: 0 <= i < |now| && IsNew((answers + [r])[i]) && now[i].0.from == a
    {
      if a in dirty {
        var i :| 0 <= i < n && IsNew(answers[i]) && before[i].0.from == a;
        assert IsNew((answers + [r])[i]) && now[i].0.from == a;
      } else if a in dirty' {
        assert IsNew((answers + [r])[n]) && now[n].0.from == a;
      } else {
        forall i | 0 <= i < |now| && IsNew((answers + [r])[i])
          ensures now[i].0.from != a
        {
          assert i < n ==> IsNew(answers[i]) && before[i].0.from != a;
        }
      }
    }
  }

  function AnswersOf(story: seq<Offering>): (answers: seq<Answer>)
    ensures |answers| == |story|
  {
    seq(|story|, i requires 0 <= i < |story| => story[i].r)
  }

  lemma {:induction false} AnswersMore(story: seq<Offering>, o: Offering)
    ensures AnswersOf(story + [o]) == AnswersOf(story) + [o.r]
  {
  }

  /** The first n transactions were offered, and took the pool from s to t. */
  ghost predicate Told(s: Pool, t: Pool, c: Chain, l: Runs.Limits, base: Prices.BaseFee, start: Moment, end: Moment,
                       txs: seq<(Tx, bool)>, n: nat, local: bool, story: seq<Offering>) {
    && |story| == n <= |txs| && Offers(s, c, l, base, start, txs[..n], local, story)
    && t == Runs.AddAll(s, c, l, StepsOf(txs[..n], story)) && End(start, story) == end
  }

  lemma {:induction false} ToldNext(s: Pool, t: Pool, t': Pool, c: Chain, l: Runs.Limits, base: Prices.BaseFee,
                                    start: Moment, txs: seq<(Tx, bool)>, n: nat, local: bool, story: seq<Offering>,
                                    o: Offering)
    requires n < |txs| && Told(s, t, c, l, base, start, o.before, txs, n, local, story)
    requires Follows(t, t', c, l, base, o, txs[n].0, txs[n].1, local)
    ensures Told(s, t', c, l, base, start, o.after, txs, n + 1, local, story + [o])
  {
    NextFollows(s, t, t', c, l, StepsOf(txs[..n], story), txs[n].0, txs[n].1, o.r);
    OffersNext(s, c, l, base, start, txs, local, story, n, o);
    StepsMore(txs, story, n, o);
  }

  /** Remote transactions of different hashes. */
  ghost predicate Remote(txs: seq<(Tx, bool)>, locals: set<Addr>) {
    && (forall i | 0 <= i < |txs| :: txs[i].0.from !in locals)
    && (forall i, j | 0 <= i < j < |txs| :: txs[i].0.hash != txs[j].0.hash)
  }

  /** Orderly, and the transactions from the n-th on are not tracked. */
  ghost predicate Ready(all: map<Hash, Tx>, m: Moment, l: Runs.Limits, txs: seq<(Tx, bool)>, n: nat) {
    Orderly(all, m, l) && forall j | n <= j < |txs| :: Untracked(m.heaps.Entries(), txs[j].0)
  }

  lemma {:induction false} ReadyNext(after: map<Hash, Tx>, l: Runs.Limits, o: Offering, all: map<Hash, Tx>,
                                     txs: seq<(Tx, bool)>, n: nat, local: bool)
    requires n < |txs| && Remote(txs, o.before.locals) && Ready(all, o.before, l, txs, n) && Orderly(after, o.after, l)
    requires o.kept.Entries() <= o.before.heaps.Entries()
    requires o.after.heaps == Joined(o.kept, txs[n].0, Joins(o.r, local || txs[n].0.from in o.before.locals))
    ensures Ready(after, o.after, l, txs, n + 1)
  {
    forall j, y | n + 1 <= j < |txs| && y in o.after.heaps.Entries()
      ensures y.hash != txs[j].0.hash
    {
      JoinedEntries(o.kept, txs[n].0, Joins(o.r, local || txs[n].0.from in o.before.locals));
      assert y in o.before.heaps.Entries() || y == txs[n].0;
      assert Untracked(o.before.heaps.Entries(), txs[j].0);
    }
  }

  lemma {:induction false} NextFollows(s: Pool, t: Pool, t': Pool, c: Chain, l: Runs.Limits,
                                       done: seq<Runs.Insertion>, tx: Tx, sane: bool, r: Answer)
    requires t == Runs.AddAll(s, c, l, done) && Steps(t, t', c, l, tx, sane, r)
    ensures t' == Runs.AddAll(s, c, l, done + [StepOf(tx, sane, r)])
  {
    StepAdded(s, c, l, done, StepOf(tx, sane, r));
  }

  /** The next transaction of a batch. */
  method AddStep(pool: TxPool, priced: Prices.List, remotes: map<Hash, Tx>, txs: seq<(Tx, bool)>, n: nat, local: bool,
                 changes: nat, l: Runs.Limits, answers: seq<Answer>, dirty: set<Addr>, ghost s: Pool,
                 ghost start: Moment, ghost story: seq<Offering>)
    returns (answers': seq<Answer>, dirty': set<Addr>, remotes': map<Hash, Tx>, changes': nat, ghost o: Offering)
    requires pool.Valid() && Partition(pool.State()) && PartOf(remotes, pool.all)
    requires n < |txs| && Told(s, pool.State(), pool.chain, l, priced.baseFee, start,
                            Moment(priced.Contents(), remotes, pool.locals, changes), txs, n, local, story)
    requires answers == AnswersOf(story) && Dirty(dirty, txs[..n], answers)
    modifies pool`pending, pool`queue, pool`all, pool`slots, pool`nonces, pool`locals, priced
    ensures pool.Valid() && Partition(pool.State()) && PartOf(remotes', pool.all)
    ensures answers' == AnswersOf(story + [o]) && |answers'| == n + 1 && Dirty(dirty', txs[..n + 1], answers')
    ensures Told(s, pool.State(), pool.chain, l, priced.baseFee, start, o.after, txs, n + 1, local, story + [o])
    ensures o.before == Moment(old(priced.Contents()), remotes, old(pool.locals), changes)
    ensures o.after == Moment(priced.Contents(), remotes', pool.locals, changes')
    ensures priced.baseFee == old(priced.baseFee) && (!local ==> pool.locals == old(pool.locals))
    ensures remotes == NonLocal(old(pool.all), old(pool.locals)) && !local ==>
              remotes' == NonLocal(pool.all, pool.locals)
    ensures Prices.Tracks(remotes, old(priced.Entries())) ==> Prices.Tracks(remotes', priced.Entries())
    ensures !local && Remote(txs, old(pool.locals)) && Ready(old(pool.all), o.before, l, txs, n) ==>
              Ready(pool.all, o.after, l, txs, n + 1)
  {
    ghost var t := pool.State();
    var r;
    r, remotes', changes', o := AddNext(pool, priced, remotes, txs[n].0, local, txs[n].1, changes, l);
    ToldNext(s, t, pool.State(), pool.chain, l, priced.baseFee, start, txs, n, local, story, o);
    if !local && Remote(txs, o.before.locals) && Ready(t.all, o.before, l, txs, n) {
      ReadyNext(pool.all, l, o, t.all, txs, n, local);
    }
    DirtyNext(dirty, txs, answers, n, r);
    AnswersMore(story, o);
    answers', dirty' := answers + [r], if IsNew(r) then dirty + {txs[n].0.from} else dirty;
  }

  /** Offers transactions one after the other, each decided on as it should. The price list
      tracks every remote transaction of the pool all along. Remote transactions that it
      does not track yet leave a pool that is within its capacity so. */
  method AddEach(pool: TxPool, priced: Prices.List, remotes: map<Hash, Tx>, txs: seq<(Tx, bool)>, local: bool,
                 changes: nat, l: Runs.Limits)
    returns (answers: seq<Answer>, dirty: set<Addr>, remotes': map<Hash, Tx>, changes': nat,
             ghost story: seq<Offering>)
    requires pool.Valid() && Partition(pool.State()) && PartOf(remotes, pool.all)
    modifies pool`pending, pool`queue, pool`all, pool`slots, pool`nonces, pool`locals, priced
    ensures pool.Valid() && Partition(pool.State()) && PartOf(remotes', pool.all)
    ensures Told(old(pool.State()), pool.State(), pool.chain, l, priced.baseFee,
              Moment(old(priced.Contents()), remotes, old(pool.locals), changes),
              Moment(priced.Contents(), remotes', pool.locals, changes'), txs, |txs|, local, story)
    ensures !local && Remote(txs, pool.locals)
            && Ready(old(pool.all), Moment(old(priced.Contents()), remotes, old(pool.locals), changes), l, txs, 0) ==>
              Orderly(pool.all, Moment(priced.Contents(), remotes', pool.locals, changes'), l)
    ensures answers == AnswersOf(story) && |answers| == |txs| && Dirty(dirty, txs, answers)
    ensures priced.baseFee == old(priced.baseFee) && (!local ==> pool.locals == old(pool.locals))
    ensures remotes == NonLocal(old(pool.all), old(pool.locals)) && !local ==>
              remotes' == NonLocal(pool.all, pool.locals)
    ensures Prices.Tracks(remotes, old(priced.Entries())) ==> Prices.Tracks(remotes', priced.Entries())
  {
    ghost var s, locals, entries := pool.State(), pool.locals, priced.Entries();
    ghost var start := Moment(priced.Contents(), remotes, pool.locals, changes);
    ghost var now := start;
    answers, dirty, remotes', changes', story := [], {}, remotes, changes, [];
    for i := 0 to |txs|
      invariant pool.Valid() && Partition(pool.State()) && PartOf(remotes', pool.all)
      invariant Told(s, pool.State(), pool.chain, l, priced.baseFee, start, now, txs, i, local, story)
      invariant now == Moment(priced.Contents(), remotes', pool.locals, changes')
      invariant answers == AnswersOf(story) && |answers| == i && Dirty(dirty, txs[..i], answers)
      invariant priced.baseFee == old(priced.baseFee) && (!local ==> pool.locals == locals)
      invariant remotes == NonLocal(s.all, locals) && !local ==> remotes' == NonLocal(pool.all, pool.locals)
      invariant Prices.Tracks(remotes, entries) ==> Prices.Tracks(remotes', priced.Entries())
      invariant !local && Remote(txs, locals) && Ready(s.all, start, l, txs, 0) ==>
                  Ready(pool.all, now, l, txs, i)
    {
      ghost var o;
      answers, dirty, remotes', changes', o :=
        AddStep(pool, priced, remotes', txs, i, local, changes', l, answers, dirty, s, start, story);
      story, now := story + [o], o.after;
    }
    assert txs[..|txs|] == txs;
  }

  /** The reset moves to the chain and offers the transactions to the pool it finds, in
      turn and each decided on as it should. */
  ghost predicate OffersAgain(s: Pool, l: Runs.Limits, base: Prices.BaseFee, start: Moment, chain: Chain,
                              txs: seq<(Tx, bool)>, r: Runs.Reset, story: seq<Offering>) {
    && Offers(s.(nonces := map[]), chain, l, base, start, txs, false, story)
    && r == Runs.Reset(chain, StepsOf(txs, story))
  }

  /** Moves to a new head: forgets the virtual nonces and offers the transactions of
      abandoned blocks again. */
  method Reset(pool: TxPool, priced: Prices.List, remotes: map<Hash, Tx>, chain: Chain, txs: seq<(Tx, bool)>,
               changes: nat, l: Runs.Limits)
    returns (answers: seq<Answer>, remotes': map<Hash, Tx>, ghost r: Runs.Reset, ghost story: seq<Offering>)
    requires pool.Valid() && Partition(pool.State()) && PartOf(remotes, pool.all)
    modifies pool`pending, pool`queue, pool`all, pool`slots, pool`nonces, pool`chain, pool`locals, priced
    ensures pool.Valid() && Partition(pool.State()) && PartOf(remotes', pool.all)
    ensures pool.chain == chain && pool.State() == Runs.AfterReset(old(pool.State()), l, r) && |answers| == |txs|
    ensures OffersAgain(old(pool.State()), l, priced.baseFee,
              Moment(old(priced.Contents()), remotes, pool.locals, changes), chain, txs, r, story)
    ensures answers == AnswersOf(story) && priced.baseFee == old(priced.baseFee) && pool.locals == old(pool.locals)
    ensures priced.Contents() == End(Moment(old(priced.Contents()), remotes, pool.locals, changes), story).heaps
    ensures remotes == NonLocal(old(pool.all), pool.locals) ==> remotes' == NonLocal(pool.all, pool.locals)
    ensures Prices.Tracks(remotes, old(priced.Entries())) ==> Prices.Tracks(remotes', priced.Entries())
  {
    ghost var s := pool.State();
    pool.chain, pool.nonces := chain, map[];
    NoncesDoNotMatter(s, pool.State());
    var changes', dirty;
    answers, dirty, remotes', changes', story := AddEach(pool, priced, remotes, txs, false, changes, l);
    r := Runs.Reset(chain, StepsOf(txs, story));
    assert txs[..|txs|] == txs;
  }
}
