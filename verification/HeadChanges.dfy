/** The pool follows the chain to a new head: what the reorganisation abandons is found
    from the blocks and offered again in the run that the head triggers. */
module HeadChanges {
  import opened Options
  import opened BlockTree
  import opened TxIndex
  import opened Branches
  import opened BlockChain
  import opened PoolReset
  import Lists = PoolLists
  import States = PoolState
  import Pools = TxPool
  import Prices = PricedList
  import Runs = PoolRuns
  import Admission = PoolAdmission
  import Offers = PoolOffers
  import Maintenance = PoolMaintenance

  /** A transaction by its hash, with whether it passes the stateless checks. */
  type Body = TxHash -> (Lists.Tx, bool)

  function BodiesOf(hashes: seq<TxHash>, body: Body): seq<(Lists.Tx, bool)> {
    seq(|hashes|, i requires 0 <= i < |hashes| => body(hashes[i]))
  }

  /** The transactions to offer again are those on the old branch and not on the new one. */
  ghost predicate Abandoned(s: State, oldHead: Header, newHead: Header, hashes: seq<TxHash>)
    requires Closed(s.headers) && oldHead.hash in s.headers && newHead.hash in s.headers
  {
    var p, q := Path(s.headers, oldHead.hash), Path(s.headers, newHead.hash);
    && HasBodies(s.bodies, p) && HasBodies(s.bodies, q)
    && (OncePerBranch(s.bodies, p) ==>
          forall x :: x in hashes <==> OnChain(s.bodies, p, x) && !OnChain(s.bodies, q, x))
  }

  ghost predicate ByHash(body: Body) {
    forall h :: body(h).0.hash == h
  }

  /** What the run is for: the new head's state and what is to be offered again. The head is
      lost exactly if its state is missing or the walk to the fork is blocked. */
  method FindTarget(s: State, ghost genesis: Hash, oldHead: Option<Header>, newHead: Header,
                    states: map<Hash, States.Chain>, body: Body)
    returns (target: Maintenance.Target, ghost hashes: seq<TxHash>, ghost f: Fork)
    requires Keyed(s.headers) && newHead.hash in s.headers && s.headers[newHead.hash] == newHead
             && newHead.hash in s.bodies
    ensures target == if newHead.hash !in states || Blocked(s, oldHead, newHead) then Maintenance.Lost
                      else Maintenance.At(states[newHead.hash], BodiesOf(hashes, body))
    ensures target.At? ==> GivesBack(s, oldHead, newHead, f, hashes)
    ensures newHead.hash in states
            && (oldHead.None? || !(oldHead.value.number - 64 <= newHead.number <= oldHead.value.number + 64)) ==>
              target.At? && hashes == []
    ensures newHead.hash in states && oldHead.Some?
            && oldHead.value.number - 64 <= newHead.number <= oldHead.value.number + 64
            && Complete(s, genesis, oldHead.value, newHead) ==>
              target.At? && Abandoned(s, oldHead.value, newHead, hashes)
  {
    var found;
    found, f := Reinjected(s, genesis, oldHead, newHead);
    hashes := [];
    if found.Stuck? || newHead.hash !in states {
      return Maintenance.Lost, hashes, f;
    }
    hashes := found.reinject;
    return Maintenance.At(states[newHead.hash], BodiesOf(found.reinject, body)), hashes, f;
  }

  /** The transactions offered are those of the hashes, in turn. */
  ghost predicate OffersHashes(r: Runs.Reset, hashes: seq<TxHash>) {
    |r.reinject| == |hashes| && forall i | 0 <= i < |hashes| :: r.reinject[i].tx.hash == hashes[i]
  }

  lemma {:induction false} TakesBack(s: States.Pool, l: Runs.Limits, base: Prices.BaseFee, start: Offers.Moment,
                                     chain: States.Chain, hashes: seq<TxHash>, body: Body, r: Runs.Reset,
                                     story: seq<Offers.Offering>)
    requires ByHash(body) && Offers.OffersAgain(s, l, base, start, chain, BodiesOf(hashes, body), r, story)
    ensures OffersHashes(r, hashes)
    ensures Offers.HasRoom(s.all, BodiesOf(hashes, body), l) ==>
              r.reinject == Offers.AsOffered(BodiesOf(hashes, body))
  {
    var txs := BodiesOf(hashes, body);
    if Offers.HasRoom(s.all, txs, l) {
      Offers.RoomForAll(s.(nonces := map[]), chain, l, base, start, txs, false, story, |txs|);
      assert txs[..|txs|] == txs && r.reinject[..|txs|] == r.reinject;
    }
  }

  /** One run for a new head. Unless its state is missing or the walk to the fork is
      blocked, it is a step of the pool to that state that offers again, in turn and each
      decided on as it should, the transactions of the old branch that the new one lacks;
      all of them as they are, if the pool has room for all. */
  method Follow(s: State, ghost genesis: Hash, oldHead: Option<Header>, newHead: Header,
                states: map<Hash, States.Chain>, body: Body, pool: Pools.TxPool, priced: Prices.List,
                remotes: map<Lists.Hash, Lists.Tx>, fee: Option<nat>, beats: map<Lists.Addr, nat>, changes: nat,
                l: Runs.Limits)
    returns (remotes': map<Lists.Hash, Lists.Tx>, changes': nat, ghost e: Runs.Event, ghost hashes: seq<TxHash>,
             ghost f: Fork, ghost story: seq<Offers.Offering>)
    requires Keyed(s.headers) && newHead.hash in s.headers && s.headers[newHead.hash] == newHead
             && newHead.hash in s.bodies
    requires ByHash(body) && pool.Valid() && States.Partition(pool.State()) && Admission.PartOf(remotes, pool.all)
    modifies pool`pending, pool`queue, pool`all, pool`slots, pool`nonces, pool`chain, pool`locals, priced
    ensures pool.Valid() && States.Partition(pool.State()) && Admission.PartOf(remotes', pool.all) && changes' == 0
    ensures Runs.Node(pool.State(), pool.chain) == Runs.Next(Runs.Node(old(pool.State()), old(pool.chain)), l, e)
    ensures e.Reorganise? && if newHead.hash !in states || Blocked(s, oldHead, newHead) then e.head.Lost?
                             else e.head.New?
    ensures e.head.New? ==>
              && GivesBack(s, oldHead, newHead, f, hashes) && pool.chain == states[newHead.hash]
              && Offers.OffersAgain(old(pool.State()), l, old(priced.baseFee),
                   Offers.Moment(old(priced.Contents()), remotes, pool.locals, changes), pool.chain,
                   BodiesOf(hashes, body), e.head.reset, story)
    ensures e.head.New? ==> OffersHashes(e.head.reset, hashes)
    ensures e.head.New? && Offers.HasRoom(old(pool.all), BodiesOf(hashes, body), l) ==>
              e.head.reset.reinject == Offers.AsOffered(BodiesOf(hashes, body))
    ensures newHead.hash in states
            && (oldHead.None? || !(oldHead.value.number - 64 <= newHead.number <= oldHead.value.number + 64)) ==>
              e.head.New? && hashes == []
    ensures newHead.hash in states && oldHead.Some?
            && oldHead.value.number - 64 <= newHead.number <= oldHead.value.number + 64
            && Complete(s, genesis, oldHead.value, newHead) ==>
              e.head.New? && Abandoned(s, oldHead.value, newHead, hashes)
    ensures fee.Some? ==>
              && priced.baseFee == Prices.BaseFee(fee.value) && Prices.Balanced(priced.baseFee, priced.Contents())
              && Prices.Tracks(remotes', priced.Entries()) && Prices.Once(remotes', priced.Entries())
    ensures fee.None? ==> priced.baseFee == old(priced.baseFee)
    ensures remotes == Admission.NonLocal(old(pool.all), pool.locals) ==>
              remotes' == Admission.NonLocal(pool.all, pool.locals)
    ensures Prices.Tracks(remotes, old(priced.Entries())) ==> Prices.Tracks(remotes', priced.Entries())
  {
    ghost var p, base := pool.State(), priced.baseFee;
    ghost var start := Offers.Moment(priced.Contents(), remotes, pool.locals, changes);
    var target;
    ghost var cut;
    target, hashes, f := FindTarget(s, genesis, oldHead, newHead, states, body);
    remotes', changes', e, cut, story :=
      Maintenance.RunReorg(pool, priced, remotes, target, fee, [], beats, changes, l);
    if target.At? {
      TakesBack(p, l, base, start, target.chain, hashes, body, e.head.reset, story);
    }
  }
}
