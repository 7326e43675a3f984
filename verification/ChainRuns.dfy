/** Safety over whole runs of the chain's head-moving steps. */
module ChainRuns {
  import opened BlockTree
  import opened TxIndex
  import opened ForkChoice
  import opened Branches
  import opened BlockChain

  datatype Event =
    | Import(block: Block, coin: bool, status: Status)  // writeBlockAndSetHead
    | Store(block: Block)                               // a block written without touching the head
    | Adopt(hash: Hash)                                 // writeKnownBlock, SetCanonical
    | Refuse(hash: Hash)                                // the same, stopped by the depth cap

  ghost predicate Step(cfg: Config, s: State, e: Event, s': State)
    requires Closed(s.headers) && s.bodies.Keys == s.headers.Keys && s.head in s.headers
  {
    match e
    case Import(b, coin, status) => Importable(s, b) && ImportStep(cfg, s, s', b, coin, status)
    case Store(b) => Importable(s, b) && ParentKnown(s, b) && s' == WithBlock(s, b)
    case Adopt(h) => MoveStep(cfg, s, s', h)
    case Refuse(h) => h in s.headers && !DepthAllowed(cfg, s, h) && s' == s
  }

  /** A run: states[i] steps to states[i + 1] by events[i]. */
  ghost predicate Run(cfg: Config, genesis: Hash, states: seq<State>, events: seq<Event>) {
    && |states| == |events| + 1
    && Sound(states[0], genesis)
    && forall i | 0 <= i < |events| :: StepAt(cfg, states, events, i)
  }

  ghost predicate StepAt(cfg: Config, states: seq<State>, events: seq<Event>, i: nat)
    requires |states| == |events| + 1 && i < |events|
  {
    var s := states[i];
    && Closed(s.headers) && s.bodies.Keys == s.headers.Keys && s.head in s.headers
    && Step(cfg, s, events[i], states[i + 1])
  }

  lemma {:induction false} MoveSound(cfg: Config, genesis: Hash, s: State, s': State, h: Hash)
    requires Sound(s, genesis) && MoveStep(cfg, s, s', h)
    ensures Sound(s', genesis)
  {
  }

  lemma {:induction false} StepSound(cfg: Config, genesis: Hash, s: State, e: Event, s': State)
    requires Sound(s, genesis) && Step(cfg, s, e, s')
    ensures Sound(s', genesis) && Extends(s.headers, s'.headers)
  {
    match e {
      case Import(b, _, status) =>
        if ParentKnown(s, b) {
          WithBlockSound(s, genesis, b, WithBlock(s, b));
          if status.Canon? {
            MoveSound(cfg, genesis, WithBlock(s, b), s', b.header.hash);
          }
        }
      case Store(b) => WithBlockSound(s, genesis, b, s');
      case Adopt(h) => MoveSound(cfg, genesis, s, s', h);
      case Refuse(_) =>
    }
  }

  /** In every state of every run the canonical index is exactly the head's branch
      and every stored total difficulty is the work of its branch. */
  lemma {:induction false} RunSound(cfg: Config, genesis: Hash, states: seq<State>, events: seq<Event>, i: nat)
    requires Run(cfg, genesis, states, events) && i < |states|
    ensures Sound(states[i], genesis)
  {
    if i > 0 {
      RunSound(cfg, genesis, states, events, i - 1);
      assert StepAt(cfg, states, events, i - 1);
      StepSound(cfg, genesis, states[i - 1], events[i - 1], states[i]);
    }
  }

  // ------------------------------------------------- the transaction lookup index

  /** No branch of the store repeats a transaction. */
  ghost predicate AllOnce(s: State) {
    && Closed(s.headers) && s.bodies.Keys == s.headers.Keys
    && forall h {:trigger BranchOnce(s, h)} | h in s.headers :: BranchOnce(s, h)
  }

  lemma {:induction false} LookupGrows(s: State, genesis: Hash, b: Block, s': State)
    requires Sound(s, genesis) && Importable(s, b) && ParentKnown(s, b) && s' == WithBlock(s, b)
    requires Sound(s', genesis) && LookupSound(s)
    ensures LookupSound(s')
  {
    var p := Path(s.headers, s.head);
    PathGrows(s.headers, s'.headers, s.head);
    BranchHasBodies(s.headers, s.bodies, s.head);
    LookupSameBodies(s.bodies, s'.bodies, p);
  }

  lemma {:induction false} LookupSameBodies(bodies: Bodies, bodies': Bodies, p: seq<Hash>)
    requires HasBodies(bodies, p) && HasBodies(bodies', p)
    requires forall i | 0 <= i < |p| :: bodies[p[i]] == bodies'[p[i]]
    ensures LookupOf(bodies, p) == LookupOf(bodies', p)
  {
    if p != [] {
      LookupSameBodies(bodies, bodies', p[..|p| - 1]);
    }
  }

  lemma {:induction false} StepLookup(cfg: Config, genesis: Hash, s: State, e: Event, s': State)
    requires Sound(s, genesis) && Sound(s', genesis) && Step(cfg, s, e, s')
    requires LookupSound(s) && AllOnce(s')
    ensures LookupSound(s')
  {
    match e {
      case Import(b, _, status) =>
        if ParentKnown(s, b) {
          var m := WithBlock(s, b);
          WithBlockSound(s, genesis, b, m);
          LookupGrows(s, genesis, b, m);
          if status.Canon? {
            assert BranchOnce(s', m.head) && BranchOnce(s', b.header.hash);
          }
        }
      case Store(b) => LookupGrows(s, genesis, b, s');
      case Adopt(h) => assert BranchOnce(s', s.head) && BranchOnce(s', h);
      case Refuse(_) =>
    }
  }

  lemma {:induction false} LookupIsCanonical(s: State, genesis: Hash, x: TxHash, n: nat)
    requires Sound(s, genesis) && LookupSound(s) && AllOnce(s)
    ensures (x in s.lookup && s.lookup[x] == n) <==>
            (n in s.canon && s.canon[n] in s.bodies && x in s.bodies[s.canon[n]])
  {
    BranchHasBodies(s.headers, s.bodies, s.head);
    assert BranchOnce(s, s.head);
    LookupExact(s.bodies, Path(s.headers, s.head), x, n);
    assert InBlock(s.bodies, Path(s.headers, s.head), n, x) <==>
           (n in s.canon && s.canon[n] in s.bodies && x in s.bodies[s.canon[n]]);
  }

  lemma {:induction false} RunLookupSound(cfg: Config, genesis: Hash, states: seq<State>, events: seq<Event>, i: nat)
    requires Run(cfg, genesis, states, events) && i < |states|
    requires LookupSound(states[0])
    requires forall j | 0 <= j <= i :: AllOnce(states[j])
    ensures Sound(states[i], genesis) && LookupSound(states[i])
  {
    RunSound(cfg, genesis, states, events, i);
    if i > 0 {
      RunLookupSound(cfg, genesis, states, events, i - 1);
      assert StepAt(cfg, states, events, i - 1);
      StepLookup(cfg, genesis, states[i - 1], events[i - 1], states[i]);
    }
  }

  /** If no branch repeats a transaction, the stored lookup index is exactly
      {transaction -> number of its canonical block} in every state of every run. */
  lemma {:induction false} RunLookup(cfg: Config, genesis: Hash, states: seq<State>, events: seq<Event>, i: nat,
                                     x: TxHash, n: nat)
    requires Run(cfg, genesis, states, events) && i < |states|
    requires LookupSound(states[0])
    requires forall j | 0 <= j <= i :: AllOnce(states[j])
    ensures (x in states[i].lookup && states[i].lookup[x] == n) <==>
            (n in states[i].canon && states[i].canon[n] in states[i].bodies
              && x in states[i].bodies[states[i].canon[n]])
  {
    RunLookupSound(cfg, genesis, states, events, i);
    LookupIsCanonical(states[i], genesis, x, n);
  }

  // --------------------------------------------------------------------- finality

  ghost predicate HeadsAtOrAbove(states: seq<State>, m: nat) {
    forall i | 0 <= i < |states| :: states[i].head in states[i].headers && states[i].headers[states[i].head].number >= m
  }

  lemma {:induction false} MoveFinal(cfg: Config, genesis: Hash, s: State, s': State, h: Hash, m: nat, k: nat)
    requires Sound(s, genesis) && MoveStep(cfg, s, s', h)
    requires cfg.maxReorgDepth > 0 && IsPosa(cfg, m) && s.headers[s.head].number >= m
    requires k + cfg.maxReorgDepth <= m
    ensures k in s.canon && k in s'.canon && s'.canon[k] == s.canon[k]
  {
    var n := s.headers[s.head].number;
    assert Agree(Path(s.headers, s.head), Path(s.headers, h), n - cfg.maxReorgDepth);
  }

  lemma {:induction false} StepFinal(cfg: Config, genesis: Hash, s: State, e: Event, s': State, m: nat, k: nat)
    requires Sound(s, genesis) && Step(cfg, s, e, s')
    requires cfg.maxReorgDepth > 0 && IsPosa(cfg, m) && s.headers[s.head].number >= m
    requires k + cfg.maxReorgDepth <= m
    ensures k in s.canon && k in s'.canon && s'.canon[k] == s.canon[k]
  {
    match e {
      case Import(b, _, status) =>
        if ParentKnown(s, b) {
          WithBlockSound(s, genesis, b, WithBlock(s, b));
          if status.Canon? {
            MoveFinal(cfg, genesis, WithBlock(s, b), s', b.header.hash, m, k);
          }
        }
      case Store(_) =>
      case Adopt(h) => MoveFinal(cfg, genesis, s, s', h, m, k);
      case Refuse(_) =>
    }
  }

  /** With the depth cap D set, a run whose head never falls below an authority
      number m never changes the canonical block of any number up to m - D. */
  lemma {:induction false} RunFinal(cfg: Config, genesis: Hash, states: seq<State>, events: seq<Event>, m: nat,
                                    k: nat, i: nat)
    requires Run(cfg, genesis, states, events) && i < |states|
    requires cfg.maxReorgDepth > 0 && IsPosa(cfg, m) && HeadsAtOrAbove(states, m)
    requires k + cfg.maxReorgDepth <= m
    ensures k in states[0].canon && k in states[i].canon && states[i].canon[k] == states[0].canon[k]
  {
    if i > 0 {
      RunFinal(cfg, genesis, states, events, m, k, i - 1);
      RunSound(cfg, genesis, states, events, i - 1);
      assert StepAt(cfg, states, events, i - 1);
      StepFinal(cfg, genesis, states[i - 1], events[i - 1], states[i], m, k);
    }
  }

  // ------------------------------------------------------------------ fork choice

  ghost function HeadRank(cfg: Config, s: State): Rank
    requires Closed(s.headers) && s.head in s.headers
  {
    RankOf(cfg, Work(s.headers, s.head), s.headers[s.head])
  }

  lemma {:induction false} ImportRank(cfg: Config, genesis: Hash, s: State, s': State, b: Block, coin: bool,
                                      status: Status)
    requires Sound(s, genesis) && Sound(s', genesis) && Importable(s, b) && ImportStep(cfg, s, s', b, coin, status)
    ensures AtMost(HeadRank(cfg, s), HeadRank(cfg, s'))
  {
    if ParentKnown(s, b) {
      var m := WithBlock(s, b);
      WithBlockSound(s, genesis, b, m);
      WorkGrows(s.headers, m.headers, s.head);
      if status.Canon? {
        assert m.td[m.head] == Work(m.headers, m.head) && m.td[b.header.hash] == Work(m.headers, b.header.hash);
        ChoiceIsRank(cfg, m.td[m.head], m.td[b.header.hash], m.headers[m.head], b.header, coin);
      }
    }
  }

  /** Along any run of imports the head's rank (authority, total work of its
      branch, lower number first) never falls. */
  lemma {:induction false} RunRank(cfg: Config, genesis: Hash, states: seq<State>, events: seq<Event>, i: nat, j: nat)
    requires Run(cfg, genesis, states, events) && i <= j < |states|
    requires forall k | 0 <= k < |events| :: events[k].Import? || events[k].Store?
    ensures Sound(states[i], genesis) && Sound(states[j], genesis)
    ensures AtMost(HeadRank(cfg, states[i]), HeadRank(cfg, states[j]))
    decreases j
  {
    RunSound(cfg, genesis, states, events, j);
    if i < j {
      RunRank(cfg, genesis, states, events, i, j - 1);
      assert StepAt(cfg, states, events, j - 1);
      var s, s', e := states[j - 1], states[j], events[j - 1];
      if e.Import? {
        ImportRank(cfg, genesis, s, s', e.block, e.coin, e.status);
      } else {
        WithBlockSound(s, genesis, e.block, s');
        WorkGrows(s.headers, s'.headers, s.head);
      }
      AtMostTransitive(HeadRank(cfg, states[i]), HeadRank(cfg, s), HeadRank(cfg, s'));
    }
  }

  /** So an authority head is never abandoned for a proof-of-work head, however heavy. */
  lemma {:induction false} AuthorityStays(cfg: Config, genesis: Hash, states: seq<State>, events: seq<Event>, i: nat,
                                          j: nat)
    requires Run(cfg, genesis, states, events) && i <= j < |states|
    requires forall k | 0 <= k < |events| :: events[k].Import? || events[k].Store?
    requires states[i].head in states[i].headers && IsPosa(cfg, states[i].headers[states[i].head].number)
    ensures states[j].head in states[j].headers && IsPosa(cfg, states[j].headers[states[j].head].number)
  {
    RunRank(cfg, genesis, states, events, i, j);
  }
}
