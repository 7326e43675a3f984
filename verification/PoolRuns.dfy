/** Whole runs of the transaction pool. */
module PoolRuns {
  import opened PoolLists
  import opened PoolState
  import opened PoolSteps
  import opened PoolReorg

  datatype Limits = Limits(bump: nat, accountQueue: nat, accountSlots: nat, globalSlots: nat, globalQueue: nat)

  /** A transaction offered to the pool, whether it passes the stateless checks, and
      what the price list drops to make room for it. */
  datatype Insertion = Insertion(tx: Tx, sane: bool, drops: seq<Hash>)

  datatype Reset = Reset(chain: Chain, reinject: seq<Insertion>)

  /** What a reorganisation run is for: new transactions only, a new head whose blocks or
      state are missing, or a new head. */
  datatype Head = Same | Lost | New(reset: Reset)

  /** One step of the pool. The seqs in a reorganisation are the orders in which
      accounts are visited, and what the two truncations cut. */
  datatype Event =
    | AddTxs(txs: seq<Insertion>)
    | Drop(hashes: seq<Hash>)
    | Reorganise(head: Head, promote: seq<(Addr, bool)>, demote: seq<Addr>, caps: seq<(Addr, nat)>, evict: seq<Hash>)

  datatype Node = Node(s: Pool, c: Chain)

  // ---------------------------------------------------------------------------- folds

  ghost function AddAll(s: Pool, c: Chain, l: Limits, txs: seq<Insertion>): (r: Pool)
  {
    if txs == [] then s
    else
      var i := txs[|txs| - 1];
      Add(AddAll(s, c, l, txs[..|txs| - 1]), c, i.tx, i.sane, i.drops, l.bump).0
  }

  ghost function PromoteAll(s: Pool, c: Chain, l: Limits, order: seq<(Addr, bool)>): (r: Pool)
  {
    if order == [] then s
    else PromoteAccount(PromoteAll(s, c, l, order[..|order| - 1]), c, order[|order| - 1].0, order[|order| - 1].1,
        l.accountQueue)
  }

  ghost function DemoteAll(s: Pool, c: Chain, order: seq<Addr>): (r: Pool)
  {
    if order == [] then s else DemoteAccount(DemoteAll(s, c, order[..|order| - 1]), c, order[|order| - 1])
  }

  /** Keeps the k lowest pending nonces of an account. */
  ghost function CapPending(s: Pool, c: Chain, a: Addr, k: nat): (r: Pool)
  {
    var p := P(s, a);
    var kept := Lowest(p.Keys, k);
    if kept == p.Keys then s
    else
      var cut := MinOf(p.Keys - kept);
      Shuffle(s, a, Restrict(p, kept), Q(s, a)).(
        nonces := s.nonces[a := if Virtual(s, c, a) <= cut then Virtual(s, c, a) else cut])
  }

  ghost function CapAll(s: Pool, c: Chain, caps: seq<(Addr, nat)>): (r: Pool)
  {
    if caps == [] then s else CapPending(CapAll(s, c, caps[..|caps| - 1]), c, caps[|caps| - 1].0, caps[|caps| - 1].1)
  }

  // -------------------------------------------------------------------- the partition

  lemma {:induction false} AddAllPartition(s: Pool, c: Chain, l: Limits, txs: seq<Insertion>)
    requires Partition(s)
    ensures Partition(AddAll(s, c, l, txs))
  {
    if txs != [] {
      var i := txs[|txs| - 1];
      AddAllPartition(s, c, l, txs[..|txs| - 1]);
      AddPartition(AddAll(s, c, l, txs[..|txs| - 1]), c, i.tx, i.sane, i.drops, l.bump);
    }
  }

  lemma {:induction false} PromoteAllPartition(s: Pool, c: Chain, l: Limits, order: seq<(Addr, bool)>)
    requires Partition(s)
    ensures Partition(PromoteAll(s, c, l, order))
  {
    if order != [] {
      PromoteAllPartition(s, c, l, order[..|order| - 1]);
      PromotePartition(PromoteAll(s, c, l, order[..|order| - 1]), c, order[|order| - 1].0, order[|order| - 1].1,
          l.accountQueue);
    }
  }

  lemma {:induction false} DemoteAllPartition(s: Pool, c: Chain, order: seq<Addr>)
    requires Partition(s)
    ensures Partition(DemoteAll(s, c, order))
  {
    if order != [] {
      DemoteAllPartition(s, c, order[..|order| - 1]);
      DemotePartition(DemoteAll(s, c, order[..|order| - 1]), c, order[|order| - 1]);
    }
  }

  lemma {:induction false} CapPartition(s: Pool, c: Chain, a: Addr, k: nat)
    requires Partition(s)
    ensures Partition(CapPending(s, c, a, k))
  {
    var p := P(s, a);
    var kept := Lowest(p.Keys, k);
    if kept != p.Keys {
      assert AccountOk(s, a);
      ShufflePartition(s, a, Restrict(p, kept), Q(s, a));
      NoncesDoNotMatter(Shuffle(s, a, Restrict(p, kept), Q(s, a)), CapPending(s, c, a, k));
    }
  }

  lemma {:induction false} CapAllPartition(s: Pool, c: Chain, caps: seq<(Addr, nat)>)
    requires Partition(s)
    ensures Partition(CapAll(s, c, caps))
  {
    if caps != [] {
      CapAllPartition(s, c, caps[..|caps| - 1]);
      CapPartition(CapAll(s, c, caps[..|caps| - 1]), c, caps[|caps| - 1].0, caps[|caps| - 1].1);
    }
  }

  // ------------------------------------------------------------------------ contiguity

  lemma {:induction false} AddAllContiguous(s: Pool, c: Chain, l: Limits, txs: seq<Insertion>, a: Addr)
    requires Partition(s) && Contiguous(s, c, a)
    ensures Contiguous(AddAll(s, c, l, txs), c, a)
  {
    if txs != [] {
      var i := txs[|txs| - 1];
      AddAllPartition(s, c, l, txs[..|txs| - 1]);
      AddAllContiguous(s, c, l, txs[..|txs| - 1], a);
      AddContiguous(AddAll(s, c, l, txs[..|txs| - 1]), c, i.tx, i.sane, i.drops, l.bump, a);
    }
  }

  lemma {:induction false} RemoveGrounded(s: Pool, c: Chain, h: Hash, a: Addr)
    requires Partition(s) && Grounded(s, c, a)
    ensures Grounded(RemoveTx(s, c, h), c, a)
  {
    var r := RemoveTx(s, c, h);
    if h in s.all {
      var t := s.all[h];
      if t.from != a {
        assert P(r, a) == P(s, a) && Virtual(r, c, a) == Virtual(s, c, a);
      } else if t.nonce in P(s, a) {
        var p := P(s, a);
        assert P(r, a) == Restrict(p, set n | n in p && n < t.nonce);
      } else {
        assert P(r, a) == P(s, a);
      }
    }
  }

  lemma {:induction false} RemoveAllGrounded(s: Pool, c: Chain, hs: seq<Hash>, a: Addr)
    requires Partition(s) && Grounded(s, c, a)
    ensures Grounded(RemoveAll(s, c, hs), c, a)
  {
    if hs != [] {
      RemoveAllKeeps(s, c, hs[..|hs| - 1]);
      RemoveAllGrounded(s, c, hs[..|hs| - 1], a);
      RemoveGrounded(RemoveAll(s, c, hs[..|hs| - 1]), c, hs[|hs| - 1], a);
    }
  }

  lemma {:induction false} AddAllGrounded(s: Pool, c: Chain, l: Limits, txs: seq<Insertion>, a: Addr)
    requires Partition(s) && Grounded(s, c, a)
    ensures Grounded(AddAll(s, c, l, txs), c, a)
  {
    if txs != [] {
      var i, s' := txs[|txs| - 1], AddAll(s, c, l, txs[..|txs| - 1]);
      AddAllPartition(s, c, l, txs[..|txs| - 1]);
      AddAllGrounded(s, c, l, txs[..|txs| - 1], a);
      RemoveAllGrounded(s', c, i.drops, a);
      OfferNonces(RemoveAll(s', c, i.drops), i.tx, l.bump, a);
    }
  }

  lemma {:induction false} PromoteAllKeeps(s: Pool, c: Chain, l: Limits, order: seq<(Addr, bool)>, a: Addr)
    requires Partition(s)
    ensures Contiguous(s, c, a) ==> Contiguous(PromoteAll(s, c, l, order), c, a)
    ensures Grounded(s, c, a) ==> Grounded(PromoteAll(s, c, l, order), c, a)
  {
    if order != [] {
      var s', b, isLocal := PromoteAll(s, c, l, order[..|order| - 1]), order[|order| - 1].0, order[|order| - 1].1;
      PromoteAllPartition(s, c, l, order[..|order| - 1]);
      PromoteAllKeeps(s, c, l, order[..|order| - 1], a);
      if a != b {
        PromoteOther(s', c, b, isLocal, l.accountQueue, a);
      } else {
        if Contiguous(s, c, a) {
          PromoteContiguous(s', c, a, isLocal, l.accountQueue, PromoteAll(s, c, l, order));
        }
        if Grounded(s, c, a) {
          PromoteGrounded(s', c, a, isLocal, l.accountQueue, PromoteAll(s, c, l, order));
        }
      }
    }
  }

  /** Demoting every account with pending transactions leaves only runs from the state nonce. */
  lemma {:induction false} DemoteAllRuns(s: Pool, c: Chain, order: seq<Addr>, a: Addr)
    requires Solid(s, c, a)
    ensures a in order ==> FromState(DemoteAll(s, c, order), c, a)
    ensures a !in order ==> P(DemoteAll(s, c, order), a) == P(s, a)
    ensures Solid(DemoteAll(s, c, order), c, a)
  {
    if order != [] {
      var s', b := DemoteAll(s, c, order[..|order| - 1]), order[|order| - 1];
      DemoteAllRuns(s, c, order[..|order| - 1], a);
      if a != b {
        DemoteOther(s', c, b, a);
      } else {
        DemoteSolid(s', c, a);
      }
    }
  }

  lemma {:induction false} CapContiguous(s: Pool, c: Chain, b: Addr, k: nat, a: Addr)
    requires Contiguous(s, c, a)
    ensures Contiguous(CapPending(s, c, b, k), c, a)
  {
    var p, r := P(s, b), CapPending(s, c, b, k);
    var kept := Lowest(p.Keys, k);
    if a != b {
      assert P(r, a) == P(s, a) && Virtual(r, c, a) == Virtual(s, c, a);
    } else if kept != p.Keys {
      var cut := MinOf(p.Keys - kept);
      assert P(r, a) == Restrict(p, kept);
      forall n | n in p.Keys
        ensures n in kept <==> n < cut
      {
        if n !in kept {
          assert n in p.Keys - kept;
        }
      }
    }
  }

  lemma {:induction false} CapAllContiguous(s: Pool, c: Chain, caps: seq<(Addr, nat)>, a: Addr)
    requires Contiguous(s, c, a)
    ensures Contiguous(CapAll(s, c, caps), c, a)
  {
    if caps != [] {
      CapAllContiguous(s, c, caps[..|caps| - 1], a);
      CapContiguous(CapAll(s, c, caps[..|caps| - 1]), c, caps[|caps| - 1].0, caps[|caps| - 1].1, a);
    }
  }

  // ------------------------------------------------------------------- reorganisations

  /** The pool right after a reset to a new chain state: virtual nonces forgotten, the
      transactions of abandoned blocks offered again. */
  ghost function AfterReset(s: Pool, l: Limits, r: Reset): (t: Pool)
  {
    AddAll(s.(nonces := map[]), r.chain, l, r.reinject)
  }

  /** The chain state the run ends with. */
  function HeadChain(c: Chain, e: Event): Chain
    requires e.Reorganise?
  {
    if e.head.New? then e.head.reset.chain else c
  }

  ghost function AfterPromote(s: Pool, c: Chain, l: Limits, e: Event): (t: Pool)
    requires e.Reorganise?
  {
    PromoteAll(if e.head.New? then AfterReset(s, l, e.head.reset) else s, HeadChain(c, e), l, e.promote)
  }

  ghost function AfterDemote(s: Pool, c: Chain, l: Limits, e: Event): (t: Pool)
    requires e.Reorganise?
  {
    var s1 := AfterPromote(s, c, l, e);
    if e.head.Same? then s1 else SetAllNonces(DemoteAll(s1, HeadChain(c, e), e.demote))
  }

  ghost function Reorganised(s: Pool, c: Chain, l: Limits, e: Event): (n: Node)
    requires e.Reorganise?
  {
    var c' := HeadChain(c, e);
    Node(RemoveAll(CapAll(AfterDemote(s, c, l, e), c', e.caps), c', e.evict), c')
  }

  ghost function Next(n: Node, l: Limits, e: Event): (r: Node)
  {
    match e
    case AddTxs(txs) => Node(AddAll(n.s, n.c, l, txs), n.c)
    case Drop(hs) => Node(RemoveAll(n.s, n.c, hs), n.c)
    case Reorganise(_, _, _, _, _) => Reorganised(n.s, n.c, l, e)
  }

  /** A run for a new head visits every account with pending transactions, and account
      nonces of the chain do not move backwards. */
  ghost predicate Forward(n: Node, l: Limits, e: Event) {
    e.Reorganise? && !e.head.Same? ==>
      && (forall a | a in AfterPromote(n.s, n.c, l, e).pending :: a in e.demote)
      && (forall a :: StateNonce(n.c, a) <= StateNonce(HeadChain(n.c, e), a))
  }

  lemma {:induction false} AfterPromotePartition(s: Pool, c: Chain, l: Limits, e: Event)
    requires Partition(s) && e.Reorganise?
    ensures Partition(AfterPromote(s, c, l, e))
  {
    var s0 := if e.head.New? then AfterReset(s, l, e.head.reset) else s;
    if e.head.New? {
      NoncesDoNotMatter(s, s.(nonces := map[]));
      AddAllPartition(s.(nonces := map[]), e.head.reset.chain, l, e.head.reset.reinject);
    }
    PromoteAllPartition(s0, HeadChain(c, e), l, e.promote);
  }

  lemma {:induction false} AfterDemotePartition(s: Pool, c: Chain, l: Limits, e: Event)
    requires Partition(s) && e.Reorganise?
    ensures Partition(AfterDemote(s, c, l, e))
  {
    AfterPromotePartition(s, c, l, e);
    if !e.head.Same? {
      var s1 := DemoteAll(AfterPromote(s, c, l, e), HeadChain(c, e), e.demote);
      DemoteAllPartition(AfterPromote(s, c, l, e), HeadChain(c, e), e.demote);
      NoncesDoNotMatter(s1, SetAllNonces(s1));
    }
  }

  lemma {:induction false} ReorganisedPartition(s: Pool, c: Chain, l: Limits, e: Event)
    requires Partition(s) && e.Reorganise?
    ensures Partition(Reorganised(s, c, l, e).s)
  {
    var c' := HeadChain(c, e);
    AfterDemotePartition(s, c, l, e);
    CapAllPartition(AfterDemote(s, c, l, e), c', e.caps);
    RemoveAllKeeps(CapAll(AfterDemote(s, c, l, e), c', e.caps), c', e.evict);
  }

  /** After promotion on a state that moved forward, everything is still grounded. */
  lemma {:induction false} PromoteGrounds(s: Pool, c: Chain, l: Limits, e: Event, a: Addr)
    requires Partition(s) && Contiguous(s, c, a) && e.Reorganise?
    requires StateNonce(c, a) <= StateNonce(HeadChain(c, e), a)
    ensures Grounded(AfterPromote(s, c, l, e), HeadChain(c, e), a)
    ensures !e.head.New? ==> Contiguous(AfterPromote(s, c, l, e), c, a)
  {
    if e.head.New? {
      var c', s0 := e.head.reset.chain, s.(nonces := map[]);
      NoncesDoNotMatter(s, s0);
      assert P(s0, a) == P(s, a);
      AddAllPartition(s0, c', l, e.head.reset.reinject);
      AddAllGrounded(s0, c', l, e.head.reset.reinject, a);
      PromoteAllKeeps(AfterReset(s, l, e.head.reset), c', l, e.promote, a);
    } else {
      PromoteAllKeeps(s, c, l, e.promote, a);
      ContiguousIsGrounded(AfterPromote(s, c, l, e), c, a);
    }
  }

  lemma {:induction false} AfterDemoteContiguous(s: Pool, c: Chain, l: Limits, e: Event, a: Addr)
    requires Partition(s) && Contiguous(s, c, a) && e.Reorganise? && Forward(Node(s, c), l, e)
    ensures Contiguous(AfterDemote(s, c, l, e), HeadChain(c, e), a)
  {
    if e.head.Same? {
      PromoteGrounds(s, c, l, e, a);
    } else {
      var s1, c' := AfterPromote(s, c, l, e), HeadChain(c, e);
      assert StateNonce(c, a) <= StateNonce(c', a);
      PromoteGrounds(s, c, l, e, a);
      DemoteAllRuns(s1, c', e.demote, a);
      if a !in e.demote {
        assert a !in s1.pending;
      }
      SetAllContiguous(DemoteAll(s1, c', e.demote), c', a);
    }
  }

  lemma {:induction false} ReorganisedContiguous(s: Pool, c: Chain, l: Limits, e: Event, a: Addr)
    requires Partition(s) && Contiguous(s, c, a) && e.Reorganise? && Forward(Node(s, c), l, e)
    ensures Contiguous(Reorganised(s, c, l, e).s, Reorganised(s, c, l, e).c, a)
  {
    var c', s2 := HeadChain(c, e), AfterDemote(s, c, l, e);
    AfterDemotePartition(s, c, l, e);
    AfterDemoteContiguous(s, c, l, e, a);
    CapAllPartition(s2, c', e.caps);
    CapAllContiguous(s2, c', e.caps, a);
    RemoveAllContiguous(CapAll(s2, c', e.caps), c', e.evict, a);
  }

  // -------------------------------------------------------------------------- any run

  ghost function Run(n: Node, l: Limits, es: seq<Event>): (r: Node)
  {
    if es == [] then n else Next(Run(n, l, es[..|es| - 1]), l, es[|es| - 1])
  }

  /** The i-th event of the run does not move account nonces backwards. */
  ghost predicate ForwardAt(n: Node, l: Limits, es: seq<Event>, i: nat)
    requires i < |es|
  {
    Forward(Run(n, l, es[..i]), l, es[i])
  }

  /** Every pool operation keeps the partition, whatever the chain does. */
  lemma {:induction false} RunPartition(n: Node, l: Limits, es: seq<Event>)
    requires Partition(n.s)
    ensures Partition(Run(n, l, es).s)
  {
    if es != [] {
      var m, e := Run(n, l, es[..|es| - 1]), es[|es| - 1];
      RunPartition(n, l, es[..|es| - 1]);
      match e {
        case AddTxs(txs) => AddAllPartition(m.s, m.c, l, txs);
        case Drop(hs) => RemoveAllKeeps(m.s, m.c, hs);
        case Reorganise(_, _, _, _, _) => ReorganisedPartition(m.s, m.c, l, e);
      }
    }
  }

  /** While account nonces never move backwards, after every step the pending nonces of
      every sender are exactly those from the state nonce to the virtual nonce. */
  lemma {:induction false} RunContiguous(n: Node, l: Limits, es: seq<Event>, a: Addr)
    requires Partition(n.s) && Contiguous(n.s, n.c, a)
    requires forall i | 0 <= i < |es| :: ForwardAt(n, l, es, i)
    ensures Contiguous(Run(n, l, es).s, Run(n, l, es).c, a)
  {
    if es != [] {
      var k := |es| - 1;
      var m, e := Run(n, l, es[..k]), es[k];
      forall i | 0 <= i < k
        ensures ForwardAt(n, l, es[..k], i)
      {
        assert es[..k][..i] == es[..i];
        assert ForwardAt(n, l, es, i);
      }
      assert ForwardAt(n, l, es, k);
      RunPartition(n, l, es[..k]);
      RunContiguous(n, l, es[..k], a);
      match e {
        case AddTxs(txs) => AddAllContiguous(m.s, m.c, l, txs, a);
        case Drop(hs) => RemoveAllContiguous(m.s, m.c, hs, a);
        case Reorganise(_, _, _, _, _) => ReorganisedContiguous(m.s, m.c, l, e, a);
      }
    }
  }
}
