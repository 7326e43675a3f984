/** Chain reorganisations that lower an account's nonce can leave a gap among its
    pending nonces, although pending lists are meant to be gap-free. When exactly. */
module PoolGaps {
  import opened PoolLists
  import opened PoolState
  import opened PoolSteps
  import opened PoolReorg
  import Runs = PoolRuns

  /** One account through a reset: promotion, demotion, recomputed virtual nonces. */
  ghost function ThroughReset(t: Pool, c: Chain, a: Addr, isLocal: bool, limit: nat): (w: Pool)
  {
    SetAllNonces(DemoteAccount(PromoteAccount(t, c, a, isLocal, limit), c, a))
  }

  ghost function PendingFrom(t: Pool, c: Chain, a: Addr): Txs {
    P(t, a) - TooOld(P(t, a), StateNonce(c, a))
  }

  ghost function UnpayablePending(t: Pool, c: Chain, a: Addr): set<nat> {
    Unpayable(PendingFrom(t, c, a), Balance(c, a), c.maxGas)
  }

  /** How far promotion gets from the state nonce: nowhere if the virtual nonce is lower. */
  ghost function PromotedEnd(t: Pool, c: Chain, a: Addr): nat {
    if Virtual(t, c, a) == StateNonce(c, a) then RunEnd(Executable(t, c, a).Keys, StateNonce(c, a))
      else StateNonce(c, a)
  }

  /** The reset leaves a gap: the account's pending nonces lo..hi are all above the new
      state nonce, promotion starts at the state nonce but ends before lo, and the
      transaction at lo stays payable. */
  ghost predicate LeavesGap(t: Pool, c: Chain, a: Addr, lo: nat, hi: nat) {
    var bad := UnpayablePending(t, c, a);
    StateNonce(c, a) < PromotedEnd(t, c, a) < lo < hi && (bad == {} || lo < MinOf(bad))
  }

  lemma {:induction false} StartReady(q: Txs, start: nat)
    requires start in q
    ensures ReadySet(q, start) != {}
  {
    assert MinOf(q.Keys) <= start;
    assert MinOf(q.Keys) in ReadySet(q, start);
  }

  lemma {:induction false} NotYetReady(q: Txs, v: nat)
    requires v !in q && (forall n | n in q :: v <= n)
    ensures ReadySet(q, v) == {}
  {
  }

  /** What is ready once the virtual nonce is not above the state nonce. */
  lemma {:induction false} ReadyAfterReset(t: Pool, c: Chain, a: Addr, n: nat)
    requires AccountOk(t, a) && Virtual(t, c, a) <= StateNonce(c, a)
    ensures n in ReadySet(Executable(t, c, a), Virtual(t, c, a)) <==> StateNonce(c, a) <= n < PromotedEnd(t, c, a)
  {
    var q, v := Executable(t, c, a), Virtual(t, c, a);
    if v in q {
      StartReady(q, v);
      ReadyStart(t, c, a);
      ReadyRun(t, c, a, n);
    } else {
      NotYetReady(q, v);
    }
  }

  lemma {:induction false} PromotedSet(t: Pool, c: Chain, a: Addr, isLocal: bool, limit: nat, u: Pool, n: nat)
    requires u == PromoteAccount(t, c, a, isLocal, limit)
    ensures n in P(u, a) <==> n in P(t, a) || n in ReadySet(Executable(t, c, a), Virtual(t, c, a))
  {
    if a in t.queue {
      PromotedShape(t, c, a, isLocal, limit, n);
    } else {
      assert Executable(t, c, a).Keys == {};
    }
  }

  /** After promotion: the old pending nonces and the run from the state nonce. */
  lemma {:induction false} AfterPromotion(t: Pool, c: Chain, a: Addr, isLocal: bool, limit: nat, u: Pool, n: nat)
    requires AccountOk(t, a) && Virtual(t, c, a) <= StateNonce(c, a) && u == PromoteAccount(t, c, a, isLocal, limit)
    ensures n in P(u, a) <==> n in P(t, a) || StateNonce(c, a) <= n < PromotedEnd(t, c, a)
  {
    PromotedSet(t, c, a, isLocal, limit, u, n);
    ReadyAfterReset(t, c, a, n);
  }

  lemma {:induction false} UnpayableAt(t: Pool, c: Chain, a: Addr, n: nat)
    ensures n in UnpayablePending(t, c, a) <==>
            n in P(t, a) && StateNonce(c, a) <= n && TooCostly(P(t, a)[n], Balance(c, a), c.maxGas)
  {
  }

  lemma {:induction false} PayableAt(t: Pool, c: Chain, a: Addr, n: nat)
    requires n in Executable(t, c, a)
    ensures n in Q(t, a) && Executable(t, c, a)[n] == Q(t, a)[n] && !TooCostly(Q(t, a)[n], Balance(c, a), c.maxGas)
  {
  }

  lemma {:induction false} PromotedValue(t: Pool, c: Chain, a: Addr, isLocal: bool, limit: nat, u: Pool, n: nat)
    requires AccountOk(t, a) && u == PromoteAccount(t, c, a, isLocal, limit)
    ensures n in P(t, a) ==> n in P(u, a) && P(u, a)[n] == P(t, a)[n]
    ensures n in P(u, a) && n !in P(t, a) ==> !TooCostly(P(u, a)[n], Balance(c, a), c.maxGas)
  {
    if a in t.queue {
      var q := Executable(t, c, a);
      var ready := ReadySet(q, Virtual(t, c, a));
      assert P(u, a) == P(t, a) + Restrict(q, ready);
      if n in q {
        PayableAt(t, c, a, n);
      }
    }
  }

  /** Promoted transactions are payable, so demotion cuts where it would have before. */
  lemma {:induction false} SameUnpayable(t: Pool, c: Chain, a: Addr, isLocal: bool, limit: nat, u: Pool)
    requires Partition(t) && u == PromoteAccount(t, c, a, isLocal, limit)
    ensures UnpayablePending(u, c, a) == UnpayablePending(t, c, a)
  {
    assert AccountOk(t, a);
    forall n: nat
      ensures n in UnpayablePending(u, c, a) <==> n in UnpayablePending(t, c, a)
    {
      SameUnpayableAt(t, c, a, isLocal, limit, u, n);
    }
  }

  lemma {:induction false} SameUnpayableAt(t: Pool, c: Chain, a: Addr, isLocal: bool, limit: nat, u: Pool, n: nat)
    requires AccountOk(t, a) && u == PromoteAccount(t, c, a, isLocal, limit)
    ensures n in UnpayablePending(u, c, a) <==> n in UnpayablePending(t, c, a)
  {
    UnpayableAt(u, c, a, n);
    UnpayableAt(t, c, a, n);
    PromotedValue(t, c, a, isLocal, limit, u, n);
  }

  /** A nonce that promotion leaves pending, as a number. */
  ghost predicate InRange(t: Pool, c: Chain, a: Addr, lo: nat, hi: nat, n: nat) {
    lo <= n < hi || StateNonce(c, a) <= n < PromotedEnd(t, c, a)
  }

  ghost predicate BelowUnpayable(t: Pool, c: Chain, a: Addr, n: nat) {
    UnpayablePending(t, c, a) == {} || n < MinOf(UnpayablePending(t, c, a))
  }

  /** What is pending after promotion and demotion. */
  lemma {:induction false} KeptNonce(t: Pool, c: Chain, a: Addr, isLocal: bool, limit: nat, lo: nat, hi: nat,
                                     u: Pool, r: Pool, n: nat)
    requires Partition(t) && Virtual(t, c, a) <= StateNonce(c, a) && (forall n: nat :: n in P(t, a) <==> lo <= n < hi)
    requires u == PromoteAccount(t, c, a, isLocal, limit) && r == DemoteAccount(u, c, a)
    ensures n in P(r, a) ==> InRange(t, c, a, lo, hi, n) && StateNonce(c, a) <= n && BelowUnpayable(t, c, a, n)
    ensures P(r, a) != map[] && InRange(t, c, a, lo, hi, n) && StateNonce(c, a) <= n && BelowUnpayable(t, c, a, n) ==>
              n in P(r, a)
  {
    assert AccountOk(t, a);
    SameUnpayable(t, c, a, isLocal, limit, u);
    AfterPromotion(t, c, a, isLocal, limit, u, n);
    DemotedNonce(u, c, a, r, n);
  }

  /** No gap, no matter how far the nonce went back. */
  lemma {:induction false} NoGapHolds(t: Pool, c: Chain, a: Addr, isLocal: bool, limit: nat, lo: nat, hi: nat)
    requires Partition(t) && Virtual(t, c, a) <= StateNonce(c, a)
    requires lo <= hi && forall n: nat :: n in P(t, a) <==> lo <= n < hi
    requires !LeavesGap(t, c, a, lo, hi)
    ensures Contiguous(ThroughReset(t, c, a, isLocal, limit), c, a)
  {
    var u := PromoteAccount(t, c, a, isLocal, limit);
    var r := DemoteAccount(u, c, a);
    forall n | n in P(r, a)
      ensures StateNonce(c, a) <= n
    {
      KeptNonce(t, c, a, isLocal, limit, lo, hi, u, r, n);
    }
    forall m: nat, n: nat | StateNonce(c, a) <= m <= n && n in P(r, a)
      ensures m in P(r, a)
    {
      NoGapBelow(t, c, a, isLocal, limit, lo, hi, u, r, m, n);
    }
    SetAllContiguous(r, c, a);
  }

  lemma {:induction false} NoGapBelow(t: Pool, c: Chain, a: Addr, isLocal: bool, limit: nat, lo: nat, hi: nat,
                                      u: Pool, r: Pool, m: nat, n: nat)
    requires Partition(t) && Virtual(t, c, a) <= StateNonce(c, a)
    requires lo <= hi && forall n: nat :: n in P(t, a) <==> lo <= n < hi
    requires u == PromoteAccount(t, c, a, isLocal, limit) && r == DemoteAccount(u, c, a)
    requires !LeavesGap(t, c, a, lo, hi) && StateNonce(c, a) <= m <= n && n in P(r, a)
    ensures m in P(r, a)
  {
    var start := StateNonce(c, a);
    assert P(r, a) != map[];
    StateKept(u, c, a, r);
    KeptNonce(t, c, a, isLocal, limit, lo, hi, u, r, start);
    KeptNonce(t, c, a, isLocal, limit, lo, hi, u, r, n);
    RangeBelow(t, c, a, lo, hi, m, n);
    KeptNonce(t, c, a, isLocal, limit, lo, hi, u, r, m);
  }

  lemma {:induction false} RangeBelow(t: Pool, c: Chain, a: Addr, lo: nat, hi: nat, m: nat, n: nat)
    requires !LeavesGap(t, c, a, lo, hi) && StateNonce(c, a) <= m <= n
    requires InRange(t, c, a, lo, hi, StateNonce(c, a)) && InRange(t, c, a, lo, hi, n) && BelowUnpayable(t, c, a, n)
    ensures InRange(t, c, a, lo, hi, m) && BelowUnpayable(t, c, a, m)
  {
  }

  /** Demotion never leaves pending transactions without the state nonce. */
  lemma {:induction false} StateKept(u: Pool, c: Chain, a: Addr, r: Pool)
    requires r == DemoteAccount(u, c, a) && P(r, a) != map[]
    ensures StateNonce(c, a) in P(r, a)
  {
  }

  /** Demotion keeps a gap between the state nonce and payable transactions. */
  lemma {:induction false} GapStays(u: Pool, c: Chain, a: Addr, end: nat, lo: nat)
    requires StateNonce(c, a) in P(u, a) && end !in P(u, a) && lo in P(u, a) && StateNonce(c, a) < end < lo
    requires UnpayablePending(u, c, a) == {} || lo < MinOf(UnpayablePending(u, c, a))
    ensures !Contiguous(SetAllNonces(DemoteAccount(u, c, a)), c, a)
  {
    var r := DemoteAccount(u, c, a);
    StateSurvives(u, c, a, r);
    DemotedNonce(u, c, a, r, end);
    DemotedNonce(u, c, a, r, lo);
    assert P(SetAllNonces(r), a) == P(r, a);
  }

  lemma {:induction false} GapFails(t: Pool, c: Chain, a: Addr, isLocal: bool, limit: nat, lo: nat, hi: nat)
    requires Partition(t) && Virtual(t, c, a) <= StateNonce(c, a)
    requires lo <= hi && forall n: nat :: n in P(t, a) <==> lo <= n < hi
    requires LeavesGap(t, c, a, lo, hi)
    ensures !Contiguous(ThroughReset(t, c, a, isLocal, limit), c, a)
  {
    var u, start := PromoteAccount(t, c, a, isLocal, limit), StateNonce(c, a);
    var end := PromotedEnd(t, c, a);
    assert AccountOk(t, a);
    SameUnpayable(t, c, a, isLocal, limit, u);
    AfterPromotion(t, c, a, isLocal, limit, u, start);
    AfterPromotion(t, c, a, isLocal, limit, u, end);
    AfterPromotion(t, c, a, isLocal, limit, u, lo);
    GapStays(u, c, a, end, lo);
  }

  /** If the state nonce is pending and below every unpayable one, it stays. */
  lemma {:induction false} StateSurvives(u: Pool, c: Chain, a: Addr, r: Pool)
    requires r == DemoteAccount(u, c, a) && StateNonce(c, a) in P(u, a)
    requires UnpayablePending(u, c, a) == {} || StateNonce(c, a) < MinOf(UnpayablePending(u, c, a))
    ensures StateNonce(c, a) in P(r, a)
  {
    StrictKeeps(PendingFrom(u, c, a), UnpayablePending(u, c, a), StateNonce(c, a));
  }

  /** From right after a reset on, an account's pending nonces end up contiguous if and
      only if the reset does not leave a gap. */
  lemma {:induction false} ContiguousIffNoGap(t: Pool, c: Chain, a: Addr, isLocal: bool, limit: nat, lo: nat, hi: nat)
    requires Partition(t) && Virtual(t, c, a) <= StateNonce(c, a)
    requires lo <= hi && forall n: nat :: n in P(t, a) <==> lo <= n < hi
    ensures Contiguous(ThroughReset(t, c, a, isLocal, limit), c, a) <==> !LeavesGap(t, c, a, lo, hi)
  {
    if LeavesGap(t, c, a, lo, hi) {
      GapFails(t, c, a, isLocal, limit, lo, hi);
    } else {
      NoGapHolds(t, c, a, isLocal, limit, lo, hi);
    }
  }

  // ----------------------------------------------------------------- the whole reset

  ghost predicate Spans(p: Txs, lo: nat, hi: nat) {
    lo <= hi && forall n: nat :: n in p <==> lo <= n < hi
  }

  /** Removals lower the virtual nonce and cut the pending range from above. */
  lemma {:induction false} RemoveSpans(s: Pool, c: Chain, h: Hash, a: Addr, lo: nat, hi: nat) returns (hi': nat)
    requires Partition(s) && Spans(P(s, a), lo, hi)
    ensures Spans(P(RemoveTx(s, c, h), a), lo, hi') && Virtual(RemoveTx(s, c, h), c, a) <= Virtual(s, c, a)
  {
    var r := RemoveTx(s, c, h);
    hi' := hi;
    if h in s.all {
      var t := s.all[h];
      if t.from != a {
        assert P(r, a) == P(s, a) && Virtual(r, c, a) == Virtual(s, c, a);
      } else if t.nonce in P(s, a) {
        var p := P(s, a);
        assert P(r, a) == Restrict(p, set n | n in p && n < t.nonce);
        hi' := t.nonce;
      } else {
        assert P(r, a) == P(s, a);
      }
    }
  }

  lemma {:induction false} RemoveAllSpans(s: Pool, c: Chain, hs: seq<Hash>, a: Addr, lo: nat, hi: nat)
    returns (hi': nat)
    requires Partition(s) && Spans(P(s, a), lo, hi)
    ensures Spans(P(RemoveAll(s, c, hs), a), lo, hi') && Virtual(RemoveAll(s, c, hs), c, a) <= Virtual(s, c, a)
  {
    hi' := hi;
    if hs != [] {
      var init := hs[..|hs| - 1];
      hi' := RemoveAllSpans(s, c, init, a, lo, hi);
      RemoveAllKeeps(s, c, init);
      hi' := RemoveSpans(RemoveAll(s, c, init), c, hs[|hs| - 1], a, lo, hi');
    }
  }

  lemma {:induction false} AddSpans(s: Pool, c: Chain, i: Runs.Insertion, bump: nat, a: Addr, lo: nat, hi: nat)
    returns (hi': nat)
    requires Partition(s) && Spans(P(s, a), lo, hi)
    ensures var r := Add(s, c, i.tx, i.sane, i.drops, bump).0;
            Spans(P(r, a), lo, hi') && Virtual(r, c, a) <= Virtual(s, c, a)
  {
    hi' := hi;
    if i.tx.hash !in s.all && Admissible(c, i.tx, i.sane) {
      hi' := RemoveAllSpans(s, c, i.drops, a, lo, hi);
      OfferNonces(RemoveAll(s, c, i.drops), i.tx, bump, a);
    }
  }

  lemma {:induction false} AddAllSpans(s: Pool, c: Chain, l: Runs.Limits, txs: seq<Runs.Insertion>, a: Addr, lo: nat,
                                       hi: nat)
    returns (hi': nat)
    requires Partition(s) && Spans(P(s, a), lo, hi)
    ensures Spans(P(Runs.AddAll(s, c, l, txs), a), lo, hi')
    ensures Virtual(Runs.AddAll(s, c, l, txs), c, a) <= Virtual(s, c, a)
  {
    hi' := hi;
    if txs != [] {
      var init := txs[..|txs| - 1];
      hi' := AddAllSpans(s, c, l, init, a, lo, hi);
      Runs.AddAllPartition(s, c, l, init);
      hi' := AddSpans(Runs.AddAll(s, c, l, init), c, txs[|txs| - 1], l.bump, a, lo, hi');
    }
  }

  /** A whole reset of a contiguous account, wherever its nonce goes and whatever is
      offered again or evicted meanwhile: exactly when it stays contiguous. */
  lemma {:induction false} ResetIffNoGap(s: Pool, c: Chain, l: Runs.Limits, r: Runs.Reset, a: Addr, isLocal: bool)
    returns (lo: nat, hi: nat)
    requires Partition(s) && Contiguous(s, c, a)
    ensures var t := Runs.AfterReset(s, l, r);
            && Spans(P(t, a), lo, hi)
            && (Contiguous(ThroughReset(t, r.chain, a, isLocal, l.accountQueue), r.chain, a) <==>
                !LeavesGap(t, r.chain, a, lo, hi))
  {
    var forgot, t := s.(nonces := map[]), Runs.AfterReset(s, l, r);
    lo := StateNonce(c, a);
    NoncesDoNotMatter(s, forgot);
    assert P(forgot, a) == P(s, a);
    hi := AddAllSpans(forgot, r.chain, l, r.reinject, a, lo, Virtual(s, c, a));
    Runs.AddAllPartition(forgot, r.chain, l, r.reinject);
    ContiguousIffNoGap(t, r.chain, a, isLocal, l.accountQueue, lo, hi);
  }

  // ---------------------------------------------------------------------- an example

  function Plain(n: nat): Tx {
    Tx(n + 1, 7, n, 21000, 1, 1, 0, 100)
  }

  /** Pending 3, 4, 5; the chain goes back to nonce 0 and gives back 0 and 1. */
  function Example(): Pool {
    Pool(map[7 := map[3 := Plain(3), 4 := Plain(4), 5 := Plain(5)]],
         map[7 := map[0 := Plain(0), 1 := Plain(1)]],
         map[1 := Plain(0), 2 := Plain(1), 4 := Plain(3), 5 := Plain(4), 6 := Plain(5)],
         map[])
  }

  function Rewound(): Chain {
    Chain(map[], map[7 := 1000000], 30000000)
  }

  lemma ExamplePartition()
    ensures Partition(Example())
  {
    var t := Example();
    forall a
      ensures AccountOk(t, a)
    {
    }
    forall h | h in t.all
      ensures Listed(t, h)
    {
    }
  }

  lemma ExampleLeavesGap()
    ensures LeavesGap(Example(), Rewound(), 7, 3, 6)
  {
    var t, c := Example(), Rewound();
    var q := Executable(t, c, 7);
    assert 0 in q && 1 in q && 2 !in q;
    assert RunEnd(q.Keys, 0) == 2;
    assert UnpayablePending(t, c, 7) == {};
  }

  /** Contiguous at state nonce 3, with 3, 4 and 5 pending. */
  function Settled(): Pool {
    Pool(map[7 := map[3 := Plain(3), 4 := Plain(4), 5 := Plain(5)]], map[],
         map[4 := Plain(3), 5 := Plain(4), 6 := Plain(5)], map[7 := 6])
  }

  function Settlement(): Chain {
    Chain(map[7 := 3], map[7 := 1000000], 30000000)
  }

  /** The chain goes back to nonce 0, and 0 and 1 are offered again. */
  function Reversal(): Runs.Reset {
    Runs.Reset(Rewound(), [Runs.Insertion(Plain(0), true, []), Runs.Insertion(Plain(1), true, [])])
  }

  lemma SettledContiguous()
    ensures Partition(Settled()) && Contiguous(Settled(), Settlement(), 7)
  {
    var t := Settled();
    forall a
      ensures AccountOk(t, a)
    {
    }
    forall h | h in t.all
      ensures Listed(t, h)
    {
    }
  }

  /** Offering a payable transaction of a nonce the account does not hold queues it. */
  lemma {:induction false} Queues(s: Pool, tx: Tx, l: Runs.Limits)
    requires tx.hash !in s.all && Admissible(Rewound(), tx, true)
    requires tx.nonce !in P(s, tx.from) && tx.nonce !in Q(s, tx.from) && P(s, tx.from) != map[]
    ensures Add(s, Rewound(), tx, true, [], l.bump).0 ==
            s.(queue := s.queue[tx.from := Q(s, tx.from)[tx.nonce := tx]], all := s.all[tx.hash := tx])
  {
    var a := tx.from;
    assert SetList(s.pending, a, P(s, a)) == s.pending;
    assert tx.nonce in Q(s, a)[tx.nonce := tx];
    assert RemoveAll(s, Rewound(), []) == s;
    assert (s.all - {}) + map[tx.hash := tx] == s.all[tx.hash := tx];
  }

  lemma FirstBack(s: Pool, l: Runs.Limits)
    requires s == Settled().(nonces := map[])
    ensures Add(s, Rewound(), Plain(0), true, [], l.bump).0 ==
            s.(queue := map[7 := map[0 := Plain(0)]], all := s.all[1 := Plain(0)])
  {
    assert 3 in P(s, 7);
    Queues(s, Plain(0), l);
  }

  lemma BothQueued(s: Pool)
    requires s == Pool(Settled().pending, map[7 := map[0 := Plain(0)]], Settled().all[1 := Plain(0)], map[])
    ensures s.(queue := s.queue[7 := Q(s, 7)[1 := Plain(1)]], all := s.all[2 := Plain(1)]) == Example()
    ensures P(s, 7) != map[] && 1 !in P(s, 7) && 1 !in Q(s, 7) && 2 !in s.all
  {
    assert 3 in P(s, 7);
    assert Q(s, 7)[1 := Plain(1)] == map[0 := Plain(0), 1 := Plain(1)];
  }

  lemma SecondBack(s: Pool, l: Runs.Limits)
    requires s == Pool(Settled().pending, map[7 := map[0 := Plain(0)]], Settled().all[1 := Plain(0)], map[])
    ensures Add(s, Rewound(), Plain(1), true, [], l.bump).0 == Example()
  {
    BothQueued(s);
    Queues(s, Plain(1), l);
  }

  lemma {:induction false} AddsTwo(s: Pool, c: Chain, l: Runs.Limits, i: Runs.Insertion, j: Runs.Insertion)
    ensures Runs.AddAll(s, c, l, [i, j]) ==
            Add(Add(s, c, i.tx, i.sane, i.drops, l.bump).0, c, j.tx, j.sane, j.drops, l.bump).0
  {
    assert [i, j][..1] == [i] && [i][..0] == [];
    assert Runs.AddAll(s, c, l, [i]) == Add(s, c, i.tx, i.sane, i.drops, l.bump).0;
  }

  /** The example is what a reset makes of a contiguous pool. */
  lemma ExampleReached(l: Runs.Limits)
    ensures Partition(Settled()) && Contiguous(Settled(), Settlement(), 7)
    ensures Runs.AfterReset(Settled(), l, Reversal()) == Example()
  {
    SettledContiguous();
    var s := Settled().(nonces := map[]);
    FirstBack(s, l);
    SecondBack(Add(s, Rewound(), Plain(0), true, [], l.bump).0, l);
    AddsTwo(s, Rewound(), l, Runs.Insertion(Plain(0), true, []), Runs.Insertion(Plain(1), true, []));
  }

  /** Nonce 2 is missing between the pending nonces afterwards. */
  lemma GapExample()
    ensures Partition(Example()) && !Contiguous(ThroughReset(Example(), Rewound(), 7, false, 64), Rewound(), 7)
  {
    ExamplePartition();
    ExampleLeavesGap();
    assert P(Example(), 7).Keys == {3, 4, 5};
    GapFails(Example(), Rewound(), 7, false, 64, 3, 6);
  }
}
