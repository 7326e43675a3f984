/** Promotion, demotion and the pool's whole reorganisation run. */
module PoolReorg {
  import opened PoolLists
  import opened PoolState
  import opened PoolSteps

  // ------------------------------------------------------------------------ promotion

  /** What is left of the queue once old and unpayable transactions are dropped. */
  ghost function Executable(s: Pool, c: Chain, a: Addr): (q: Txs)
  {
    var q1 := Q(s, a) - TooOld(Q(s, a), StateNonce(c, a));
    q1 - Unpayable(q1, Balance(c, a), c.maxGas)
  }

  /** Moves the run that starts at the virtual nonce from the queue to pending and caps
      the rest of the queue of a remote account. */
  ghost function PromoteAccount(s: Pool, c: Chain, a: Addr, isLocal: bool, limit: nat): (r: Pool)
  {
    if a !in s.queue then s
    else
      var q := Executable(s, c, a);
      var ready := ReadySet(q, Virtual(s, c, a));
      var rest := q - ready;
      var kept := if isLocal then rest else Restrict(rest, Lowest(rest.Keys, limit));
      var r := Shuffle(s, a, P(s, a) + Restrict(q, ready), kept);
      r.(nonces := s.nonces[a := if ready == {} then Virtual(s, c, a) else RunEnd(q.Keys, MinOf(q.Keys))])
  }

  lemma {:induction false} PromotePartition(s: Pool, c: Chain, a: Addr, isLocal: bool, limit: nat)
    requires Partition(s)
    ensures Partition(PromoteAccount(s, c, a, isLocal, limit))
  {
    if a in s.queue {
      assert AccountOk(s, a);
      var q := Executable(s, c, a);
      var ready := ReadySet(q, Virtual(s, c, a));
      var rest := q - ready;
      var kept := if isLocal then rest else Restrict(rest, Lowest(rest.Keys, limit));
      var p := P(s, a) + Restrict(q, ready);
      assert forall n | n in q :: n in Q(s, a) && q[n] == Q(s, a)[n];
      ShufflePartition(s, a, p, kept);
      NoncesDoNotMatter(Shuffle(s, a, p, kept), PromoteAccount(s, c, a, isLocal, limit));
    }
  }

  /** Everything pending from the state nonce on is gap-free. */
  ghost predicate Solid(s: Pool, c: Chain, a: Addr) {
    forall m: nat, n: nat | StateNonce(c, a) <= m <= n && n in P(s, a) :: m in P(s, a)
  }

  /** ... and reaches up to the virtual nonce. */
  ghost predicate Grounded(s: Pool, c: Chain, a: Addr) {
    Solid(s, c, a) && forall n: nat | StateNonce(c, a) <= n < Virtual(s, c, a) :: n in P(s, a)
  }

  lemma ContiguousIsGrounded(s: Pool, c: Chain, a: Addr)
    requires Contiguous(s, c, a)
    ensures Grounded(s, c, a)
  {
  }

  /** The promoted run starts exactly at the virtual nonce. */
  lemma {:induction false} ReadyStart(s: Pool, c: Chain, a: Addr)
    requires AccountOk(s, a) && (forall n: nat | StateNonce(c, a) <= n < Virtual(s, c, a) :: n in P(s, a))
    requires ReadySet(Executable(s, c, a), Virtual(s, c, a)) != {}
    ensures Executable(s, c, a) != map[] && MinOf(Executable(s, c, a).Keys) == Virtual(s, c, a)
    ensures StateNonce(c, a) <= Virtual(s, c, a)
  {
    var q := Executable(s, c, a);
    var start := MinOf(q.Keys);
    assert start in Q(s, a) && start !in P(s, a);
    assert start !in TooOld(Q(s, a), StateNonce(c, a));
  }

  lemma {:induction false} PromotedShape(s: Pool, c: Chain, a: Addr, isLocal: bool, limit: nat, n: nat)
    requires a in s.queue
    ensures var r, q := PromoteAccount(s, c, a, isLocal, limit), Executable(s, c, a);
            var ready := ReadySet(q, Virtual(s, c, a));
            && (n in P(r, a) <==> n in P(s, a) || n in ready)
            && Virtual(r, c, a) == (if ready == {} then Virtual(s, c, a) else RunEnd(q.Keys, MinOf(q.Keys)))
  {
    var q := Executable(s, c, a);
    assert P(PromoteAccount(s, c, a, isLocal, limit), a) == P(s, a) + Restrict(q, ReadySet(q, Virtual(s, c, a)));
  }

  /** What is ready is the run from the virtual nonce. */
  lemma {:induction false} ReadyRun(s: Pool, c: Chain, a: Addr, n: nat)
    requires AccountOk(s, a) && (forall n: nat | StateNonce(c, a) <= n < Virtual(s, c, a) :: n in P(s, a))
    requires ReadySet(Executable(s, c, a), Virtual(s, c, a)) != {}
    ensures var q, v := Executable(s, c, a), Virtual(s, c, a);
            && q.Keys != {} && v < RunEnd(q.Keys, MinOf(q.Keys)) && StateNonce(c, a) <= v
            && (n in ReadySet(q, v) <==> v <= n < RunEnd(q.Keys, MinOf(q.Keys)))
  {
    ReadyStart(s, c, a);
    ReadyIsRun(Executable(s, c, a), Virtual(s, c, a), n);
  }

  lemma {:induction false} NothingPromoted(s: Pool, c: Chain, a: Addr, isLocal: bool, limit: nat, r: Pool, n: nat)
    requires r == PromoteAccount(s, c, a, isLocal, limit)
    requires a !in s.queue || ReadySet(Executable(s, c, a), Virtual(s, c, a)) == {}
    ensures Virtual(r, c, a) == Virtual(s, c, a) && (n in P(r, a) <==> n in P(s, a))
  {
    if a in s.queue {
      PromotedShape(s, c, a, isLocal, limit, n);
    }
  }

  lemma {:induction false} RunPromoted(s: Pool, c: Chain, a: Addr, isLocal: bool, limit: nat, r: Pool, n: nat)
    requires AccountOk(s, a) && (forall n: nat | StateNonce(c, a) <= n < Virtual(s, c, a) :: n in P(s, a))
    requires r == PromoteAccount(s, c, a, isLocal, limit)
    requires a in s.queue && ReadySet(Executable(s, c, a), Virtual(s, c, a)) != {}
    ensures StateNonce(c, a) <= Virtual(s, c, a) < Virtual(r, c, a)
    ensures n in P(r, a) <==> n in P(s, a) || Virtual(s, c, a) <= n < Virtual(r, c, a)
  {
    ReadyRun(s, c, a, n);
    PromotedShape(s, c, a, isLocal, limit, n);
  }

  /** Promotion extends the pending nonces by exactly the step of the virtual nonce. */
  lemma {:induction false} PromotedNonces(s: Pool, c: Chain, a: Addr, isLocal: bool, limit: nat, r: Pool, n: nat)
    requires AccountOk(s, a) && (forall n: nat | StateNonce(c, a) <= n < Virtual(s, c, a) :: n in P(s, a))
    requires r == PromoteAccount(s, c, a, isLocal, limit)
    ensures Virtual(s, c, a) <= Virtual(r, c, a)
    ensures Virtual(s, c, a) < Virtual(r, c, a) ==> StateNonce(c, a) <= Virtual(s, c, a)
    ensures n in P(r, a) <==> n in P(s, a) || Virtual(s, c, a) <= n < Virtual(r, c, a)
  {
    if a !in s.queue || ReadySet(Executable(s, c, a), Virtual(s, c, a)) == {} {
      NothingPromoted(s, c, a, isLocal, limit, r, n);
    } else {
      RunPromoted(s, c, a, isLocal, limit, r, n);
    }
  }

  lemma {:induction false} PromoteContiguous(s: Pool, c: Chain, a: Addr, isLocal: bool, limit: nat, r: Pool)
    requires Partition(s) && Contiguous(s, c, a) && r == PromoteAccount(s, c, a, isLocal, limit)
    ensures Contiguous(r, c, a)
  {
    assert AccountOk(s, a);
    PromotedNonces(s, c, a, isLocal, limit, r, 0);
    forall n: nat
      ensures n in P(r, a) <==> n in P(s, a) || Virtual(s, c, a) <= n < Virtual(r, c, a)
    {
      PromotedNonces(s, c, a, isLocal, limit, r, n);
    }
  }

  lemma {:induction false} PromoteGrounded(s: Pool, c: Chain, a: Addr, isLocal: bool, limit: nat, r: Pool)
    requires Partition(s) && Grounded(s, c, a) && r == PromoteAccount(s, c, a, isLocal, limit)
    ensures Grounded(r, c, a)
  {
    assert AccountOk(s, a);
    PromotedNonces(s, c, a, isLocal, limit, r, 0);
    forall n: nat
      ensures n in P(r, a) <==> n in P(s, a) || Virtual(s, c, a) <= n < Virtual(r, c, a)
    {
      PromotedNonces(s, c, a, isLocal, limit, r, n);
    }
    GroundedGrows(s, r, c, a);
  }

  lemma {:induction false} GroundedGrows(s: Pool, r: Pool, c: Chain, a: Addr)
    requires Grounded(s, c, a) && Virtual(s, c, a) <= Virtual(r, c, a)
    requires forall n: nat :: n in P(r, a) <==> n in P(s, a) || Virtual(s, c, a) <= n < Virtual(r, c, a)
    ensures Grounded(r, c, a)
  {
  }

  lemma PromoteOther(s: Pool, c: Chain, a: Addr, isLocal: bool, limit: nat, b: Addr)
    requires b != a
    ensures P(PromoteAccount(s, c, a, isLocal, limit), b) == P(s, b)
    ensures Virtual(PromoteAccount(s, c, a, isLocal, limit), c, b) == Virtual(s, c, b)
  {
  }

  // ------------------------------------------------------------------------- demotion

  /** Drops old and unpayable pending transactions and sends what becomes unexecutable
      back to the queue. */
  ghost function DemoteAccount(s: Pool, c: Chain, a: Addr): (r: Pool)
  {
    var p := P(s, a) - TooOld(P(s, a), StateNonce(c, a));
    var bad := Unpayable(p, Balance(c, a), c.maxGas);
    var stranded := Stranded(p, bad);
    var kept := p - bad - stranded;
    if kept != map[] && StateNonce(c, a) !in kept then Shuffle(s, a, map[], Q(s, a) + Restrict(p, stranded) + kept)
    else Shuffle(s, a, kept, Q(s, a) + Restrict(p, stranded))
  }

  lemma {:induction false} DemotePartition(s: Pool, c: Chain, a: Addr)
    requires Partition(s)
    ensures Partition(DemoteAccount(s, c, a))
  {
    assert AccountOk(s, a);
    var p := P(s, a) - TooOld(P(s, a), StateNonce(c, a));
    var bad := Unpayable(p, Balance(c, a), c.maxGas);
    var stranded := Stranded(p, bad);
    var kept := p - bad - stranded;
    ShufflePartition(s, a, map[], Q(s, a) + Restrict(p, stranded) + kept);
    ShufflePartition(s, a, kept, Q(s, a) + Restrict(p, stranded));
  }

  /** The pending nonces form one run from the state nonce. */
  ghost predicate FromState(s: Pool, c: Chain, a: Addr) {
    Solid(s, c, a) && forall n | n in P(s, a) :: StateNonce(c, a) <= n
  }

  lemma {:induction false} DemotedNonce(s: Pool, c: Chain, a: Addr, r: Pool, n: nat)
    requires r == DemoteAccount(s, c, a)
    ensures var p := P(s, a) - TooOld(P(s, a), StateNonce(c, a));
            var bad := Unpayable(p, Balance(c, a), c.maxGas);
            && (n in P(r, a) ==> n in p && (bad == {} || n < MinOf(bad)))
            && (P(r, a) != map[] && n in p && (bad == {} || n < MinOf(bad)) ==> n in P(r, a))
  {
    var p := P(s, a) - TooOld(P(s, a), StateNonce(c, a));
    var bad := Unpayable(p, Balance(c, a), c.maxGas);
    assert P(r, a) == p - bad - Stranded(p, bad) || P(r, a) == map[];
    StrictKeeps(p, bad, n);
  }

  lemma {:induction false} DemoteSolid(s: Pool, c: Chain, a: Addr)
    requires Solid(s, c, a)
    ensures FromState(DemoteAccount(s, c, a), c, a)
  {
    var r := DemoteAccount(s, c, a);
    forall n | n in P(r, a)
      ensures StateNonce(c, a) <= n
    {
      DemotedNonce(s, c, a, r, n);
    }
    forall m: nat, n: nat | StateNonce(c, a) <= m <= n && n in P(r, a)
      ensures m in P(r, a)
    {
      DemotedNonce(s, c, a, r, n);
      DemotedNonce(s, c, a, r, m);
    }
  }

  lemma DemoteOther(s: Pool, c: Chain, a: Addr, b: Addr)
    requires b != a
    ensures P(DemoteAccount(s, c, a), b) == P(s, b) && DemoteAccount(s, c, a).nonces == s.nonces
  {
  }

  /** The virtual nonces are recomputed from what is pending. */
  ghost function SetAllNonces(s: Pool): (r: Pool)
  {
    s.(nonces := map a | a in s.pending && s.pending[a].Keys != {} :: MaxOf(s.pending[a].Keys) + 1)
  }

  lemma {:induction false} SetAllContiguous(s: Pool, c: Chain, a: Addr)
    requires FromState(s, c, a)
    ensures Contiguous(SetAllNonces(s), c, a)
  {
    var r := SetAllNonces(s);
    assert P(r, a) == P(s, a);
    if a in r.nonces {
      assert MaxOf(P(s, a).Keys) in P(s, a);
    } else {
      assert P(s, a).Keys == {};
    }
  }

  // ------------------------------------------------------------- what becomes of the lists

  /** Queued, not of a spent nonce and payable. */
  ghost predicate Fit(s: Pool, c: Chain, a: Addr, n: nat) {
    n in Q(s, a) && StateNonce(c, a) <= n && !TooCostly(Q(s, a)[n], Balance(c, a), c.maxGas)
  }

  /** All nonces from the account's lowest fit one up to n are fit, and that one is not above
      the virtual nonce. */
  ghost predicate Promotable(s: Pool, c: Chain, a: Addr, n: nat) {
    Fit(s, c, a, n) && exists m: nat :: PromotableFrom(s, c, a, m, n)
  }

  ghost predicate PromotableFrom(s: Pool, c: Chain, a: Addr, m: nat, n: nat) {
    && m <= n && m <= Virtual(s, c, a)
    && (forall k: nat {:trigger Fit(s, c, a, k)} | k < m :: !Fit(s, c, a, k))
    && (forall k: nat {:trigger Fit(s, c, a, k)} | m <= k <= n :: Fit(s, c, a, k))
  }

  lemma {:induction false} ExecutableFit(s: Pool, c: Chain, a: Addr, n: nat)
    ensures n in Executable(s, c, a) <==> Fit(s, c, a, n)
    ensures n in Executable(s, c, a) ==> Executable(s, c, a)[n] == Q(s, a)[n]
  {
  }

  lemma {:induction false} ReadyPromotable(s: Pool, c: Chain, a: Addr, n: nat)
    ensures n in ReadySet(Executable(s, c, a), Virtual(s, c, a)) <==> Promotable(s, c, a, n)
  {
    var q := Executable(s, c, a);
    forall k: nat
      ensures k in q <==> Fit(s, c, a, k)
    {
      ExecutableFit(s, c, a, k);
    }
    if n in ReadySet(q, Virtual(s, c, a)) {
      ReadyIsRun(q, Virtual(s, c, a), n);
      assert PromotableFrom(s, c, a, MinOf(q.Keys), n);
    }
    if Promotable(s, c, a, n) {
      var m: nat :| PromotableFrom(s, c, a, m, n);
      assert Fit(s, c, a, m);
      RunReaches(q.Keys, m, n);
    }
  }

  lemma {:induction false} RunReaches(keys: set<nat>, m: nat, n: nat)
    requires m <= n && forall k: nat | m <= k <= n :: k in keys
    ensures n < RunEnd(keys, m)
    decreases n - m
  {
    if m < n {
      RunReaches(keys, m + 1, n);
    }
  }

  lemma {:induction false} PromotedLists(s: Pool, c: Chain, a: Addr, isLocal: bool, limit: nat, r: Pool, q: Txs,
                                         ready: set<nat>)
    requires r == PromoteAccount(s, c, a, isLocal, limit)
    requires q == Executable(s, c, a) && ready == ReadySet(q, Virtual(s, c, a))
    ensures P(r, a) == P(s, a) + Restrict(q, ready)
    ensures Q(r, a) == if isLocal then q - ready else Restrict(q - ready, Lowest((q - ready).Keys, limit))
  {
    if a !in s.queue {
      assert q.Keys == {} && ready == {};
      assert q == map[] && P(s, a) + Restrict(q, ready) == P(s, a);
    }
  }

  /** Nonce n after a promotion: exactly the run that starts at the account's lowest fit
      nonce becomes pending, if that is not above the virtual nonce. */
  ghost predicate PromotedAt(s: Pool, c: Chain, a: Addr, r: Pool, n: nat) {
    && (n in P(r, a) <==> n in P(s, a) || Promotable(s, c, a, n))
    && (n in P(r, a) ==> P(r, a)[n] == if n in P(s, a) then P(s, a)[n] else Q(s, a)[n])
    && (n in Q(r, a) ==> n in Q(s, a) && Q(r, a)[n] == Q(s, a)[n])
  }

  lemma {:induction false} QueuedFrom(q: Txs, ready: set<nat>, isLocal: bool, limit: nat, n: nat, left: Txs)
    requires left == if isLocal then q - ready else Restrict(q - ready, Lowest((q - ready).Keys, limit))
    ensures n in left ==> n in q && left[n] == q[n]
  {
  }

  lemma {:induction false} ListsPromoted(s: Pool, c: Chain, a: Addr, r: Pool, q: Txs, ready: set<nat>, n: nat)
    requires AccountOk(s, a) && (n in ready <==> Promotable(s, c, a, n)) && ready <= q.Keys
    requires n in q ==> n in Q(s, a) && q[n] == Q(s, a)[n]
    requires P(r, a) == P(s, a) + Restrict(q, ready) && (n in Q(r, a) ==> n in q && Q(r, a)[n] == q[n])
    ensures PromotedAt(s, c, a, r, n)
  {
  }

  lemma {:induction false} PromoteMeans(s: Pool, c: Chain, a: Addr, isLocal: bool, limit: nat, r: Pool, n: nat)
    requires AccountOk(s, a) && r == PromoteAccount(s, c, a, isLocal, limit)
    ensures PromotedAt(s, c, a, r, n)
  {
    var q := Executable(s, c, a);
    var ready := ReadySet(q, Virtual(s, c, a));
    PromotedLists(s, c, a, isLocal, limit, r, q, ready);
    ExecutableFit(s, c, a, n);
    ReadyPromotable(s, c, a, n);
    QueuedFrom(q, ready, isLocal, limit, n, Q(r, a));
    ListsPromoted(s, c, a, r, q, ready, n);
  }

  /** Of the other fit ones a local account keeps all queued, and a remote one the lowest,
      up to the limit. */
  lemma {:induction false} PromoteCaps(s: Pool, c: Chain, a: Addr, isLocal: bool, limit: nat, r: Pool, rest: set<nat>)
    requires AccountOk(s, a) && r == PromoteAccount(s, c, a, isLocal, limit)
    requires forall n: nat :: n in rest <==> Fit(s, c, a, n) && !Promotable(s, c, a, n)
    ensures if isLocal then Q(r, a).Keys == rest else IsLowest(Q(r, a).Keys, rest, limit)
  {
    var q := Executable(s, c, a);
    var ready := ReadySet(q, Virtual(s, c, a));
    PromotedLists(s, c, a, isLocal, limit, r, q, ready);
    RestIs(s, c, a, q, ready, rest);
    LowestKeys(q - ready, limit);
  }

  lemma {:induction false} LowestKeys(q: Txs, limit: nat)
    ensures Restrict(q, Lowest(q.Keys, limit)).Keys == Lowest(q.Keys, limit)
    ensures IsLowest(Restrict(q, Lowest(q.Keys, limit)).Keys, q.Keys, limit)
  {
  }

  lemma {:induction false} RestIs(s: Pool, c: Chain, a: Addr, q: Txs, ready: set<nat>, rest: set<nat>)
    requires q == Executable(s, c, a) && ready == ReadySet(q, Virtual(s, c, a))
    requires forall n: nat :: n in rest <==> Fit(s, c, a, n) && !Promotable(s, c, a, n)
    ensures (q - ready).Keys == rest
  {
    forall n: nat
      ensures n in (q - ready).Keys <==> n in rest
    {
      ExecutableFit(s, c, a, n);
      ReadyPromotable(s, c, a, n);
    }
  }

  /** Pending from the state nonce up to n, and payable all the way. */
  ghost predicate StaysPending(s: Pool, c: Chain, a: Addr, n: nat) {
    && n in P(s, a) && StateNonce(c, a) <= n && StateNonce(c, a) in P(s, a)
    && forall m: nat | StateNonce(c, a) <= m <= n && m in P(s, a) :: !TooCostly(P(s, a)[m], Balance(c, a), c.maxGas)
  }

  lemma {:induction false} KeptStays(s: Pool, c: Chain, a: Addr, p: Txs, bad: set<nat>, n: nat)
    requires p == P(s, a) - TooOld(P(s, a), StateNonce(c, a)) && bad == Unpayable(p, Balance(c, a), c.maxGas)
    ensures var kept := p - bad - Stranded(p, bad);
            n in kept && StateNonce(c, a) in kept <==> StaysPending(s, c, a, n)
  {
    StrictKeeps(p, bad, n);
    StrictKeeps(p, bad, StateNonce(c, a));
    forall m: nat
      ensures m in bad <==>
              m in P(s, a) && StateNonce(c, a) <= m && TooCostly(P(s, a)[m], Balance(c, a), c.maxGas)
    {
    }
    if bad != {} {
      var b := MinOf(bad);
      assert b in P(s, a) && StateNonce(c, a) <= b && TooCostly(P(s, a)[b], Balance(c, a), c.maxGas);
    }
  }

  lemma {:induction false} DemotedLists(s: Pool, c: Chain, a: Addr, r: Pool, p: Txs, bad: set<nat>, kept: Txs)
    requires r == DemoteAccount(s, c, a) && p == P(s, a) - TooOld(P(s, a), StateNonce(c, a))
    requires bad == Unpayable(p, Balance(c, a), c.maxGas) && kept == p - bad - Stranded(p, bad)
    ensures if kept != map[] && StateNonce(c, a) !in kept
            then P(r, a) == map[] && Q(r, a) == Q(s, a) + Restrict(p, Stranded(p, bad)) + kept
            else P(r, a) == kept && Q(r, a) == Q(s, a) + Restrict(p, Stranded(p, bad))
  {
  }

  /** Nonce n after a demotion: it stays pending exactly if it holds from the state nonce on;
      of the others spent nonces and unpayable transactions go and the rest is queued. */
  ghost predicate DemotedAt(s: Pool, c: Chain, a: Addr, r: Pool, n: nat) {
    && (n in P(r, a) <==> StaysPending(s, c, a, n))
    && (n in Q(r, a) <==>
        || n in Q(s, a)
        || (n in P(s, a) && StateNonce(c, a) <= n && !TooCostly(P(s, a)[n], Balance(c, a), c.maxGas)
            && !StaysPending(s, c, a, n)))
    && (n in P(r, a) ==> P(r, a)[n] == P(s, a)[n])
    && (n in Q(r, a) ==> Q(r, a)[n] == if n in Q(s, a) then Q(s, a)[n] else P(s, a)[n])
  }

  lemma {:induction false} ListsDemoted(s: Pool, c: Chain, a: Addr, r: Pool, p: Txs, bad: set<nat>, kept: Txs, n: nat)
    requires AccountOk(s, a) && p == P(s, a) - TooOld(P(s, a), StateNonce(c, a))
    requires bad == Unpayable(p, Balance(c, a), c.maxGas) && kept == p - bad - Stranded(p, bad)
    requires n in kept && StateNonce(c, a) in kept <==> StaysPending(s, c, a, n)
    requires if kept != map[] && StateNonce(c, a) !in kept
             then P(r, a) == map[] && Q(r, a) == Q(s, a) + Restrict(p, Stranded(p, bad)) + kept
             else P(r, a) == kept && Q(r, a) == Q(s, a) + Restrict(p, Stranded(p, bad))
    ensures DemotedAt(s, c, a, r, n)
  {
  }

  lemma {:induction false} DemoteMeans(s: Pool, c: Chain, a: Addr, r: Pool, n: nat)
    requires AccountOk(s, a) && r == DemoteAccount(s, c, a)
    ensures DemotedAt(s, c, a, r, n)
  {
    var p := P(s, a) - TooOld(P(s, a), StateNonce(c, a));
    var bad := Unpayable(p, Balance(c, a), c.maxGas);
    var kept := p - bad - Stranded(p, bad);
    DemotedLists(s, c, a, r, p, bad, kept);
    KeptStays(s, c, a, p, bad, n);
    ListsDemoted(s, c, a, r, p, bad, kept, n);
  }
}
