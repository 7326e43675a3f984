/** The pool's operations on one account, and what each keeps. */
module PoolSteps {
  import opened PoolLists
  import opened PoolState

  /** The pending nonces are exactly those from the state nonce up to the virtual one. */
  ghost predicate Contiguous(s: Pool, c: Chain, a: Addr) {
    && StateNonce(c, a) <= Virtual(s, c, a)
    && forall n: nat :: n in P(s, a) <==> StateNonce(c, a) <= n < Virtual(s, c, a)
  }

  // ------------------------------------------------------------- moves within an account

  /** The lookup entries of account a that neither list holds any more. */
  ghost function Gone(s: Pool, a: Addr, p: Txs, q: Txs): (r: set<Hash>)
  {
    set h | h in s.all && s.all[h].from == a && !Holds(p, q, s.all[h])
  }

  /** The account keeps p pending and q queued; everything else of it is dropped. */
  ghost function Shuffle(s: Pool, a: Addr, p: Txs, q: Txs): (r: Pool)
  {
    Relist(s, a, p, q, Gone(s, a, p, q), map[])
  }

  /** Every entry of l was in one of the account's lists. */
  ghost predicate Drawn(s: Pool, a: Addr, l: Txs) {
    forall n | n in l :: (n in P(s, a) && P(s, a)[n] == l[n]) || (n in Q(s, a) && Q(s, a)[n] == l[n])
  }

  lemma {:induction false} ShufflePartition(s: Pool, a: Addr, p: Txs, q: Txs)
    requires Partition(s) && Drawn(s, a, p) && Drawn(s, a, q) && p.Keys !! q.Keys
    ensures Partition(Shuffle(s, a, p, q))
    ensures P(Shuffle(s, a, p, q), a) == p && Q(Shuffle(s, a, p, q), a) == q
  {
    assert AccountOk(s, a);
    var gone := Gone(s, a, p, q);
    forall n | n in p
      ensures p[n].nonce == n && Kept(s, a, gone, map[], p[n])
    {
      assert Holds(p, q, p[n]);
    }
    forall n | n in q
      ensures q[n].nonce == n && Kept(s, a, gone, map[], q[n])
    {
      assert Holds(p, q, q[n]);
    }
    forall t | Holds(P(s, a), Q(s, a), t) && t.hash !in gone
      ensures Holds(p, q, t)
    {
      assert t.hash in s.all && s.all[t.hash] == t;
    }
    RelistPartition(s, a, p, q, gone, map[]);
  }

  // ------------------------------------------------------------------------- removal

  /** Removing a pending transaction sends the later ones back to the queue. */
  ghost function RemoveTx(s: Pool, c: Chain, h: Hash): (r: Pool)
  {
    if h !in s.all then s
    else
      var t := s.all[h];
      var a, p, q := t.from, P(s, t.from), Q(s, t.from);
      if t.nonce in p then
        var r := Shuffle(s, a, Restrict(p, set n | n in p && n < t.nonce),
          q + Restrict(p, set n | n in p && n > t.nonce));
        r.(nonces := s.nonces[a := if Virtual(s, c, a) <= t.nonce then Virtual(s, c, a) else t.nonce])
      else Shuffle(s, a, p, q - {t.nonce})
  }

  lemma {:induction false} RemovePartition(s: Pool, c: Chain, h: Hash)
    requires Partition(s)
    ensures Partition(RemoveTx(s, c, h))
  {
    if h in s.all {
      var t := s.all[h];
      var a, p, q := t.from, P(s, t.from), Q(s, t.from);
      assert AccountOk(s, a);
      if t.nonce in p {
        var p', q' := Restrict(p, set n | n in p && n < t.nonce), q + Restrict(p, set n | n in p && n > t.nonce);
        ShufflePartition(s, a, p', q');
        NoncesDoNotMatter(Shuffle(s, a, p', q'), RemoveTx(s, c, h));
      } else {
        ShufflePartition(s, a, p, q - {t.nonce});
      }
    }
  }

  lemma {:induction false} RemoveContiguous(s: Pool, c: Chain, h: Hash, a: Addr)
    requires Partition(s) && Contiguous(s, c, a)
    ensures Contiguous(RemoveTx(s, c, h), c, a)
  {
    var r := RemoveTx(s, c, h);
    if h in s.all {
      var t := s.all[h];
      if t.from != a {
        assert P(r, a) == P(s, a) && Virtual(r, c, a) == Virtual(s, c, a);
      } else if t.nonce in P(s, a) {
        var p := P(s, a);
        assert P(r, a) == Restrict(p, set n | n in p && n < t.nonce);
      } else {
        assert P(r, a) == P(s, a);
      }
    }
  }

  lemma NoncesDoNotMatter(s: Pool, r: Pool)
    requires Partition(s) && r == s.(nonces := r.nonces)
    ensures Partition(r)
  {
    forall a
      ensures AccountOk(r, a)
    {
      assert AccountOk(s, a);
    }
    forall h | h in r.all
      ensures Listed(r, h)
    {
      assert Listed(s, h);
    }
  }

  // ------------------------------------------------------------------------- insertion

  datatype Added = Known | Invalid | Underpriced | Queued(replaced: bool) | Replaced

  /** The state-dependent part of validation; the rest is in `sane`. */
  predicate Admissible(c: Chain, tx: Tx, sane: bool) {
    sane && tx.gas <= c.maxGas && StateNonce(c, tx.from) <= tx.nonce && Cost(tx) <= Balance(c, tx.from)
  }

  /** Inserts tx into the list holding prev (if any) under its nonce. */
  ghost function Insert(s: Pool, tx: Tx, toPending: bool, prev: set<Hash>): (r: Pool)
  {
    var a := tx.from;
    if toPending then Relist(s, a, P(s, a)[tx.nonce := tx], Q(s, a), prev, map[tx.hash := tx])
    else Relist(s, a, P(s, a), Q(s, a)[tx.nonce := tx], prev, map[tx.hash := tx])
  }

  /** Offers a transaction: replace the pending one of its nonce, else enqueue it. */
  ghost function Offer(s: Pool, tx: Tx, bump: nat): (r: (Pool, Added))
  {
    var p, q := P(s, tx.from), Q(s, tx.from);
    if tx.nonce in p then
      if Replaces(tx, p[tx.nonce], bump) then (Insert(s, tx, true, {p[tx.nonce].hash}), Replaced) else (s, Underpriced)
    else if tx.nonce in q then
      if Replaces(tx, q[tx.nonce], bump) then (Insert(s, tx, false, {q[tx.nonce].hash}), Queued(true))
        else (s, Underpriced)
    else (Insert(s, tx, false, {}), Queued(false))
  }

  ghost function RemoveAll(s: Pool, c: Chain, hs: seq<Hash>): (r: Pool)
  {
    if hs == [] then s else RemoveTx(RemoveAll(s, c, hs[..|hs| - 1]), c, hs[|hs| - 1])
  }

  /** Adds one transaction; `drops` is what the price list gave up to make room. */
  ghost function Add(s: Pool, c: Chain, tx: Tx, sane: bool, drops: seq<Hash>, bump: nat): (r: (Pool, Added))
  {
    if tx.hash in s.all then (s, Known)
    else if !Admissible(c, tx, sane) then (s, Invalid)
    else Offer(RemoveAll(s, c, drops), tx, bump)
  }

  lemma {:induction false} InsertPartition(s: Pool, tx: Tx, toPending: bool, prev: set<Hash>)
    requires Partition(s) && tx.hash !in s.all
    requires var l := if toPending then P(s, tx.from) else Q(s, tx.from);
             var o := if toPending then Q(s, tx.from) else P(s, tx.from);
             tx.nonce !in o && prev == if tx.nonce in l then {l[tx.nonce].hash} else {}
    ensures Partition(Insert(s, tx, toPending, prev))
  {
    var a, add := tx.from, map[tx.hash := tx];
    var p := if toPending then P(s, a)[tx.nonce := tx] else P(s, a);
    var q := if toPending then Q(s, a) else Q(s, a)[tx.nonce := tx];
    assert AccountOk(s, a);
    forall n | n in p
      ensures p[n].nonce == n && Kept(s, a, prev, add, p[n])
    {
      assert n != tx.nonce ==> Holds(P(s, a), Q(s, a), p[n]);
    }
    forall n | n in q
      ensures q[n].nonce == n && Kept(s, a, prev, add, q[n])
    {
      assert n != tx.nonce ==> Holds(P(s, a), Q(s, a), q[n]);
    }
    forall t | Holds(P(s, a), Q(s, a), t) && t.hash !in prev
      ensures Holds(p, q, t)
    {
    }
    RelistPartition(s, a, p, q, prev, add);
  }

  lemma {:induction false} OfferKeeps(s: Pool, c: Chain, tx: Tx, bump: nat)
    requires Partition(s) && tx.hash !in s.all
    ensures Partition(Offer(s, tx, bump).0)
  {
    var p, q := P(s, tx.from), Q(s, tx.from);
    assert AccountOk(s, tx.from);
    if tx.nonce in p {
      InsertPartition(s, tx, true, {p[tx.nonce].hash});
    } else {
      InsertPartition(s, tx, false, if tx.nonce in q then {q[tx.nonce].hash} else {});
    }
  }

  /** Offering changes no pending nonce and no virtual nonce. */
  lemma {:induction false} OfferNonces(s: Pool, tx: Tx, bump: nat, a: Addr)
    ensures P(Offer(s, tx, bump).0, a).Keys == P(s, a).Keys && Offer(s, tx, bump).0.nonces == s.nonces
  {
  }

  lemma {:induction false} RemoveAllKeeps(s: Pool, c: Chain, hs: seq<Hash>)
    requires Partition(s)
    ensures Partition(RemoveAll(s, c, hs))
    ensures RemoveAll(s, c, hs).all.Keys <= s.all.Keys
  {
    if hs != [] {
      RemoveAllKeeps(s, c, hs[..|hs| - 1]);
      RemovePartition(RemoveAll(s, c, hs[..|hs| - 1]), c, hs[|hs| - 1]);
    }
  }

  lemma {:induction false} RemoveAllContiguous(s: Pool, c: Chain, hs: seq<Hash>, a: Addr)
    requires Partition(s) && Contiguous(s, c, a)
    ensures Contiguous(RemoveAll(s, c, hs), c, a)
  {
    if hs != [] {
      RemoveAllKeeps(s, c, hs[..|hs| - 1]);
      RemoveAllContiguous(s, c, hs[..|hs| - 1], a);
      RemoveContiguous(RemoveAll(s, c, hs[..|hs| - 1]), c, hs[|hs| - 1], a);
    }
  }

  lemma {:induction false} AddPartition(s: Pool, c: Chain, tx: Tx, sane: bool, drops: seq<Hash>, bump: nat)
    requires Partition(s)
    ensures Partition(Add(s, c, tx, sane, drops, bump).0)
  {
    if tx.hash !in s.all {
      RemoveAllKeeps(s, c, drops);
      OfferKeeps(RemoveAll(s, c, drops), c, tx, bump);
    }
  }

  lemma {:induction false} AddContiguous(s: Pool, c: Chain, tx: Tx, sane: bool, drops: seq<Hash>, bump: nat, a: Addr)
    requires Partition(s) && Contiguous(s, c, a)
    ensures Contiguous(Add(s, c, tx, sane, drops, bump).0, c, a)
  {
    RemoveAllContiguous(s, c, drops, a);
    OfferNonces(RemoveAll(s, c, drops), tx, bump, a);
  }
}
