/** The transaction pool as a value: pending and queued lists, the lookup of all
    transactions and the virtual nonces, with one function per primitive change. */
module PoolState {
  import opened PoolLists

  datatype Pool = Pool(pending: map<Addr, Txs>, queue: map<Addr, Txs>, all: map<Hash, Tx>, nonces: map<Addr, nat>)

  /** What the pool reads of the chain's head state. */
  datatype Chain = Chain(nonces: map<Addr, nat>, balances: map<Addr, nat>, maxGas: nat)

  function StateNonce(c: Chain, a: Addr): nat {
    if a in c.nonces then c.nonces[a] else 0
  }

  function Balance(c: Chain, a: Addr): nat {
    if a in c.balances then c.balances[a] else 0
  }

  /** The virtual nonce falls back to the chain state for unknown accounts. */
  function Virtual(s: Pool, c: Chain, a: Addr): nat {
    if a in s.nonces then s.nonces[a] else StateNonce(c, a)
  }

  /** A missing list is an empty one. */
  function Get(m: map<Addr, Txs>, a: Addr): Txs {
    if a in m then m[a] else map[]
  }

  function P(s: Pool, a: Addr): Txs {
    Get(s.pending, a)
  }

  function Q(s: Pool, a: Addr): Txs {
    Get(s.queue, a)
  }

  // --------------------------------------------------------------------- partition

  /** The transaction is one of these two lists. */
  ghost predicate Holds(p: Txs, q: Txs, t: Tx) {
    (t.nonce in p && p[t.nonce] == t) || (t.nonce in q && q[t.nonce] == t)
  }

  ghost predicate Filed(s: Pool, a: Addr, l: Txs) {
    forall n | n in l :: l[n].from == a && l[n].nonce == n && l[n].hash in s.all && s.all[l[n].hash] == l[n]
  }

  /** An account's lists hold its own transactions, filed by nonce and known to the
      lookup, and no nonce is both pending and queued. */
  ghost predicate AccountOk(s: Pool, a: Addr) {
    Filed(s, a, P(s, a)) && Filed(s, a, Q(s, a)) && P(s, a).Keys !! Q(s, a).Keys
  }

  ghost predicate Listed(s: Pool, h: Hash)
    requires h in s.all
  {
    s.all[h].hash == h && Holds(P(s, s.all[h].from), Q(s, s.all[h].from), s.all[h])
  }

  /** A hash is known if and only if its transaction is in exactly one list of its sender. */
  ghost predicate Partition(s: Pool) {
    (forall a {:trigger AccountOk(s, a)} :: AccountOk(s, a))
      && (forall h {:trigger Listed(s, h)} | h in s.all :: Listed(s, h))
  }

  // ------------------------------------------------------- changing one account's lists

  /** Lists that become empty are deleted. */
  function SetList(m: map<Addr, Txs>, a: Addr, l: Txs): (r: map<Addr, Txs>)
    ensures Get(r, a) == l
    ensures forall b {:trigger Get(r, b)} | b != a :: Get(r, b) == Get(m, b)
    ensures a in r <==> l != map[]
  {
    if l == map[] then m - {a} else m[a := l]
  }

  /** New lists for account a; `gone` leaves the lookup and `add` enters it. */
  function Relist(s: Pool, a: Addr, p: Txs, q: Txs, gone: set<Hash>, add: map<Hash, Tx>): (r: Pool)
  {
    s.(pending := SetList(s.pending, a, p), queue := SetList(s.queue, a, q), all := (s.all - gone) + add)
  }

  /** The lists and the lookup change by the same transactions. */
  ghost predicate Faithful(s: Pool, a: Addr, p: Txs, q: Txs, gone: set<Hash>, add: map<Hash, Tx>) {
    && (forall h | h in gone :: h in s.all && s.all[h].from == a)
    && (forall h | h in add :: h !in s.all && add[h].hash == h && add[h].from == a && Holds(p, q, add[h]))
    && p.Keys !! q.Keys
    && (forall n | n in p :: p[n].nonce == n && Kept(s, a, gone, add, p[n]))
    && (forall n | n in q :: q[n].nonce == n && Kept(s, a, gone, add, q[n]))
    && (forall t {:trigger Holds(p, q, t)} | Holds(P(s, a), Q(s, a), t) && t.hash !in gone :: Holds(p, q, t))
  }

  ghost predicate Kept(s: Pool, a: Addr, gone: set<Hash>, add: map<Hash, Tx>, t: Tx) {
    (Holds(P(s, a), Q(s, a), t) && t.hash !in gone) || (t.hash in add && add[t.hash] == t)
  }

  lemma {:induction false} KeptFiled(s: Pool, a: Addr, p: Txs, q: Txs, gone: set<Hash>, add: map<Hash, Tx>, t: Tx)
    requires AccountOk(s, a) && Faithful(s, a, p, q, gone, add) && Kept(s, a, gone, add, t)
    ensures var all := (s.all - gone) + add;
            t.from == a && t.hash in all && all[t.hash] == t
  {
  }

  lemma {:induction false} RelistFiled(s: Pool, a: Addr, p: Txs, q: Txs, gone: set<Hash>, add: map<Hash, Tx>, l: Txs)
    requires AccountOk(s, a) && Faithful(s, a, p, q, gone, add)
    requires forall n | n in l :: l[n].nonce == n && Kept(s, a, gone, add, l[n])
    ensures Filed(Relist(s, a, p, q, gone, add), a, l)
  {
    forall n | n in l
      ensures var all := (s.all - gone) + add;
              l[n].from == a && l[n].hash in all && all[l[n].hash] == l[n]
    {
      KeptFiled(s, a, p, q, gone, add, l[n]);
    }
  }

  lemma {:induction false} RelistAccount(s: Pool, a: Addr, p: Txs, q: Txs, gone: set<Hash>, add: map<Hash, Tx>)
    requires AccountOk(s, a) && Faithful(s, a, p, q, gone, add)
    ensures AccountOk(Relist(s, a, p, q, gone, add), a)
  {
    RelistFiled(s, a, p, q, gone, add, p);
    RelistFiled(s, a, p, q, gone, add, q);
  }

  /** Every primitive change of the pool keeps the partition. */
  lemma {:induction false} RelistPartition(s: Pool, a: Addr, p: Txs, q: Txs, gone: set<Hash>, add: map<Hash, Tx>)
    requires Partition(s) && Faithful(s, a, p, q, gone, add)
    ensures Partition(Relist(s, a, p, q, gone, add))
  {
    var r := Relist(s, a, p, q, gone, add);
    forall b
      ensures AccountOk(r, b)
    {
      assert AccountOk(s, b);
      if b == a {
        RelistAccount(s, a, p, q, gone, add);
      } else {
        RelistOther(s, a, p, q, gone, add, b);
      }
    }
    forall h | h in r.all
      ensures Listed(r, h)
    {
      if h !in add {
        assert Listed(s, h);
        if s.all[h].from == a {
          assert Holds(p, q, s.all[h]);
        }
      }
    }
  }

  lemma {:induction false} RelistOther(s: Pool, a: Addr, p: Txs, q: Txs, gone: set<Hash>, add: map<Hash, Tx>, b: Addr)
    requires AccountOk(s, b) && Faithful(s, a, p, q, gone, add) && b != a
    ensures AccountOk(Relist(s, a, p, q, gone, add), b)
  {
  }
}
