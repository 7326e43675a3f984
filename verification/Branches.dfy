/** Rewriting the canonical and the transaction index from one branch to another,
    on values: what the writes, the deletions up to the first gap and the final
    head write add up to. */
module Branches {
  import opened BlockTree
  import opened TxIndex

  datatype Block = Block(header: Header, txs: seq<TxHash>)

  /** The two branches share everything up to number c. */
  ghost predicate Agree(p: seq<Hash>, q: seq<Hash>, c: nat) {
    c < |p| && c < |q| && forall i | 0 <= i <= c :: p[i] == q[i]
  }

  ghost predicate NonZero(p: seq<Hash>) {
    forall i | 0 <= i < |p| :: p[i] != NO_HASH
  }

  /** b is the block of the branch q at number n. */
  ghost predicate IsAt(bodies: Bodies, b: Block, q: seq<Hash>, n: int) {
    0 <= n < |q| && b.header.number == n && b.header.hash == q[n] && q[n] in bodies && b.txs == bodies[q[n]]
  }

  /** The chain holds the newest blocks of the branch q, newest first. */
  ghost predicate OnBranch(bodies: Bodies, chain: seq<Block>, q: seq<Hash>) {
    |chain| < |q| && forall i | 0 <= i < |chain| :: IsAt(bodies, chain[i], q, |q| - 1 - i)
  }

  ghost function AllTxs(chain: seq<Block>): seq<TxHash> {
    if chain == [] then [] else AllTxs(chain[..|chain| - 1]) + chain[|chain| - 1].txs
  }

  lemma AllTxsExtends(chain: seq<Block>, b: Block)
    ensures AllTxs(chain + [b]) == AllTxs(chain) + b.txs
  {
    assert (chain + [b])[..|chain|] == chain;
  }

  ghost predicate InChain(chain: seq<Block>, x: TxHash) {
    exists i :: 0 <= i < |chain| && x in chain[i].txs
  }

  lemma {:induction false} AllTxsMeaning(chain: seq<Block>, x: TxHash)
    ensures x in AllTxs(chain) <==> InChain(chain, x)
  {
    if chain != [] {
      var front, last := chain[..|chain| - 1], chain[|chain| - 1];
      AllTxsMeaning(front, x);
      InChainSplit(front, last, x);
      assert chain == front + [last];
    }
  }

  lemma InChainSplit(front: seq<Block>, last: Block, x: TxHash)
    ensures InChain(front + [last], x) <==> InChain(front, x) || x in last.txs
  {
    var chain := front + [last];
    if i :| 0 <= i < |front| && x in front[i].txs {
      assert x in chain[i].txs;
    }
    assert chain[|front|] == last;
  }

  /** The transactions of a chain are those of its stretch of the branch. */
  lemma {:induction false} OnBranchTxs(bodies: Bodies, chain: seq<Block>, p: seq<Hash>, x: TxHash)
    requires HasBodies(bodies, p) && OnBranch(bodies, chain, p)
    ensures x in AllTxs(chain) <==> Between(bodies, p, |p| - |chain|, |p|, x)
  {
    AllTxsMeaning(chain, x);
    if i :| 0 <= i < |chain| && x in chain[i].txs {
      assert IsAt(bodies, chain[i], p, |p| - 1 - i);
      assert InBlock(bodies, p, |p| - 1 - i, x);
    }
    if Between(bodies, p, |p| - |chain|, |p|, x) {
      var j: nat :| |p| - |chain| <= j < |p| && InBlock(bodies, p, j, x);
      assert IsAt(bodies, chain[|p| - 1 - j], p, j);
    }
  }

  /** An index with the entries lo..hi taken from a branch, lowest first. */
  ghost function Overlay(canon: map<nat, Hash>, q: seq<Hash>, lo: nat, hi: nat): map<nat, Hash>
    requires lo <= hi <= |q|
    decreases hi
  {
    if lo == hi then canon else Overlay(canon, q, lo, hi - 1)[hi - 1 := q[hi - 1]]
  }

  lemma {:induction false} OverlayAt(canon: map<nat, Hash>, q: seq<Hash>, lo: nat, hi: nat, n: nat)
    requires lo <= hi <= |q|
    ensures n in Overlay(canon, q, lo, hi) <==> n in canon || lo <= n < hi
    ensures n in Overlay(canon, q, lo, hi) ==> Overlay(canon, q, lo, hi)[n] == if lo <= n < hi then q[n] else canon[n]
    decreases hi
  {
    if lo < hi {
      OverlayAt(canon, q, lo, hi - 1, n);
    }
  }

  /** Both indexes, and the list of transactions seen, after q[lo..at] was written. */
  ghost predicate Written(canon0: map<nat, Hash>, lookup0: map<TxHash, nat>, bodies: Bodies, q: seq<Hash>, lo: nat,
                          at: nat,
                          canon: map<nat, Hash>, lookup: map<TxHash, nat>, added: seq<TxHash>)
    requires HasBodies(bodies, q)
  {
    && lo <= at <= |q|
    && lookup == WriteRange(lookup0, bodies, q, lo, at)
    && canon == Overlay(canon0, q, lo, at)
    && forall x :: x in added <==> Between(bodies, q, lo, at, x)
  }

  lemma WrittenNothing(canon: map<nat, Hash>, lookup: map<TxHash, nat>, bodies: Bodies, q: seq<Hash>, lo: nat)
    requires HasBodies(bodies, q) && lo <= |q|
    ensures Written(canon, lookup, bodies, q, lo, lo, canon, lookup, [])
  {
  }

  lemma {:induction false} WrittenOne(canon0: map<nat, Hash>, lookup0: map<TxHash, nat>, bodies: Bodies,
                                      q: seq<Hash>, lo: nat, at: nat,
                                      was: (map<nat, Hash>, map<TxHash, nat>, seq<TxHash>),
                                      canon: map<nat, Hash>, lookup: map<TxHash, nat>, added: seq<TxHash>, b: Block)
    requires HasBodies(bodies, q) && Written(canon0, lookup0, bodies, q, lo, at, was.0, was.1, was.2)
    requires IsAt(bodies, b, q, at)
    requires canon == was.0[at := b.header.hash] && lookup == WithEntries(was.1, b.txs, at) && added == was.2 + b.txs
    ensures Written(canon0, lookup0, bodies, q, lo, at + 1, canon, lookup, added)
  {
    forall x
      ensures x in added <==> Between(bodies, q, lo, at + 1, x)
    {
      BetweenExtends(bodies, q, lo, at, x);
    }
  }

  /** A branch holds no zero hash, so the scan for marks sees every entry. */
  lemma {:induction false} OverlayHashes(p: seq<Hash>, q: seq<Hash>, lo: nat, hi: nat)
    requires NonZero(p) && NonZero(q) && lo <= hi <= |q|
    ensures forall k | k in Overlay(IndexOf(p), q, lo, hi) :: Overlay(IndexOf(p), q, lo, hi)[k] != NO_HASH
  {
    forall k | k in Overlay(IndexOf(p), q, lo, hi)
      ensures Overlay(IndexOf(p), q, lo, hi)[k] != NO_HASH
    {
      OverlayAt(IndexOf(p), q, lo, hi, k);
    }
  }

  /** Deleting upwards to the first gap clears everything of the old branch: the
      entries still there form one run. */
  lemma {:induction false} CanonAfter(p: seq<Hash>, q: seq<Hash>, c: nat, canon: map<nat, Hash>, marks: set<nat>,
                                      gap: nat)
    requires Agree(p, q, c)
    requires canon == Overlay(IndexOf(p), q, c + 1, BelowHead(c, q))
    requires BelowHead(c, q) <= gap && gap !in canon
    requires forall k: nat :: k in marks <==> BelowHead(c, q) <= k < gap
    ensures (canon - marks)[|q| - 1 := q[|q| - 1]] == IndexOf(q)
  {
    var top := BelowHead(c, q);
    var r := (canon - marks)[|q| - 1 := q[|q| - 1]];
    OverlayAt(IndexOf(p), q, c + 1, top, gap);
    assert gap >= |p|;
    forall k: nat
      ensures k in r <==> k in IndexOf(q)
      ensures k in r ==> r[k] == IndexOf(q)[k]
    {
      OverlayAt(IndexOf(p), q, c + 1, top, k);
    }
  }

  /** One head write away from the index of branch q. */
  ghost predicate CanonReady(q: seq<Hash>, canon: map<nat, Hash>)
    requires q != []
  {
    canon[|q| - 1 := q[|q| - 1]] == IndexOf(q)
  }

  /** One head write away from the lookup entries of q, if m was exact for p. */
  ghost predicate LookupReady(bodies: Bodies, p: seq<Hash>, q: seq<Hash>, m: map<TxHash, nat>, lookup: map<TxHash, nat>)
    requires HasBodies(bodies, p) && HasBodies(bodies, q) && q != []
  {
    m == LookupOf(bodies, p) && OncePerBranch(bodies, p) && OncePerBranch(bodies, q) ==>
      WithEntries(lookup, bodies[q[|q| - 1]], |q| - 1) == LookupOf(bodies, q)
  }

  /** Removing the transactions of the dropped blocks that no adopted block below
      the head holds leaves a lookup index that lacks only the head's entries. */
  lemma {:induction false} LookupAfter(bodies: Bodies, p: seq<Hash>, q: seq<Hash>, c: nat, oldChain: seq<Block>,
                                       m: map<TxHash, nat>, added: seq<TxHash>, del: set<TxHash>)
    requires HasBodies(bodies, p) && HasBodies(bodies, q) && Agree(p, q, c)
    requires OnBranch(bodies, oldChain, p) && |p| - |oldChain| == c + 1
    requires forall x :: x in added <==> Between(bodies, q, c + 1, BelowHead(c, q), x)
    requires forall x :: x in del <==> x in AllTxs(oldChain) && x !in added
    ensures LookupReady(bodies, p, q, m, WriteRange(m, bodies, q, c + 1, BelowHead(c, q)) - del)
  {
    if m == LookupOf(bodies, p) && OncePerBranch(bodies, p) && OncePerBranch(bodies, q) {
      forall x
        ensures x in del <==> Between(bodies, p, c + 1, |p|, x) && !Between(bodies, q, c + 1, BelowHead(c, q), x)
      {
        OnBranchTxs(bodies, oldChain, p, x);
      }
      RewriteIsExact(bodies, p, q, c, del, m);
    }
  }
}
