/** The transaction lookup index of a branch, and why the reorganisation's
    write/delete/write-back sequence lands on it exactly. */
module TxIndex {
  import opened BlockTree

  type Bodies = map<Hash, seq<TxHash>>

  function WithEntries(m: map<TxHash, nat>, txs: seq<TxHash>, number: nat): (r: map<TxHash, nat>)
  {
    m + (map x | x in txs :: number)
  }

  ghost predicate HasBodies(bodies: Bodies, p: seq<Hash>) {
    forall i | 0 <= i < |p| :: p[i] in bodies
  }

  /** Number of the last block of the branch that holds each transaction. */
  ghost function LookupOf(bodies: Bodies, p: seq<Hash>): (m: map<TxHash, nat>)
    requires HasBodies(bodies, p)
  {
    if p == [] then map[]
    else WithEntries(LookupOf(bodies, p[..|p| - 1]), bodies[p[|p| - 1]], |p| - 1)
  }

  ghost predicate InBlock(bodies: Bodies, p: seq<Hash>, i: nat, x: TxHash)
    requires HasBodies(bodies, p)
  {
    i < |p| && x in bodies[p[i]]
  }

  /** Each transaction occurs in at most one block of the branch. */
  ghost predicate OncePerBranch(bodies: Bodies, p: seq<Hash>)
    requires HasBodies(bodies, p)
  {
    forall i: nat, j: nat, x: TxHash :: InBlock(bodies, p, i, x) && InBlock(bodies, p, j, x) ==> i == j
  }

  /** LookupOf really is "transaction -> number of its block on the branch". */
  lemma {:induction false} LookupMeaning(bodies: Bodies, p: seq<Hash>)
    requires HasBodies(bodies, p)
    ensures forall x | x in LookupOf(bodies, p) :: InBlock(bodies, p, LookupOf(bodies, p)[x], x)
    ensures forall i: nat, x: TxHash | InBlock(bodies, p, i, x) ::
              x in LookupOf(bodies, p) && i <= LookupOf(bodies, p)[x]
  {
    if p != [] {
      var q := p[..|p| - 1];
      LookupMeaning(bodies, q);
      forall x | x in LookupOf(bodies, p)
        ensures InBlock(bodies, p, LookupOf(bodies, p)[x], x)
      {
        if x !in bodies[p[|p| - 1]] {
          assert InBlock(bodies, q, LookupOf(bodies, q)[x], x);
        }
      }
      forall i: nat, x: TxHash | InBlock(bodies, p, i, x)
        ensures x in LookupOf(bodies, p) && i <= LookupOf(bodies, p)[x]
      {
        if i < |q| {
          assert InBlock(bodies, q, i, x);
        }
      }
    }
  }

  /** With unique transactions the index is an if-and-only-if. */
  lemma LookupExact(bodies: Bodies, p: seq<Hash>, x: TxHash, n: nat)
    requires HasBodies(bodies, p) && OncePerBranch(bodies, p)
    ensures (x in LookupOf(bodies, p) && LookupOf(bodies, p)[x] == n) <==> InBlock(bodies, p, n, x)
  {
    LookupMeaning(bodies, p);
  }

  /** The union of the transactions of the blocks p[lo..hi]. */
  ghost predicate Between(bodies: Bodies, p: seq<Hash>, lo: nat, hi: nat, x: TxHash)
    requires HasBodies(bodies, p)
  {
    exists i: nat :: lo <= i < hi && InBlock(bodies, p, i, x)
  }

  lemma BetweenExtends(bodies: Bodies, p: seq<Hash>, lo: nat, hi: nat, x: TxHash)
    requires HasBodies(bodies, p) && lo <= hi
    ensures Between(bodies, p, lo, hi + 1, x) <==> Between(bodies, p, lo, hi, x) || InBlock(bodies, p, hi, x)
  {
  }

  /** The entries written for blocks p[lo..hi], oldest first. */
  ghost function WriteRange(m: map<TxHash, nat>, bodies: Bodies, p: seq<Hash>, lo: nat, hi: nat): (r: map<TxHash, nat>)
    requires HasBodies(bodies, p) && lo <= hi <= |p|
    decreases hi
  {
    if lo == hi then m
    else WithEntries(WriteRange(m, bodies, p, lo, hi - 1), bodies[p[hi - 1]], hi - 1)
  }

  lemma {:induction false} WriteRangeMeaning(m: map<TxHash, nat>, bodies: Bodies, p: seq<Hash>, lo: nat, hi: nat,
                                             x: TxHash)
    requires HasBodies(bodies, p) && lo <= hi <= |p|
    ensures var r := WriteRange(m, bodies, p, lo, hi);
            && (x in r <==> x in m || Between(bodies, p, lo, hi, x))
            && (Between(bodies, p, lo, hi, x) ==> lo <= r[x] < hi && InBlock(bodies, p, r[x], x))
            && (x in m && !Between(bodies, p, lo, hi, x) ==> r[x] == m[x])
    decreases hi
  {
    if lo < hi {
      WriteRangeMeaning(m, bodies, p, lo, hi - 1, x);
      assert x in bodies[p[hi - 1]] ==> InBlock(bodies, p, hi - 1, x);
    }
  }

  /** Everything known about one transaction on one branch. */
  lemma LookupAt(bodies: Bodies, p: seq<Hash>, x: TxHash)
    requires HasBodies(bodies, p) && OncePerBranch(bodies, p)
    ensures x in LookupOf(bodies, p) ==> InBlock(bodies, p, LookupOf(bodies, p)[x], x)
    ensures forall i: nat :: InBlock(bodies, p, i, x) ==> x in LookupOf(bodies, p) && LookupOf(bodies, p)[x] == i
  {
    LookupMeaning(bodies, p);
  }

  /** Where the blocks adopted below the new head end. */
  function BelowHead(c: nat, q: seq<Hash>): (top: nat)
    requires c < |q|
  {
    if c + 1 < |q| then |q| - 1 else c + 1
  }

  /** What a reorganisation deletes: the transactions of the dropped blocks of p
      that are in no adopted block of q below the new head. */
  ghost predicate Deletes(bodies: Bodies, p: seq<Hash>, q: seq<Hash>, c: nat, del: set<TxHash>)
    requires HasBodies(bodies, p) && HasBodies(bodies, q) && c < |q|
  {
    forall x :: x in del <==> Between(bodies, p, c + 1, |p|, x) && !Between(bodies, q, c + 1, BelowHead(c, q), x)
  }

  /** The lookup index after the reorganisation and the caller's head write. */
  ghost function Rewritten(m: map<TxHash, nat>, bodies: Bodies, q: seq<Hash>, c: nat,
                           del: set<TxHash>): (r: map<TxHash, nat>)
    requires HasBodies(bodies, q) && c < |q|
  {
    WithEntries(WriteRange(m, bodies, q, c + 1, BelowHead(c, q)) - del, bodies[q[|q| - 1]], |q| - 1)
  }

  /** Deleting "dropped but not re-added" and then writing the head back gives the
      exact index of the new branch q, for branches p and q that share 0..c. */
  lemma RewriteIsExact(bodies: Bodies, p: seq<Hash>, q: seq<Hash>, c: nat, del: set<TxHash>, m: map<TxHash, nat>)
    requires HasBodies(bodies, p) && HasBodies(bodies, q)
    requires c < |p| && c < |q| && (forall i | 0 <= i <= c :: p[i] == q[i])
    requires OncePerBranch(bodies, p) && OncePerBranch(bodies, q)
    requires m == LookupOf(bodies, p) && Deletes(bodies, p, q, c, del)
    ensures Rewritten(m, bodies, q, c, del) == LookupOf(bodies, q)
  {
    var r, l := Rewritten(m, bodies, q, c, del), LookupOf(bodies, q);
    forall x
      ensures (x in r <==> x in l) && (x in l ==> r[x] == l[x])
    {
      if x in l {
        RewriteKeeps(bodies, p, q, c, del, m, x);
      } else if x in r {
        RewriteDrops(bodies, p, q, c, del, m, x);
      }
    }
  }

  /** A transaction of the new branch ends up at its block there. */
  lemma RewriteKeeps(bodies: Bodies, p: seq<Hash>, q: seq<Hash>, c: nat, del: set<TxHash>, m: map<TxHash, nat>,
                     x: TxHash)
    requires HasBodies(bodies, p) && HasBodies(bodies, q)
    requires c < |p| && c < |q| && (forall i | 0 <= i <= c :: p[i] == q[i])
    requires OncePerBranch(bodies, p) && OncePerBranch(bodies, q)
    requires m == LookupOf(bodies, p) && Deletes(bodies, p, q, c, del)
    requires x in LookupOf(bodies, q)
    ensures x in Rewritten(m, bodies, q, c, del) && Rewritten(m, bodies, q, c, del)[x] == LookupOf(bodies, q)[x]
  {
    var n, top := LookupOf(bodies, q)[x], BelowHead(c, q);
    LookupAt(bodies, q, x);
    WriteRangeMeaning(m, bodies, q, c + 1, top, x);
    if n == |q| - 1 {
    } else if n <= c {
      assert !InBlock(bodies, q, |q| - 1, x);
      LookupAt(bodies, p, x);
      assert InBlock(bodies, p, n, x);
    } else {
      assert !InBlock(bodies, q, |q| - 1, x);
      assert Between(bodies, q, c + 1, top, x);
    }
  }

  /** A transaction that survives the rewrite is on the new branch. */
  lemma RewriteDrops(bodies: Bodies, p: seq<Hash>, q: seq<Hash>, c: nat, del: set<TxHash>, m: map<TxHash, nat>,
                     x: TxHash)
    requires HasBodies(bodies, p) && HasBodies(bodies, q)
    requires c < |p| && c < |q| && (forall i | 0 <= i <= c :: p[i] == q[i])
    requires OncePerBranch(bodies, p) && OncePerBranch(bodies, q)
    requires m == LookupOf(bodies, p) && Deletes(bodies, p, q, c, del)
    requires x in Rewritten(m, bodies, q, c, del)
    ensures x in LookupOf(bodies, q)
  {
    var top := BelowHead(c, q);
    LookupAt(bodies, q, x);
    WriteRangeMeaning(m, bodies, q, c + 1, top, x);
    if x in bodies[q[|q| - 1]] {
      assert InBlock(bodies, q, |q| - 1, x);
    } else if !Between(bodies, q, c + 1, top, x) {
      LookupAt(bodies, p, x);
      var i := m[x];
      if i <= c {
        assert InBlock(bodies, q, i, x);
      }
    }
  }
}
