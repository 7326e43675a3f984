/** Which transactions the pool offers again when the chain moves to another branch. */
module PoolReset {
  import opened Options
  import opened BlockTree
  import opened TxIndex
  import opened Branches
  import opened BlockChain

  /** A deeper change of heads gives nothing back. */
  const MAX_DEPTH: nat := 64

  /** A reset that lacks blocks stops before it touches the pool. */
  datatype Found = Stuck | Ready(reinject: seq<TxHash>)

  /** The elements of a that are not in b, as often and in the order they are in a. */
  function Without(a: seq<TxHash>, b: seq<TxHash>): seq<TxHash> {
    if a == [] then []
    else
      var init, last := Without(a[..|a| - 1], b), a[|a| - 1];
      if last in b then init else init + [last]
  }

  lemma {:induction false} WithoutMember(a: seq<TxHash>, b: seq<TxHash>, x: TxHash)
    ensures x in Without(a, b) <==> x in a && x !in b
    ensures multiset(Without(a, b))[x] == if x in b then 0 else multiset(a)[x]
  {
    if a != [] {
      WithoutMember(a[..|a| - 1], b, x);
      assert a == a[..|a| - 1] + [a[|a| - 1]];
    }
  }

  method TxDifference(a: seq<TxHash>, b: seq<TxHash>) returns (keep: seq<TxHash>)
    ensures keep == Without(a, b)
  {
    keep := [];
    for i := 0 to |a|
      invariant keep == Without(a[..i], b)
    {
      assert a[..i + 1][..i] == a[..i];
      if a[i] !in b {
        keep := keep + [a[i]];
      }
    }
    assert a[..|a|] == a;
  }

  method CollectTxs(chain: seq<Block>) returns (txs: seq<TxHash>)
    ensures txs == AllTxs(chain)
  {
    txs := [];
    for i := 0 to |chain|
      invariant txs == AllTxs(chain[..i])
    {
      AllTxsExtends(chain[..i], chain[i]);
      assert chain[..i + 1] == chain[..i] + [chain[i]];
      txs := txs + chain[i].txs;
    }
    assert chain[..|chain|] == chain;
  }

  function Depth(a: Header, b: Header): nat {
    if a.number >= b.number then a.number - b.number else b.number - a.number
  }

  /** The heads part: there was one before, the new one is not its child, and they are
      not too far apart. */
  predicate Parts(oldHead: Option<Header>, newHead: Header) {
    oldHead.Some? && oldHead.value.hash != newHead.parent && Depth(oldHead.value, newHead) <= MAX_DEPTH
  }

  /** x is in a block of the branch. */
  ghost predicate OnChain(bodies: Bodies, p: seq<Hash>, x: TxHash)
    requires HasBodies(bodies, p)
  {
    exists i: nat :: InBlock(bodies, p, i, x)
  }

  /** What is above the fork on the old branch only is what is on the old branch only. */
  lemma {:induction false} AboveForkOnly(bodies: Bodies, p: seq<Hash>, q: seq<Hash>, c: nat, x: TxHash)
    requires HasBodies(bodies, p) && HasBodies(bodies, q) && Agree(p, q, c) && OncePerBranch(bodies, p)
    ensures Between(bodies, p, c + 1, |p|, x) && !Between(bodies, q, c + 1, |q|, x) <==>
            OnChain(bodies, p, x) && !OnChain(bodies, q, x)
  {
    if Between(bodies, p, c + 1, |p|, x) && !Between(bodies, q, c + 1, |q|, x) {
      var j: nat :| c + 1 <= j < |p| && InBlock(bodies, p, j, x);
      forall i: nat
        ensures !InBlock(bodies, q, i, x)
      {
        if i <= c {
          assert InBlock(bodies, q, i, x) ==> InBlock(bodies, p, i, x);
        }
      }
    }
    if OnChain(bodies, p, x) && !OnChain(bodies, q, x) {
      var j: nat :| InBlock(bodies, p, j, x);
      assert j <= c ==> InBlock(bodies, q, j, x);
    }
  }

  /** Both heads and their branches are stored. */
  ghost predicate Complete(s: State, genesis: Hash, oldHead: Header, newHead: Header) {
    && Rooted(s.headers, genesis) && s.bodies.Keys == s.headers.Keys
    && oldHead.hash in s.headers && s.headers[oldHead.hash] == oldHead
    && newHead.hash in s.headers && s.headers[newHead.hash] == newHead
  }

  lemma {:induction false} GivenBack(s: State, genesis: Hash, oldTop: Block, newTop: Block, f: Fork, x: TxHash)
    requires Complete(s, genesis, oldTop.header, newTop.header) && ForkOf(s.headers, s.bodies, f, oldTop, newTop)
    requires Stored(s.headers, s.bodies, oldTop) && Stored(s.headers, s.bodies, newTop)
    ensures var p, q := Path(s.headers, oldTop.header.hash), Path(s.headers, newTop.header.hash);
            && HasBodies(s.bodies, p) && HasBodies(s.bodies, q)
            && (OncePerBranch(s.bodies, p) ==>
                  (x in AllTxs(f.oldChain) && x !in AllTxs(f.newChain) <==>
                   OnChain(s.bodies, p, x) && !OnChain(s.bodies, q, x)))
  {
    var p, q := ForkBranches(s, oldTop, newTop, f);
    OnBranchTxs(s.bodies, f.oldChain, p, x);
    OnBranchTxs(s.bodies, f.newChain, q, x);
    if OncePerBranch(s.bodies, p) {
      AboveForkOnly(s.bodies, p, q, f.common.header.number, x);
    }
  }

  /** A child's branch holds all that its parent's does. */
  lemma {:induction false} ChildKeepsAll(s: State, genesis: Hash, oldHead: Header, newHead: Header)
    requires Complete(s, genesis, oldHead, newHead) && oldHead.hash == newHead.parent
    ensures var p, q := Path(s.headers, oldHead.hash), Path(s.headers, newHead.hash);
            && HasBodies(s.bodies, p) && HasBodies(s.bodies, q)
            && forall x :: OnChain(s.bodies, p, x) ==> OnChain(s.bodies, q, x)
  {
    var p, q := Path(s.headers, oldHead.hash), Path(s.headers, newHead.hash);
    BranchHasBodies(s.headers, s.bodies, oldHead.hash);
    BranchHasBodies(s.headers, s.bodies, newHead.hash);
    assert ParentOf(s.headers, newHead.hash) == oldHead.hash;
    assert q == p + [newHead.hash];
    forall x | OnChain(s.bodies, p, x)
      ensures OnChain(s.bodies, q, x)
    {
      var i: nat :| InBlock(s.bodies, p, i, x);
      assert InBlock(s.bodies, q, i, x);
    }
  }

  /** The heads part, but the old one is missing below the new one, or the two branches do
      not meet in the store. */
  ghost predicate Blocked(s: State, oldHead: Option<Header>, newHead: Header)
    requires newHead.hash in s.bodies
  {
    Parts(oldHead, newHead) &&
    match GetBlock(s.headers, s.bodies, oldHead.value.hash, oldHead.value.number)
    case None => newHead.number >= oldHead.value.number
    case Some(top) => !Forks(s.headers, s.bodies, top, Block(newHead, s.bodies[newHead.hash]))
  }

  /** What is given back: from the old head down, what is above the fork on the old branch
      only, or nothing if the heads do not part or the old one is missing. */
  ghost predicate GivesBack(s: State, oldHead: Option<Header>, newHead: Header, f: Fork, txs: seq<TxHash>)
    requires newHead.hash in s.bodies
  {
    if Parts(oldHead, newHead) && GetBlock(s.headers, s.bodies, oldHead.value.hash, oldHead.value.number).Some? then
      var top := GetBlock(s.headers, s.bodies, oldHead.value.hash, oldHead.value.number).value;
      && ForkOf(s.headers, s.bodies, f, top, Block(newHead, s.bodies[newHead.hash]))
      && txs == Without(AllTxs(f.oldChain), AllTxs(f.newChain))
    else txs == []
  }

  /** Walks both branches down to where they meet and gives back what only the old one
      holds above it, from the old head down. It gets stuck exactly if the walk is
      blocked. Over a complete store and heads at most 64 apart it is not, and if the old
      branch repeats no transaction it gives back exactly what is on the old branch and not
      on the new one. Without an old head, or further apart, it gives nothing back. */
  method Reinjected(s: State, ghost genesis: Hash, oldHead: Option<Header>, newHead: Header)
    returns (r: Found, ghost f: Fork)
    requires Keyed(s.headers) && newHead.hash in s.headers && s.headers[newHead.hash] == newHead
             && newHead.hash in s.bodies
    ensures r.Stuck? <==> Blocked(s, oldHead, newHead)
    ensures r.Ready? ==> GivesBack(s, oldHead, newHead, f, r.reinject)
    ensures oldHead.None? || !(oldHead.value.number - 64 <= newHead.number <= oldHead.value.number + 64) ==>
              r == Ready([])
    ensures oldHead.Some? && oldHead.value.number - 64 <= newHead.number <= oldHead.value.number + 64
            && Complete(s, genesis, oldHead.value, newHead) ==>
              var p, q := Path(s.headers, oldHead.value.hash), Path(s.headers, newHead.hash);
              && r.Ready? && HasBodies(s.bodies, p) && HasBodies(s.bodies, q)
              && (OncePerBranch(s.bodies, p) ==>
                    forall x :: x in r.reinject <==> OnChain(s.bodies, p, x) && !OnChain(s.bodies, q, x))
  {
    f := Broken(InvalidOldChain);
    if !Parts(oldHead, newHead) {
      if oldHead.Some? && oldHead.value.hash == newHead.parent && Complete(s, genesis, oldHead.value, newHead) {
        ChildKeepsAll(s, genesis, oldHead.value, newHead);
      }
      return Ready([]), f;
    }
    var rem := GetBlock(s.headers, s.bodies, oldHead.value.hash, oldHead.value.number);
    if rem.None? {
      return if newHead.number >= oldHead.value.number then Stuck else Ready([]), f;
    }
    var add := Block(newHead, s.bodies[newHead.hash]);
    var fork := FindFork(s.headers, s.bodies, genesis, rem.value, add);
    f := fork;
    if fork.Broken? {
      return Stuck, f;
    }
    var included := CollectTxs(fork.newChain);
    var reinject := TxDifference(fork.deleted, included);
    r := Ready(reinject);
    if Complete(s, genesis, oldHead.value, newHead) {
      AllGivenBack(s, genesis, rem.value, add, fork);
      forall x
        ensures x in reinject <==> x in AllTxs(fork.oldChain) && x !in AllTxs(fork.newChain)
      {
        WithoutMember(AllTxs(fork.oldChain), AllTxs(fork.newChain), x);
      }
    }
  }

  lemma {:induction false} AllGivenBack(s: State, genesis: Hash, oldTop: Block, newTop: Block, f: Fork)
    requires Complete(s, genesis, oldTop.header, newTop.header) && ForkOf(s.headers, s.bodies, f, oldTop, newTop)
    requires Stored(s.headers, s.bodies, oldTop) && Stored(s.headers, s.bodies, newTop)
    ensures var p, q := Path(s.headers, oldTop.header.hash), Path(s.headers, newTop.header.hash);
            && HasBodies(s.bodies, p) && HasBodies(s.bodies, q)
            && (OncePerBranch(s.bodies, p) ==>
                  forall x ::
                    x in AllTxs(f.oldChain) && x !in AllTxs(f.newChain) <==>
                    OnChain(s.bodies, p, x) && !OnChain(s.bodies, q, x))
  {
    var p, q := ForkBranches(s, oldTop, newTop, f);
    if OncePerBranch(s.bodies, p) {
      forall x
        ensures x in AllTxs(f.oldChain) && x !in AllTxs(f.newChain) <==>
                OnChain(s.bodies, p, x) && !OnChain(s.bodies, q, x)
      {
        GivenBack(s, genesis, oldTop, newTop, f, x);
      }
    }
  }
}
