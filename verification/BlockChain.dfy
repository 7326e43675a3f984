/** The block chain database: block store, canonical number index, transaction
    lookup index and head markers, with the steps that move the head. */
module BlockChain {
  import opened Options
  import opened BlockTree
  import opened TxIndex
  import opened ForkChoice
  import opened Branches

  /** Everything the database holds, as a value. */
  datatype State = State(headers: Tree, bodies: Bodies, td: map<Hash, nat>,
                         canon: map<nat, Hash>, lookup: map<TxHash, nat>, head: Hash)

  datatype Error = UnknownAncestor | NoTd | InvalidOldChain | InvalidNewChain | DeepReorg

  datatype Status = Canon | Side | Failed(error: Error)

  datatype Fork =
    | Fork(oldChain: seq<Block>, newChain: seq<Block>, deleted: seq<TxHash>, common: Block)
    | Broken(error: Error)

  // ---------------------------------------------------------------- invariant

  ghost predicate Stored(headers: Tree, bodies: Bodies, b: Block) {
    var h := b.header.hash;
    h in headers && headers[h] == b.header && h in bodies && bodies[h] == b.txs
  }

  /** The block store: a rooted tree with bodies and total difficulties. */
  ghost predicate StoreSound(s: State, genesis: Hash) {
    && Rooted(s.headers, genesis)
    && s.bodies.Keys == s.headers.Keys && TdSound(s.headers, s.td)
  }

  /** The canonical index is exactly the head's branch: each number up to the
      head's maps to the ancestor there, and nothing is mapped above it. */
  ghost predicate Sound(s: State, genesis: Hash) {
    && StoreSound(s, genesis)
    && s.head in s.headers
    && s.canon == IndexOf(Path(s.headers, s.head))
  }

  lemma {:induction false} BranchHasBodies(headers: Tree, bodies: Bodies, h: Hash)
    requires Closed(headers) && bodies.Keys == headers.Keys && h in headers
    ensures HasBodies(bodies, Path(headers, h))
  {
    forall i | 0 <= i < |Path(headers, h)|
      ensures Path(headers, h)[i] in bodies
    {
      PathAt(headers, h, i);
    }
  }

  ghost predicate BranchOnce(s: State, h: Hash)
    requires Closed(s.headers) && s.bodies.Keys == s.headers.Keys && h in s.headers
  {
    BranchHasBodies(s.headers, s.bodies, h);
    OncePerBranch(s.bodies, Path(s.headers, h))
  }

  /** The lookup index is exactly {transaction -> number of its canonical block}. */
  ghost predicate LookupSound(s: State)
    requires Closed(s.headers) && s.bodies.Keys == s.headers.Keys && s.head in s.headers
  {
    BranchHasBodies(s.headers, s.bodies, s.head);
    s.lookup == LookupOf(s.bodies, Path(s.headers, s.head))
  }

  // -------------------------------------------------------------------- steps

  /** The reorganisation-depth cap, said without the walk: while the head is an
      authority block, the new branch must contain the ancestor D below the head. */
  ghost predicate DepthAllowed(cfg: Config, s: State, h: Hash)
    requires Closed(s.headers) && s.head in s.headers && h in s.headers
  {
    var n := s.headers[s.head].number;
    cfg.maxReorgDepth > 0 && IsPosa(cfg, n) && n - cfg.maxReorgDepth >= 0 ==>
      Agree(Path(s.headers, s.head), Path(s.headers, h), n - cfg.maxReorgDepth)
  }

  /** What holds of a block offered for import: its hash identifies it. */
  ghost predicate Importable(s: State, b: Block) {
    && b.header.hash != NO_HASH
    && (b.header.hash in s.headers ==> Stored(s.headers, s.bodies, b))
  }

  predicate ParentKnown(s: State, b: Block) {
    && b.header.number > 0 && b.header.parent in s.headers && b.header.parent in s.td
    && s.headers[b.header.parent].number == b.header.number - 1
  }

  /** The state with block b stored; no index moves. */
  function WithBlock(s: State, b: Block): (s': State)
    requires ParentKnown(s, b)
  {
    s.(headers := s.headers[b.header.hash := b.header],
       bodies := s.bodies[b.header.hash := b.txs],
       td := s.td[b.header.hash := s.td[b.header.parent] + b.header.difficulty])
  }

  /** The head moved to the stored block h and both indexes describe its branch. */
  ghost predicate MoveStep(cfg: Config, s: State, s': State, h: Hash)
    requires Closed(s.headers) && s.bodies.Keys == s.headers.Keys && s.head in s.headers
  {
    && h in s.headers
    && DepthAllowed(cfg, s, h)
    && s'.headers == s.headers && s'.bodies == s.bodies && s'.td == s.td && s'.head == h
    && s'.canon == IndexOf(Path(s.headers, h))
    && (LookupSound(s) && BranchOnce(s, s.head) && BranchOnce(s, h) ==> LookupSound(s'))
  }

  // ------------------------------------------------------------ linked chains

  /** chain runs from top (included) down to base (excluded), parent by parent. */
  ghost predicate Linked(headers: Tree, bodies: Bodies, chain: seq<Block>, top: Block, base: Block) {
    && top.header.number == base.header.number + |chain|
    && (forall i | 0 <= i < |chain| ::
          Stored(headers, bodies, chain[i]) && chain[i].header.number == top.header.number - i)
    && (forall i: nat {:trigger LinkAt(chain, base, i)} | i < |chain| :: LinkAt(chain, base, i))
    && (if chain == [] then base else chain[0]) == top
  }

  ghost predicate LinkAt(chain: seq<Block>, base: Block, i: nat)
    requires i < |chain|
  {
    chain[i].header.parent == (if i + 1 < |chain| then chain[i + 1] else base).header.hash
  }

  lemma {:induction false} LinkedExtends(headers: Tree, bodies: Bodies, chain: seq<Block>, top: Block, base: Block,
                                         next: Block)
    requires Linked(headers, bodies, chain, top, base) && Stored(headers, bodies, base)
    requires base.header.number == next.header.number + 1 && base.header.parent == next.header.hash
    ensures Linked(headers, bodies, chain + [base], top, next)
  {
    var chain' := chain + [base];
    forall i: nat | i < |chain'|
      ensures LinkAt(chain', next, i)
    {
      if i < |chain| {
        assert LinkAt(chain, base, i);
      }
    }
  }

  lemma {:induction false} LinkedPath(headers: Tree, bodies: Bodies, chain: seq<Block>, top: Block, base: Block, i: nat)
    requires Closed(headers) && Linked(headers, bodies, chain, top, base)
    requires Stored(headers, bodies, top) && i <= |chain|
    ensures Path(headers, top.header.hash)[top.header.number - i] == (if i < |chain| then chain[i]
            else base).header.hash
  {
    if i > 0 {
      LinkedPath(headers, bodies, chain, top, base, i - 1);
      PathParent(headers, top.header.hash, top.header.number - (i - 1));
      assert LinkAt(chain, base, i - 1);
    }
  }

  lemma {:induction false} LinkedOnBranch(headers: Tree, bodies: Bodies, chain: seq<Block>, top: Block, base: Block)
    requires Closed(headers) && Linked(headers, bodies, chain, top, base) && Stored(headers, bodies, top)
    ensures OnBranch(bodies, chain, Path(headers, top.header.hash))
  {
    var q := Path(headers, top.header.hash);
    forall i | 0 <= i < |chain|
      ensures IsAt(bodies, chain[i], q, |q| - 1 - i)
    {
      LinkedPath(headers, bodies, chain, top, base, i);
    }
  }

  lemma {:induction false} BranchNonZero(headers: Tree, h: Hash)
    requires Closed(headers) && h in headers
    ensures NonZero(Path(headers, h))
  {
    forall i | 0 <= i < |Path(headers, h)|
      ensures Path(headers, h)[i] != NO_HASH
    {
      PathAt(headers, h, i);
    }
  }

  ghost predicate ForkOf(headers: Tree, bodies: Bodies, f: Fork, oldTop: Block, newTop: Block) {
    && f.Fork? && Stored(headers, bodies, f.common)
    && Linked(headers, bodies, f.oldChain, oldTop, f.common)
    && Linked(headers, bodies, f.newChain, newTop, f.common)
    && f.deleted == AllTxs(f.oldChain)
    && (f.oldChain != [] && f.newChain != [] ==>
          f.oldChain[|f.oldChain| - 1].header.hash != f.newChain[|f.newChain| - 1].header.hash)
  }

  /** The block where the descents meet is the last one the two branches share. */
  lemma {:induction false} ForkIsLastShared(headers: Tree, bodies: Bodies, f: Fork, oldTop: Block, newTop: Block,
                                            k: nat)
    requires Closed(headers) && Stored(headers, bodies, oldTop) && Stored(headers, bodies, newTop)
    requires ForkOf(headers, bodies, f, oldTop, newTop)
    ensures Agree(Path(headers, oldTop.header.hash), Path(headers, newTop.header.hash), k) <==>
              k <= f.common.header.number
  {
    var p, q, c := Path(headers, oldTop.header.hash), Path(headers, newTop.header.hash), f.common.header.number;
    LinkedPath(headers, bodies, f.oldChain, oldTop, f.common, |f.oldChain|);
    LinkedPath(headers, bodies, f.newChain, newTop, f.common, |f.newChain|);
    PathsMeet(headers, oldTop.header.hash, newTop.header.hash, c);
    assert Agree(p, q, c) by {
      assert forall i | 0 <= i <= c :: p[i] == p[..c + 1][i] == q[..c + 1][i] == q[i];
    }
    if f.oldChain != [] && f.newChain != [] {
      LinkedPath(headers, bodies, f.oldChain, oldTop, f.common, |f.oldChain| - 1);
      LinkedPath(headers, bodies, f.newChain, newTop, f.common, |f.newChain| - 1);
      assert p[c + 1] != q[c + 1];
    }
  }

  /** The cap on the number of dropped blocks is the cap on where the branches part. */
  lemma {:induction false} DepthMeaning(cfg: Config, s: State, oldTop: Block, newTop: Block, f: Fork)
    requires Closed(s.headers) && Stored(s.headers, s.bodies, oldTop) && Stored(s.headers, s.bodies, newTop)
    requires s.head == oldTop.header.hash && ForkOf(s.headers, s.bodies, f, oldTop, newTop)
    ensures DepthAllowed(cfg, s, newTop.header.hash) <==>
            !(cfg.maxReorgDepth > 0 && |f.oldChain| > cfg.maxReorgDepth && IsPosa(cfg, f.oldChain[0].header.number))
  {
    var n := oldTop.header.number;
    if cfg.maxReorgDepth > 0 && n - cfg.maxReorgDepth >= 0 {
      ForkIsLastShared(s.headers, s.bodies, f, oldTop, newTop, n - cfg.maxReorgDepth);
    }
  }

  /** Both indexes are one head write away from describing the branch of h. */
  ghost predicate Moved(s: State, h: Hash, canon: map<nat, Hash>, lookup: map<TxHash, nat>)
    requires Closed(s.headers) && s.bodies.Keys == s.headers.Keys && s.head in s.headers && h in s.headers
  {
    BranchHasBodies(s.headers, s.bodies, s.head);
    BranchHasBodies(s.headers, s.bodies, h);
    && CanonReady(Path(s.headers, h), canon)
    && LookupReady(s.bodies, Path(s.headers, s.head), Path(s.headers, h), s.lookup, lookup)
  }

  lemma {:induction false} ForkBranches(s: State, oldTop: Block, newTop: Block, f: Fork)
    returns (p: seq<Hash>, q: seq<Hash>)
    requires Closed(s.headers) && s.bodies.Keys == s.headers.Keys
    requires Stored(s.headers, s.bodies, oldTop) && Stored(s.headers, s.bodies, newTop)
    requires ForkOf(s.headers, s.bodies, f, oldTop, newTop)
    ensures p == Path(s.headers, oldTop.header.hash) && q == Path(s.headers, newTop.header.hash)
    ensures HasBodies(s.bodies, p) && HasBodies(s.bodies, q) && NonZero(p) && NonZero(q)
    ensures Agree(p, q, f.common.header.number)
    ensures OnBranch(s.bodies, f.oldChain, p) && |p| - |f.oldChain| == f.common.header.number + 1
    ensures OnBranch(s.bodies, f.newChain, q) && |q| - |f.newChain| == f.common.header.number + 1
  {
    p, q := Path(s.headers, oldTop.header.hash), Path(s.headers, newTop.header.hash);
    BranchHasBodies(s.headers, s.bodies, oldTop.header.hash);
    BranchHasBodies(s.headers, s.bodies, newTop.header.hash);
    BranchNonZero(s.headers, oldTop.header.hash);
    BranchNonZero(s.headers, newTop.header.hash);
    ForkIsLastShared(s.headers, s.bodies, f, oldTop, newTop, f.common.header.number);
    LinkedOnBranch(s.headers, s.bodies, f.oldChain, oldTop, f.common);
    LinkedOnBranch(s.headers, s.bodies, f.newChain, newTop, f.common);
  }

  lemma {:induction false} ExtensionReady(cfg: Config, s: State, b: Block)
    requires Closed(s.headers) && s.bodies.Keys == s.headers.Keys && s.head in s.headers
    requires s.canon == IndexOf(Path(s.headers, s.head))
    requires Stored(s.headers, s.bodies, b) && b.header.parent == s.head && 0 < b.header.number
    ensures DepthAllowed(cfg, s, b.header.hash)
    ensures Moved(s, b.header.hash, s.canon, s.lookup)
  {
    var p, q := Path(s.headers, s.head), Path(s.headers, b.header.hash);
    assert q == p + [b.header.hash];
    assert q[..|q| - 1] == p;
  }

  lemma {:induction false} HeadWritten(cfg: Config, s: State, b: Block, canon: map<nat, Hash>,
                                       lookup: map<TxHash, nat>, s': State)
    requires Closed(s.headers) && s.bodies.Keys == s.headers.Keys && s.head in s.headers
    requires Stored(s.headers, s.bodies, b) && DepthAllowed(cfg, s, b.header.hash)
    requires Moved(s, b.header.hash, canon, lookup)
    requires s'.headers == s.headers && s'.bodies == s.bodies && s'.td == s.td && s'.head == b.header.hash
    requires s'.canon == canon[b.header.number := b.header.hash]
    requires s'.lookup == WithEntries(lookup, b.txs, b.header.number)
    ensures MoveStep(cfg, s, s', b.header.hash)
  {
    var p, q := Path(s.headers, s.head), Path(s.headers, b.header.hash);
    BranchHasBodies(s.headers, s.bodies, s.head);
    BranchHasBodies(s.headers, s.bodies, b.header.hash);
    HeadEntries(s.bodies, p, q, s.lookup, lookup, b);
    assert Path(s'.headers, s'.head) == q;
  }

  lemma {:induction false} HeadEntries(bodies: Bodies, p: seq<Hash>, q: seq<Hash>, m: map<TxHash, nat>,
                                       lookup: map<TxHash, nat>, b: Block)
    requires HasBodies(bodies, p) && HasBodies(bodies, q) && q != [] && LookupReady(bodies, p, q, m, lookup)
    requires b.header.number == |q| - 1 && b.txs == bodies[q[|q| - 1]]
    ensures m == LookupOf(bodies, p) && OncePerBranch(bodies, p) && OncePerBranch(bodies, q) ==>
              WithEntries(lookup, b.txs, b.header.number) == LookupOf(bodies, q)
  {
  }

  /** Storing a block keeps the tree rooted, the difficulties right and the indexes exact. */
  lemma {:induction false} WithBlockSound(s: State, genesis: Hash, b: Block, s': State)
    requires Sound(s, genesis) && Importable(s, b) && ParentKnown(s, b) && s' == WithBlock(s, b)
    ensures Sound(s', genesis) && Extends(s.headers, s'.headers)
  {
    TreeGrows(s.headers, genesis, b.header, s'.headers);
    WorkStored(s.headers, s.td, genesis, b.header, s'.headers, s'.td);
    PathGrows(s.headers, s'.headers, s.head);
  }

  /** The fork choice between the current head and a stored block. */
  ghost predicate Chosen(cfg: Config, s: State, b: Block, coin: bool) {
    && s.head in s.headers && s.head in s.td && b.header.hash in s.td
    && ReorgNeeded(cfg, Some(s.td[s.head]), Some(s.td[b.header.hash]), s.headers[s.head], b.header, coin) ==
        Decided(true)
  }

  /** What one import of a block does, by status. */
  ghost predicate ImportStep(cfg: Config, s: State, s': State, b: Block, coin: bool, status: Status)
    requires Closed(s.headers) && s.bodies.Keys == s.headers.Keys && s.head in s.headers
  {
    if !ParentKnown(s, b) then status == Failed(UnknownAncestor) && s' == s
    else
      var m := WithBlock(s, b);
      && Closed(m.headers) && m.bodies.Keys == m.headers.Keys && b.header.hash in m.headers
      && (match status
          case Side => !Chosen(cfg, m, b, coin) && s' == m
          case Canon => Chosen(cfg, m, b, coin) && MoveStep(cfg, m, s', b.header.hash)
          case Failed(e) =>
            e == DeepReorg && Chosen(cfg, m, b, coin) && !DepthAllowed(cfg, m, b.header.hash) && s' == m)
  }

  // ------------------------------------------------------------- finding the fork

  function GetBlock(headers: Tree, bodies: Bodies, hash: Hash, number: nat): (b: Option<Block>)
  {
    if hash in bodies && GetHeader(headers, hash, number).Some? then Some(Block(headers[hash], bodies[hash])) else None
  }

  function Parent(headers: Tree, bodies: Bodies, b: Block): (p: Option<Block>)
    ensures Keyed(headers) && p.Some? ==>
              && Stored(headers, bodies, p.value)
              && b.header.parent == p.value.header.hash && b.header.number == p.value.header.number + 1
    ensures Closed(headers) && bodies.Keys == headers.Keys && Stored(headers, bodies, b) && b.header.number > 0 ==>
              p.Some?
  {
    assert b.header.hash in headers && Stored(headers, bodies, b) ==>
        ParentOf(headers, b.header.hash) == b.header.parent;
    if b.header.number == 0 then None else GetBlock(headers, bodies, b.header.parent, b.header.number - 1)
  }

  /** There is one way down from a block. */
  lemma {:induction false} LinkedAgree(headers: Tree, bodies: Bodies, top: Block, chain: seq<Block>, base: Block,
                                       way: seq<Block>, end: Block, i: nat)
    requires Linked(headers, bodies, chain, top, base) && Stored(headers, bodies, base)
    requires Linked(headers, bodies, way, top, end) && Stored(headers, bodies, end) && i <= |chain| && i <= |way|
    ensures (if i < |chain| then chain[i] else base) == (if i < |way| then way[i] else end)
  {
    if i > 0 {
      LinkedAgree(headers, bodies, top, chain, base, way, end, i - 1);
      assert LinkAt(chain, base, i - 1) && LinkAt(way, end, i - 1);
    }
  }

  /** If a way down goes further, the next block is there. */
  lemma {:induction false} ParentThere(headers: Tree, bodies: Bodies, top: Block, chain: seq<Block>, base: Block,
                                       way: seq<Block>, end: Block)
    requires Linked(headers, bodies, chain, top, base) && Stored(headers, bodies, base)
    requires Linked(headers, bodies, way, top, end) && Stored(headers, bodies, end)
    requires end.header.number < base.header.number
    ensures Parent(headers, bodies, base).Some?
  {
    LinkedAgree(headers, bodies, top, chain, base, way, end, |chain|);
    assert LinkAt(way, end, |chain|);
  }

  /** Walks down from top to a number, collecting the blocks and their transactions. It
      succeeds if there is a way down. */
  method Descend(headers: Tree, bodies: Bodies, top: Block, number: nat, ghost known: bool, ghost way: seq<Block>,
                 ghost end: Block)
    returns (ok: bool, chain: seq<Block>, txs: seq<TxHash>, block: Block)
    requires Keyed(headers) && Stored(headers, bodies, top)
    requires known ==> Linked(headers, bodies, way, top, end) && Stored(headers, bodies, end)
                       && end.header.number <= number
    ensures ok ==> Stored(headers, bodies, block) && Linked(headers, bodies, chain, top, block) && txs == AllTxs(chain)
    ensures ok ==> block.header.number == if top.header.number > number then number else top.header.number
    ensures !ok ==> !(Closed(headers) && bodies.Keys == headers.Keys) && !known
  {
    chain, txs, block := [], [], top;
    while block.header.number > number
      invariant Stored(headers, bodies, block) && Linked(headers, bodies, chain, top, block) && txs == AllTxs(chain)
      invariant top.header.number > number ==> block.header.number >= number
      invariant top.header.number <= number ==> block == top
      decreases block.header.number
    {
      if known {
        ParentThere(headers, bodies, top, chain, block, way, end);
      }
      var p := Parent(headers, bodies, block);
      if p.None? {
        ok := false;
        return;
      }
      AllTxsExtends(chain, block);
      LinkedExtends(headers, bodies, chain, top, block, p.value);
      chain, txs, block := chain + [block], txs + block.txs, p.value;
    }
    ok := true;
  }

  ghost predicate Forks(headers: Tree, bodies: Bodies, oldTop: Block, newTop: Block) {
    exists f :: ForkOf(headers, bodies, f, oldTop, newTop)
  }

  /** Two blocks of the same number that differ lie above the fork. */
  lemma {:induction false} AboveFork(headers: Tree, bodies: Bodies, oldTop: Block, newTop: Block, f: Fork,
                                     oldChain: seq<Block>, oldBlock: Block, newChain: seq<Block>, newBlock: Block)
    requires ForkOf(headers, bodies, f, oldTop, newTop)
    requires Linked(headers, bodies, oldChain, oldTop, oldBlock) && Stored(headers, bodies, oldBlock)
    requires Linked(headers, bodies, newChain, newTop, newBlock) && Stored(headers, bodies, newBlock)
    requires f.common.header.number <= oldBlock.header.number == newBlock.header.number
    requires oldBlock.header.hash != newBlock.header.hash
    ensures f.common.header.number < oldBlock.header.number
    ensures Parent(headers, bodies, oldBlock).Some? && Parent(headers, bodies, newBlock).Some?
  {
    if f.common.header.number == oldBlock.header.number {
      LinkedAgree(headers, bodies, oldTop, oldChain, oldBlock, f.oldChain, f.common, |oldChain|);
      LinkedAgree(headers, bodies, newTop, newChain, newBlock, f.newChain, f.common, |newChain|);
    } else {
      ParentThere(headers, bodies, oldTop, oldChain, oldBlock, f.oldChain, f.common);
      ParentThere(headers, bodies, newTop, newChain, newBlock, f.newChain, f.common);
    }
  }

  /** Both descents in step, until they meet. */
  method Meet(headers: Tree, bodies: Bodies, ghost genesis: Hash, oldTop: Block, newTop: Block, oldStart: seq<Block>,
              oldFirst: Block, newStart: seq<Block>, newFirst: Block, dropped: seq<TxHash>, ghost known: bool,
              ghost g: Fork)
    returns (f: Fork)
    requires Keyed(headers) && oldFirst.header.number == newFirst.header.number && dropped == AllTxs(oldStart)
    requires Stored(headers, bodies, oldFirst) && Linked(headers, bodies, oldStart, oldTop, oldFirst)
    requires Stored(headers, bodies, newFirst) && Linked(headers, bodies, newStart, newTop, newFirst)
    requires oldStart == [] || newStart == []
    requires known ==> ForkOf(headers, bodies, g, oldTop, newTop) && g.common.header.number <= oldFirst.header.number
    ensures f.Broken? ==> !(Rooted(headers, genesis) && bodies.Keys == headers.Keys) && !known
    ensures f.Fork? ==> ForkOf(headers, bodies, f, oldTop, newTop)
  {
    var oldChain, oldBlock, newChain, newBlock, deleted := oldStart, oldFirst, newStart, newFirst, dropped;
    while oldBlock.header.hash != newBlock.header.hash
      invariant oldBlock.header.number == newBlock.header.number
      invariant Stored(headers, bodies, oldBlock) && Linked(headers, bodies, oldChain, oldTop, oldBlock)
      invariant Stored(headers, bodies, newBlock) && Linked(headers, bodies, newChain, newTop, newBlock)
      invariant deleted == AllTxs(oldChain)
      invariant oldChain != [] && newChain != [] ==>
                  oldChain[|oldChain| - 1].header.hash != newChain[|newChain| - 1].header.hash
      invariant known ==> g.common.header.number <= oldBlock.header.number
      decreases oldBlock.header.number
    {
      if known {
        AboveFork(headers, bodies, oldTop, newTop, g, oldChain, oldBlock, newChain, newBlock);
      }
      var p := Parent(headers, bodies, oldBlock);
      if p.None? {
        return Broken(InvalidOldChain);
      }
      var q := Parent(headers, bodies, newBlock);
      if q.None? {
        return Broken(InvalidNewChain);
      }
      AllTxsExtends(oldChain, oldBlock);
      LinkedExtends(headers, bodies, oldChain, oldTop, oldBlock, p.value);
      LinkedExtends(headers, bodies, newChain, newTop, newBlock, q.value);
      oldChain, deleted, oldBlock := oldChain + [oldBlock], deleted + oldBlock.txs, p.value;
      newChain, newBlock := newChain + [newBlock], q.value;
    }
    f := Fork(oldChain, newChain, deleted, oldBlock);
  }

  /** The two descents of the reorganisation: first the longer branch alone, then
      both in step, until they meet. They do exactly if the branches fork in the store. */
  method FindFork(headers: Tree, bodies: Bodies, ghost genesis: Hash, oldTop: Block, newTop: Block) returns (f: Fork)
    requires Keyed(headers) && Stored(headers, bodies, oldTop) && Stored(headers, bodies, newTop)
    ensures f.Broken? ==> !(Rooted(headers, genesis) && bodies.Keys == headers.Keys)
    ensures f.Fork? ==> ForkOf(headers, bodies, f, oldTop, newTop)
    ensures f.Fork? <==> Forks(headers, bodies, oldTop, newTop)
  {
    ghost var known, g := Forks(headers, bodies, oldTop, newTop), Fork([], [], [], oldTop);
    if known {
      g :| ForkOf(headers, bodies, g, oldTop, newTop);
    }
    var okOld, oldChain, deleted, oldBlock :=
      Descend(headers, bodies, oldTop, newTop.header.number, known, g.oldChain, g.common);
    if !okOld {
      return Broken(InvalidOldChain);
    }
    var okNew, newChain, _, newBlock :=
      Descend(headers, bodies, newTop, oldBlock.header.number, known, g.newChain, g.common);
    if !okNew {
      return Broken(InvalidNewChain);
    }
    f := Meet(headers, bodies, genesis, oldTop, newTop, oldChain, oldBlock, newChain, newBlock, deleted, known, g);
  }

  class Chain {
    const cfg: Config
    const genesis: Hash
    // The database.
    var headers: Tree
    var bodies: Bodies
    var td: map<Hash, nat>
    var canon: map<nat, Hash>
    var lookup: map<TxHash, nat>
    var headHeaderHash: Hash
    var headFastBlockHash: Hash
    var headBlockHash: Hash
    // The in-memory markers.
    var currentBlock: Block
    var currentFastBlock: Block
    var currentHeader: Header

    ghost function View(): State
      reads this
    {
      State(headers, bodies, td, canon, lookup, currentBlock.header.hash)
    }

    ghost predicate MarkersAt(b: Block)
      reads this
    {
      && headHeaderHash == headFastBlockHash == headBlockHash == b.header.hash
      && currentBlock == currentFastBlock == b && currentHeader == b.header
    }

    ghost predicate Valid()
      reads this
    {
      && Sound(View(), genesis)
      && Stored(headers, bodies, currentBlock)
      && MarkersAt(currentBlock)
    }

    /** A fresh database holding the genesis block. */
    constructor (cfg: Config, g: Block)
      requires g.header.number == 0 && g.header.hash != NO_HASH && g.header.parent == NO_HASH && g.txs == []
      ensures Valid() && this.cfg == cfg && genesis == g.header.hash
      ensures currentBlock == g && headers == map[g.header.hash := g.header] && LookupSound(View())
    {
      this.cfg, genesis := cfg, g.header.hash;
      headers, bodies := map[g.header.hash := g.header], map[g.header.hash := g.txs];
      td, canon, lookup := map[g.header.hash := g.header.difficulty], map[0 := g.header.hash], map[];
      headHeaderHash, headFastBlockHash, headBlockHash := g.header.hash, g.header.hash, g.header.hash;
      currentBlock, currentFastBlock, currentHeader := g, g, g.header;
    }

    /** Marks one block canonical: number, transactions and every head marker. */
    method WriteHeadBlock(b: Block)
      modifies this
      ensures headers == old(headers) && bodies == old(bodies) && td == old(td)
      ensures canon == old(canon)[b.header.number := b.header.hash]
      ensures lookup == WithEntries(old(lookup), b.txs, b.header.number)
      ensures MarkersAt(b)
    {
      headHeaderHash, headFastBlockHash := b.header.hash, b.header.hash;
      canon := canon[b.header.number := b.header.hash];
      lookup := WithEntries(lookup, b.txs, b.header.number);
      headBlockHash := b.header.hash;
      currentHeader, currentFastBlock, currentBlock := b.header, b, b;
    }

    /** Writes the adopted blocks below the new head, oldest first. */
    method WriteBelowHead(newChain: seq<Block>, ghost q: seq<Hash>) returns (added: seq<TxHash>)
      requires HasBodies(bodies, q) && OnBranch(bodies, newChain, q)
      modifies this
      ensures headers == old(headers) && bodies == old(bodies) && td == old(td)
      ensures var c := |q| - 1 - |newChain|;
              Written(old(canon), old(lookup), bodies, q, c + 1, BelowHead(c, q), canon, lookup, added)
    {
      added := [];
      ghost var lo, at := |q| - |newChain|, |q| - |newChain|;
      WrittenNothing(canon, lookup, bodies, q, lo);
      var i := |newChain| - 1;
      while i >= 1
        invariant i < |newChain| && (newChain != [] ==> 0 <= i && at == |q| - 1 - i) && (newChain == [] ==> at == lo)
        invariant headers == old(headers) && bodies == old(bodies) && td == old(td)
        invariant Written(old(canon), old(lookup), bodies, q, lo, at, canon, lookup, added)
      {
        ghost var was := (canon, lookup, added);
        WriteHeadBlock(newChain[i]);
        added := added + newChain[i].txs;
        WrittenOne(old(canon), old(lookup), bodies, q, lo, at, was, canon, lookup, added, newChain[i]);
        i, at := i - 1, at + 1;
      }
    }

    /** The index writes and deletions of a reorganisation along a known fork of
        the branches p and q. */
    method Rewrite(f: Fork, ghost p: seq<Hash>, ghost q: seq<Hash>)
      requires f.Fork? && HasBodies(bodies, p) && HasBodies(bodies, q) && NonZero(p) && NonZero(q)
      requires Agree(p, q, f.common.header.number) && f.deleted == AllTxs(f.oldChain)
      requires OnBranch(bodies, f.oldChain, p) && |p| - |f.oldChain| == f.common.header.number + 1
      requires OnBranch(bodies, f.newChain, q) && |q| - |f.newChain| == f.common.header.number + 1
      requires canon == IndexOf(p)
      modifies this
      ensures headers == old(headers) && bodies == old(bodies) && td == old(td)
      ensures CanonReady(q, canon) && LookupReady(bodies, p, q, old(lookup), lookup)
    {
      ghost var c := f.common.header.number;
      var added := WriteBelowHead(f.newChain, q);
      var number := if |f.newChain| > 1 then f.newChain[1].header.number else f.common.header.number;
      assert number + 1 == BelowHead(c, q) by {
        if |f.newChain| > 1 { assert IsAt(bodies, f.newChain[1], q, |q| - 2); }
      }
      OverlayHashes(p, q, c + 1, number + 1);
      var marks, gap := ScanAbove(canon, number);
      CanonAfter(p, q, c, canon, marks, gap);
      var del := set x | x in f.deleted && x !in added;
      LookupAfter(bodies, p, q, c, f.oldChain, old(lookup), added, del);
      lookup := lookup - del;
      canon := canon - marks;
    }

    /** Moves the indexes from the current branch to the one of newTop, all but
        newTop itself, which the caller writes. A refused reorganisation changes
        nothing. */
    method Reorg(newTop: Block) returns (err: Option<Error>)
      requires Valid() && Stored(headers, bodies, newTop)
      modifies this
      ensures headers == old(headers) && bodies == old(bodies) && td == old(td)
      ensures err == if old(DepthAllowed(cfg, View(), newTop.header.hash)) then None else Some(DeepReorg)
      ensures err.Some? ==> View() == old(View()) && Valid() && currentBlock == old(currentBlock)
      ensures err.None? ==> Moved(old(View()), newTop.header.hash, canon, lookup)
    {
      var f := FindFork(headers, bodies, genesis, currentBlock, newTop);
      if f.Broken? {
        assert false;  // the store is closed under parents
      }
      ghost var s := View();
      DepthMeaning(cfg, s, currentBlock, newTop, f);
      if cfg.maxReorgDepth > 0 && |f.oldChain| > cfg.maxReorgDepth && IsPosa(cfg, f.oldChain[0].header.number) {
        return Some(DeepReorg);
      }
      ghost var p, q := ForkBranches(s, currentBlock, newTop, f);
      Rewrite(f, p, q);
      return None;
    }

    /** Makes a stored block the head, reorganising first unless it extends the head. */
    method WriteKnownBlock(b: Block) returns (err: Option<Error>)
      requires Valid() && Stored(headers, bodies, b)
      modifies this
      ensures Valid()
      ensures err == if old(DepthAllowed(cfg, View(), b.header.hash)) then None else Some(DeepReorg)
      ensures err.Some? ==> View() == old(View()) && currentBlock == old(currentBlock)
      ensures err.None? ==> currentBlock == b && MoveStep(cfg, old(View()), View(), b.header.hash)
    {
      ghost var s := View();
      if b.header.parent != currentBlock.header.hash {
        err := Reorg(b);
        if err.Some? {
          return;
        }
      } else {
        ExtensionReady(cfg, s, b);
      }
      label ready:
      WriteHeadBlock(b);
      HeadWritten(cfg, s, b, old@ready(canon), old@ready(lookup), View());
      err := None;
    }

    /** Stores a block and its total difficulty, whatever its canonical status. */
    method WriteBlockWithState(b: Block) returns (err: Option<Error>)
      requires Valid() && Importable(View(), b)
      modifies this
      ensures Valid() && currentBlock == old(currentBlock)
      ensures err == if ParentKnown(old(View()), b) then None else Some(UnknownAncestor)
      ensures View() == if err.None? then WithBlock(old(View()), b) else old(View())
      ensures err.None? ==> Stored(headers, bodies, b)
    {
      if b.header.number == 0 || GetHeader(headers, b.header.parent,
          b.header.number - 1).None? || b.header.parent !in td {
        return Some(UnknownAncestor);
      }
      ghost var s := View();
      td := td[b.header.hash := td[b.header.parent] + b.header.difficulty];
      headers := headers[b.header.hash := b.header];
      bodies := bodies[b.header.hash := b.txs];
      WithBlockSound(s, genesis, b, View());
      err := None;
    }

    function GetTd(h: Header): (r: Option<nat>)
      reads this
    {
      if h.hash in td && GetHeader(headers, h.hash, h.number).Some? then Some(td[h.hash]) else None
    }

    /** Stores a block and makes it the head if the fork choice says so. */
    method WriteBlockAndSetHead(b: Block, coin: bool) returns (status: Status)
      requires Valid() && Importable(View(), b)
      modifies this
      ensures Valid()
      ensures ImportStep(cfg, old(View()), View(), b, coin, status)
    {
      var err := WriteBlockWithState(b);
      if err.Some? {
        return Failed(err.value);
      }
      var choice := ReorgNeeded(cfg, GetTd(currentBlock.header), GetTd(b.header), currentBlock.header, b.header, coin);
      match choice {
        case MissingTd => assert false;  // both heads are stored with their difficulty
        case Decided(reorg) =>
          if !reorg {
            return Side;
          }
          err := WriteKnownBlock(b);
          status := if err.Some? then Failed(err.value) else Canon;
      }
    }
  }
}
