/** The section indexer: it drops its lock while a section is processed and
    revalidates afterwards, while the chain changes under it at any time.

    `world` is every header that ever existed. Hashes identify headers, so whatever
    the database returns at whatever moment is a part of it. */
module ChainIndexer {
  import opened Options
  import opened BlockTree

  /** What the chain database answers at one moment. Nothing is assumed about the
      canonical index; it may be in the middle of a rewrite. */
  datatype Db = Db(canon: map<nat, Hash>, headers: Tree)

  ghost predicate PartOf(db: Db, world: Tree) {
    Keyed(db.headers) && Extends(db.headers, world)
  }

  /** The number of the last block of section k. */
  function LastBlock(size: nat, k: nat): nat
    requires size > 0
    ensures k * size <= LastBlock(size, k) < (k + 1) * size
  {
    assert (k + 1) * size == k * size + size;
    (k + 1) * size - 1
  }

  lemma LastBlockMonotone(size: nat, j: nat, k: nat)
    requires size > 0 && j <= k
    ensures LastBlock(size, j) <= LastBlock(size, k)
    ensures j < k ==> LastBlock(size, j) < k * size
  {
    if j < k {
      assert (j + 1) * size <= k * size;
    }
  }

  // ---------------------------------------------------------------- processing

  /** h closes section k on a branch on which prev closes the section before it. */
  ghost predicate Closes(world: Tree, size: nat, k: nat, prev: Hash, h: Hash)
    requires Closed(world) && size > 0
  {
    && h in world && world[h].number == LastBlock(size, k)
    && (k > 0 ==> Path(world, h)[k * size - 1] == prev)
  }

  /** One header read: the canonical hash is known, its header is stored and links to
      the previous one. */
  predicate Links(db: Db, n: nat, last: Hash) {
    var h := ReadCanonical(db.canon, n);
    h != NO_HASH && GetHeader(db.headers, h, n).Some? && db.headers[h].parent == last
  }

  /** The hash reached after the first n reads, if all of them linked. */
  function Reached(dbs: seq<Db>, first: nat, prev: Hash, n: nat): (h: Hash)
    requires n <= |dbs|
  {
    if n == 0 then prev else ReadCanonical(dbs[n - 1].canon, first + n - 1)
  }

  ghost predicate AllLink(dbs: seq<Db>, first: nat, prev: Hash, n: nat)
    requires n <= |dbs|
  {
    forall i: nat {:trigger LinkAt(dbs, first, prev, i)} | i < n :: LinkAt(dbs, first, prev, i)
  }

  ghost predicate LinkAt(dbs: seq<Db>, first: nat, prev: Hash, i: nat)
    requires i < |dbs|
  {
    Links(dbs[i], first + i, Reached(dbs, first, prev, i))
  }

  lemma {:induction false} LinkStep(world: Tree, genesis: Hash, db: Db, n: nat, last: Hash)
    requires Rooted(world, genesis) && PartOf(db, world) && Links(db, n, last)
    ensures var h := ReadCanonical(db.canon, n);
            && h in world && world[h].number == n
            && (n > 0 ==> last in world && world[last].number == n - 1 && Path(world, h) == Path(world, last) + [h])
  {
    var h := ReadCanonical(db.canon, n);
    assert h in db.headers && world[h] == db.headers[h];
    if n > 0 {
      assert ParentOf(world, h) == last;
    }
  }

  /** The hash after n linking reads is n blocks up the branch from prev. */
  lemma {:induction false} ReachedOnBranch(world: Tree, genesis: Hash, dbs: seq<Db>, first: nat, prev: Hash, n: nat)
    requires Rooted(world, genesis) && 0 < n <= |dbs| && AllLink(dbs, first, prev, n)
    requires forall i | 0 <= i < n :: PartOf(dbs[i], world)
    ensures var h := Reached(dbs, first, prev, n);
            h in world && world[h].number == first + n - 1 && (first > 0 ==> Path(world, h)[first - 1] == prev)
  {
    assert PartOf(dbs[n - 1], world) && LinkAt(dbs, first, prev, n - 1);
    LinkStep(world, genesis, dbs[n - 1], first + n - 1, Reached(dbs, first, prev, n - 1));
    if n > 1 {
      ReachedOnBranch(world, genesis, dbs, first, prev, n - 1);
    }
  }

  /** Processes one section without the lock: dbs[i] is the database as the i-th read
      finds it. The continuity check makes the result a real branch even if the chain
      was reorganised between any two reads. */
  method ProcessSection(ghost world: Tree, ghost genesis: Hash, size: nat, section: nat, prev: Hash, dbs: seq<Db>)
    returns (head: Option<Hash>)
    requires Rooted(world, genesis) && size > 0 && |dbs| == size
    requires forall i | 0 <= i < size :: PartOf(dbs[i], world)
    ensures head.Some? <==> AllLink(dbs, section * size, prev, size)
    ensures head.Some? ==> head.value == Reached(dbs, section * size, prev, size)
    ensures head.Some? ==> Closes(world, size, section, prev, head.value)
  {
    var last, first := prev, section * size;
    var i := 0;
    while i < size
      invariant 0 <= i <= size
      invariant last == Reached(dbs, first, prev, i) && AllLink(dbs, first, prev, i)
    {
      var hash := ReadCanonical(dbs[i].canon, first + i);
      assert LinkAt(dbs, first, prev, i) <==> Links(dbs[i], first + i, last);
      if hash == NO_HASH {
        return None;
      }
      var header := GetHeader(dbs[i].headers, hash, first + i);
      if header.None? || header.value.parent != last {
        return None;
      }
      last, i := hash, i + 1;
    }
    ReachedOnBranch(world, genesis, dbs, first, prev, size);
    assert LastBlock(size, section) == first + size - 1;
    head := Some(last);
  }

  // ------------------------------------------------------------ the index state

  datatype State = State(stored: nat, known: nat, cascaded: int, heads: map<nat, Hash>)

  /** The stored sections are 0..stored-1, each closed by a block whose branch runs
      through the block that closes the one before. */
  ghost predicate Sections(world: Tree, size: nat, s: State)
    requires Closed(world) && size > 0
  {
    && (forall k: nat :: k in s.heads <==> k < s.stored)
    && (forall k: nat {:trigger SectionAt(world, size, s, k)} | k < s.stored :: SectionAt(world, size, s, k))
  }

  ghost predicate SectionAt(world: Tree, size: nat, s: State, k: nat)
    requires Closed(world) && size > 0
  {
    k in s.heads && Closes(world, size, k, HeadBefore(s, k), s.heads[k])
  }

  /** The section head read for the section before k: the zero hash if there is none. */
  function HeadBefore(s: State, k: nat): (h: Hash)
  {
    if k > 0 && k - 1 in s.heads then s.heads[k - 1] else NO_HASH
  }

  /** Sets the number of valid sections; the heads of dropped ones are removed. */
  function Truncated(s: State, n: nat): (r: State)
  {
    s.(stored := n, heads := map k | k in s.heads && !(n <= k < s.stored) :: s.heads[k])
  }

  lemma TruncatedSections(world: Tree, size: nat, s: State, n: nat)
    requires Closed(world) && size > 0 && Sections(world, size, s) && n <= s.stored
    ensures Sections(world, size, Truncated(s, n))
  {
    var r := Truncated(s, n);
    forall k: nat | k < n
      ensures SectionAt(world, size, r, k)
    {
      assert SectionAt(world, size, s, k);
    }
  }

  predicate CanonicalAt(size: nat, heads: map<nat, Hash>, k: nat, canon: map<nat, Hash>)
    requires size > 0
  {
    k in heads && heads[k] == ReadCanonical(canon, LastBlock(size, k))
  }

  /** The number of sections left when the top is dropped until it is canonical. */
  function LastValid(size: nat, heads: map<nat, Hash>, n: nat, canon: map<nat, Hash>): (r: nat)
    requires size > 0
    ensures r <= n && (r == 0 || CanonicalAt(size, heads, r - 1, canon))
    ensures forall k | r <= k < n :: !CanonicalAt(size, heads, k, canon)
  {
    if n == 0 || CanonicalAt(size, heads, n - 1, canon) then n else LastValid(size, heads, n - 1, canon)
  }

  function Verified(size: nat, s: State, canon: map<nat, Hash>): (r: State)
    requires size > 0
  {
    Truncated(s, LastValid(size, s.heads, s.stored, canon))
  }

  lemma {:induction false} VerifiedSections(world: Tree, size: nat, s: State, canon: map<nat, Hash>)
    requires Closed(world) && size > 0 && Sections(world, size, s)
    ensures Sections(world, size, Verified(size, s, canon))
  {
    TruncatedSections(world, size, s, LastValid(size, s.heads, s.stored, canon));
  }

  ghost predicate AllCanonical(size: nat, s: State, canon: map<nat, Hash>)
    requires size > 0
  {
    forall k: nat | k < s.stored :: CanonicalAt(size, s.heads, k, canon)
  }

  /** Section heads lie on one branch, so a canonical top section makes every lower
      section canonical, for any canonical index that describes a branch. */
  lemma {:induction false} TopImpliesAll(world: Tree, size: nat, s: State, head: Hash, canon: map<nat, Hash>, k: nat)
    requires Closed(world) && size > 0 && Sections(world, size, s) && k < s.stored
    requires head in world && canon == IndexOf(Path(world, head)) && CanonicalAt(size, s.heads, s.stored - 1, canon)
    ensures CanonicalAt(size, s.heads, k, canon)
    decreases s.stored - k
  {
    if k < s.stored - 1 {
      TopImpliesAll(world, size, s, head, canon, k + 1);
      var h, n := s.heads[k + 1], LastBlock(size, k + 1);
      assert SectionAt(world, size, s, k + 1);
      LastBlockMonotone(size, k, k + 1);
      PathAt(world, head, n);
      assert Path(world, h) == Path(world, head)[..n + 1];
      assert LastBlock(size, k) == (k + 1) * size - 1;
    }
  }

  lemma {:induction false} VerifiedAllCanonical(world: Tree, size: nat, s: State, head: Hash, canon: map<nat, Hash>)
    requires Closed(world) && size > 0 && Sections(world, size, s)
    requires head in world && canon == IndexOf(Path(world, head))
    ensures AllCanonical(size, Verified(size, s, canon), canon)
  {
    var r := Verified(size, s, canon);
    VerifiedSections(world, size, s, canon);
    forall k: nat | k < r.stored
      ensures CanonicalAt(size, r.heads, k, canon)
    {
      TopImpliesAll(world, size, r, head, canon, k);
    }
  }

  /** A chain-head notification: forget sections above a reorganisation point, or
      learn of newly complete ones. */
  function Notified(size: nat, confirms: nat, s: State, head: nat, reorg: bool): (r: State)
    requires size > 0
  {
    if reorg then
      var known := (head + 1) / size;
      var s1 := if known < s.known then s.(known := known) else s;
      var s2 := if known < s.stored then Truncated(s1, known) else s1;
      if known * size < s.cascaded then s2.(cascaded := known * size) else s2
    else if head >= confirms && (head + 1 - confirms) / size > s.known then s.(known := (head + 1 - confirms) / size)
    else s
  }

  /** A section becomes known exactly when its last block has the confirmations, and a
      reorganisation forgets exactly those that end above the common ancestor. */
  lemma {:induction false} NoticeMeans(size: nat, confirms: nat, s: State, head: nat, k: nat)
    requires size > 0
    ensures k < Notified(size, confirms, s, head, false).known <==>
            k < s.known || (k + 1) * size - 1 + confirms <= head
    ensures Notified(size, confirms, s, head, false) ==
            s.(known := Notified(size, confirms, s, head, false).known)
    ensures k < Notified(size, confirms, s, head, true).known <==> k < s.known && (k + 1) * size - 1 <= head
    ensures k < Notified(size, confirms, s, head, true).stored <==> k < s.stored && (k + 1) * size - 1 <= head
  {
    WholeSections(size, head + 1, k);
    if head >= confirms {
      WholeSections(size, head + 1 - confirms, k);
    } else {
      assert (k + 1) * size >= size;
    }
  }

  lemma {:induction false} WholeSections(size: nat, blocks: nat, k: nat)
    requires size > 0
    ensures k < blocks / size <==> (k + 1) * size <= blocks
  {
    var q := blocks / size;
    assert q * size <= blocks < (q + 1) * size;
    if k < q {
      assert (k + 1) * size <= q * size;
    } else {
      assert (q + 1) * size <= (k + 1) * size;
    }
  }

  /** A reorganisation notice for the common ancestor keeps only sections that are
      canonical before and after. */
  lemma {:induction false} ReorgNoticeKeepsCanonical(size: nat, confirms: nat, s: State, p: seq<Hash>, q: seq<Hash>,
                                                     c: nat)
    requires size > 0 && c < |p| && c < |q| && (forall i | 0 <= i <= c :: p[i] == q[i])
    requires AllCanonical(size, s, IndexOf(p))
    ensures AllCanonical(size, Notified(size, confirms, s, c, true), IndexOf(q))
  {
    var r := Notified(size, confirms, s, c, true);
    var known := (c + 1) / size;
    assert known * size <= c + 1;
    forall k: nat | k < r.stored
      ensures CanonicalAt(size, r.heads, k, IndexOf(q))
    {
      LastBlockMonotone(size, k, known);
      assert CanonicalAt(size, s.heads, k, IndexOf(p));
    }
  }

  // ---------------------------------------------------------- any interleaving

  /** A section being processed without the lock, and the section head it builds on. */
  datatype Job = Job(section: nat, prev: Hash)

  datatype Machine = Machine(s: State, job: Option<Job>)

  /** What can happen between two lock sections. */
  datatype Event =
    | Notify(head: nat, reorg: bool)
    | Query(canon: map<nat, Hash>)
    | Begin(canon: map<nat, Hash>)
    | ResetFails
    | Finish(dbs: seq<Db>, backendOk: bool, canon: map<nat, Hash>)

  /** Stores the head of a processed section and makes it the last valid one. */
  function Stored(size: nat, s: State, section: nat, head: Hash): (r: State)
  {
    Truncated(s.(heads := s.heads[section := head]), section + 1).(cascaded := (section + 1) * size - 1)
  }

  /** The locked section after processing: the result counts only if the head it
      builds on is still stored. */
  function Concluded(size: nat, s: State, job: Job, result: Option<Hash>, canon: map<nat, Hash>): (r: State)
    requires size > 0
  {
    if result.Some? && (job.section == 0 || job.prev == HeadBefore(s, job.section)) then
      Stored(size, s, job.section, result.value)
    else
      var v := Verified(size, s, canon);
      v.(known := v.stored)
  }

  ghost function Next(size: nat, confirms: nat, m: Machine, e: Event): (r: Machine)
    requires size > 0
  {
    match e
    case Notify(head, reorg) => m.(s := Notified(size, confirms, m.s, head, reorg))
    case Query(canon) => m.(s := Verified(size, m.s, canon))
    case Begin(canon) =>
      if m.job.None? && m.s.known > m.s.stored then
        var v := Verified(size, m.s, canon);
        Machine(v, Some(Job(v.stored, HeadBefore(v, v.stored))))
      else m
    case ResetFails => if m.job.Some? then m.(s := Truncated(m.s, 0)) else m
    case Finish(dbs, ok, canon) =>
      if m.job.Some? && |dbs| == size then
        var job := m.job.value;
        var result := if ok && AllLink(dbs, job.section * size, job.prev, size)
                      then Some(Reached(dbs, job.section * size, job.prev, size)) else None;
        Machine(Concluded(size, m.s, job, result, canon), None)
      else m
  }

  ghost predicate Honest(world: Tree, e: Event) {
    e.Finish? ==> forall i | 0 <= i < |e.dbs| :: PartOf(e.dbs[i], world)
  }

  /** While a section is processed no section above it can appear. */
  ghost predicate Inv(world: Tree, size: nat, m: Machine)
    requires Closed(world) && size > 0
  {
    && Sections(world, size, m.s)
    && (m.job.Some? ==> m.s.stored <= m.job.value.section)
    && (m.job.Some? && m.job.value.section > 0 ==> m.job.value.prev in world)
  }

  lemma {:induction false} StoredSections(world: Tree, size: nat, s: State, k: nat, prev: Hash, h: Hash)
    requires Closed(world) && size > 0 && Sections(world, size, s) && s.stored <= k
    requires Closes(world, size, k, prev, h)
    requires k == 0 || (prev in world && prev == HeadBefore(s, k))
    ensures Sections(world, size, Stored(size, s, k, h))
  {
    var r := Stored(size, s, k, h);
    assert s.stored == k;
    forall j: nat | j < r.stored
      ensures SectionAt(world, size, r, j)
    {
      if j < k {
        assert SectionAt(world, size, s, j);
      }
    }
  }

  /** A linked result on a head that is still stored is accepted soundly. */
  lemma {:induction false} AcceptSections(world: Tree, genesis: Hash, size: nat, s: State, job: Job, dbs: seq<Db>)
    requires Rooted(world, genesis) && size > 0 && Sections(world, size, s) && s.stored <= job.section
    requires |dbs| == size && forall i | 0 <= i < |dbs| :: PartOf(dbs[i], world)
    requires AllLink(dbs, job.section * size, job.prev, size)
    requires job.section == 0 || (job.prev in world && job.prev == HeadBefore(s, job.section))
    ensures Sections(world, size, Stored(size, s, job.section, Reached(dbs, job.section * size, job.prev, size)))
  {
    var first := job.section * size;
    ReachedOnBranch(world, genesis, dbs, first, job.prev, size);
    assert LastBlock(size, job.section) == first + size - 1;
    StoredSections(world, size, s, job.section, job.prev, Reached(dbs, first, job.prev, size));
  }

  lemma {:induction false} RejectSections(world: Tree, size: nat, s: State, canon: map<nat, Hash>)
    requires Closed(world) && size > 0 && Sections(world, size, s)
    ensures var v := Verified(size, s, canon);
            Sections(world, size, v.(known := v.stored))
  {
    var v := Verified(size, s, canon);
    VerifiedSections(world, size, s, canon);
    SameSections(world, size, v, v.(known := v.stored));
  }

  lemma {:induction false} FinishInv(world: Tree, genesis: Hash, size: nat, s: State, job: Job, dbs: seq<Db>,
                                     ok: bool, canon: map<nat, Hash>)
    requires Rooted(world, genesis) && size > 0 && Sections(world, size, s) && s.stored <= job.section
    requires |dbs| == size && forall i | 0 <= i < |dbs| :: PartOf(dbs[i], world)
    requires job.section > 0 ==> job.prev in world
    ensures var result := if ok && AllLink(dbs, job.section * size, job.prev, size)
                          then Some(Reached(dbs, job.section * size, job.prev, size)) else None;
            Sections(world, size, Concluded(size, s, job, result, canon))
  {
    RejectSections(world, size, s, canon);
    if ok && AllLink(dbs, job.section * size, job.prev, size)
      && (job.section == 0 || job.prev == HeadBefore(s, job.section)) {
      AcceptSections(world, genesis, size, s, job, dbs);
    }
  }

  lemma {:induction false} NotifyInv(world: Tree, size: nat, confirms: nat, s: State, head: nat, reorg: bool)
    requires Closed(world) && size > 0 && Sections(world, size, s)
    ensures Sections(world, size, Notified(size, confirms, s, head, reorg))
    ensures Notified(size, confirms, s, head, reorg).stored <= s.stored
  {
    SameSections(world, size, s, Notified(size, confirms, s, head, reorg));
  }

  lemma {:induction false} BeginInv(world: Tree, size: nat, s: State, canon: map<nat, Hash>)
    requires Closed(world) && size > 0 && Sections(world, size, s)
    ensures var v := Verified(size, s, canon);
            Sections(world, size, v) && (v.stored > 0 ==> HeadBefore(v, v.stored) in world)
  {
    VerifiedSections(world, size, s, canon);
    var v := Verified(size, s, canon);
    if v.stored > 0 {
      assert SectionAt(world, size, v, v.stored - 1);
    }
  }

  lemma {:induction false} NextInv(world: Tree, genesis: Hash, size: nat, confirms: nat, m: Machine, e: Event)
    requires Rooted(world, genesis) && size > 0 && Inv(world, size, m) && Honest(world, e)
    ensures Inv(world, size, Next(size, confirms, m, e))
  {
    match e {
      case Notify(head, reorg) => NotifyInv(world, size, confirms, m.s, head, reorg);
      case Query(canon) => VerifiedSections(world, size, m.s, canon);
      case Begin(canon) => BeginInv(world, size, m.s, canon);
      case ResetFails => TruncatedSections(world, size, m.s, 0);
      case Finish(dbs, ok, canon) =>
        if m.job.Some? && |dbs| == size {
          FinishInv(world, genesis, size, m.s, m.job.value, dbs, ok, canon);
        }
    }
  }

  /** Only the stored heads matter, not the counters. */
  lemma SameSections(world: Tree, size: nat, s: State, r: State)
    requires Closed(world) && size > 0 && Sections(world, size, s)
    requires r.stored <= s.stored && r.heads == Truncated(s, r.stored).heads
    ensures Sections(world, size, r)
  {
    TruncatedSections(world, size, s, r.stored);
    forall k: nat | k < r.stored
      ensures SectionAt(world, size, r, k)
    {
      assert SectionAt(world, size, Truncated(s, r.stored), k);
    }
  }

  ghost function Run(size: nat, confirms: nat, m: Machine, es: seq<Event>): (r: Machine)
    requires size > 0
  {
    if es == [] then m else Next(size, confirms, Run(size, confirms, m, es[..|es| - 1]), es[|es| - 1])
  }

  /** Whatever the interleaving of notifications, queries, processing and chain
      changes: section heads stay linked by ancestry. */
  lemma {:induction false} RunInv(world: Tree, genesis: Hash, size: nat, confirms: nat, m: Machine, es: seq<Event>)
    requires Rooted(world, genesis) && size > 0 && Inv(world, size, m)
    requires forall i | 0 <= i < |es| :: Honest(world, es[i])
    ensures Inv(world, size, Run(size, confirms, m, es))
  {
    if es != [] {
      RunInv(world, genesis, size, confirms, m, es[..|es| - 1]);
      NextInv(world, genesis, size, confirms, Run(size, confirms, m, es[..|es| - 1]), es[|es| - 1]);
    }
  }

  /** So after any run, a query against a chain that is not in the middle of a rewrite
      answers only with canonical sections. */
  lemma {:induction false} QueryAfterRun(world: Tree, genesis: Hash, size: nat, confirms: nat, m: Machine,
                                         es: seq<Event>, head: Hash)
    requires Rooted(world, genesis) && size > 0 && Inv(world, size, m) && head in world
    requires forall i | 0 <= i < |es| :: Honest(world, es[i])
    ensures var canon := IndexOf(Path(world, head));
            AllCanonical(size, Next(size, confirms, Run(size, confirms, m, es), Query(canon)).s, canon)
  {
    RunInv(world, genesis, size, confirms, m, es);
    VerifiedAllCanonical(world, size, Run(size, confirms, m, es).s, head, IndexOf(Path(world, head)));
  }

  // ------------------------------------------------------------------------ progress

  /** The database as every read finds it while the chain does not change. */
  ghost function Still(world: Tree, canon: map<nat, Hash>, size: nat): (dbs: seq<Db>)
    ensures |dbs| == size && forall i | 0 <= i < size :: dbs[i] == Db(canon, world)
  {
    seq(size, i => Db(canon, world))
  }

  lemma {:induction false} StillReached(world: Tree, head: Hash, size: nat, first: nat, prev: Hash, n: nat)
    requires Closed(world) && head in world && n <= size && first + n <= |Path(world, head)|
    ensures var canon := IndexOf(Path(world, head));
            Reached(Still(world, canon, size), first, prev, n) ==
            if n == 0 then prev else Path(world, head)[first + n - 1]
  {
  }

  /** On a chain that does not change, a section of the chain links to the block before it. */
  lemma {:induction false} StillLinks(world: Tree, genesis: Hash, head: Hash, size: nat, first: nat, prev: Hash)
    requires Rooted(world, genesis) && head in world && first + size <= |Path(world, head)|
    requires prev == if first == 0 then NO_HASH else Path(world, head)[first - 1]
    ensures AllLink(Still(world, IndexOf(Path(world, head)), size), first, prev, size)
  {
    var p := Path(world, head);
    var dbs := Still(world, IndexOf(p), size);
    forall i: nat | i < size
      ensures LinkAt(dbs, first, prev, i)
    {
      StillReached(world, head, size, first, prev, i);
      PathAt(world, head, first + i);
      if first + i > 0 {
        PathParent(world, head, first + i);
      } else {
        PathStart(world, genesis, head);
      }
    }
  }

  lemma VerifiedSame(size: nat, s: State, canon: map<nat, Hash>)
    requires size > 0 && AllCanonical(size, s, canon)
    ensures Verified(size, s, canon).stored == s.stored
  {
    assert s.stored == 0 || CanonicalAt(size, s.heads, s.stored - 1, canon);
  }

  /** Begin and finish of one section. */
  ghost function Shift(world: Tree, size: nat, confirms: nat, m: Machine, canon: map<nat, Hash>): Machine
    requires size > 0
  {
    Next(size, confirms, Next(size, confirms, m, Begin(canon)), Finish(Still(world, canon, size), true, canon))
  }

  /** A section that closes with the chain's own block joins those that do. */
  lemma {:induction false} StoredCanonical(size: nat, s: State, canon: map<nat, Hash>, h: Hash)
    requires size > 0 && AllCanonical(size, s, canon) && h == ReadCanonical(canon, LastBlock(size, s.stored))
    requires forall k: nat :: k in s.heads <==> k < s.stored
    ensures AllCanonical(size, Stored(size, s, s.stored, h), canon)
  {
    var r := Stored(size, s, s.stored, h);
    forall k: nat | k < r.stored
      ensures CanonicalAt(size, r.heads, k, canon)
    {
      assert k < s.stored ==> CanonicalAt(size, s.heads, k, canon);
    }
  }

  /** Idle, with so many canonical sections stored and so many known. */
  ghost predicate Idle(world: Tree, size: nat, m: Machine, canon: map<nat, Hash>, stored: nat, known: nat)
    requires Closed(world) && size > 0
  {
    m.job.None? && Inv(world, size, m) && AllCanonical(size, m.s, canon) && m.s.stored == stored && m.s.known == known
  }

  /** The section after the last canonical one is stored, if the chain has it. */
  lemma {:induction false} ShiftStores(world: Tree, genesis: Hash, size: nat, confirms: nat, m: Machine, head: Hash,
                                       canon: map<nat, Hash>)
    requires Rooted(world, genesis) && size > 0 && Inv(world, size, m) && m.job.None? && head in world
    requires m.s.stored < m.s.known && m.s.known * size <= |Path(world, head)| && canon == IndexOf(Path(world, head))
    ensures Idle(world, size, Shift(world, size, confirms, m, canon), canon, Verified(size, m.s, canon).stored + 1,
              m.s.known)
  {
    var v, dbs := Verified(size, m.s, canon), Still(world, canon, size);
    var begun := Next(size, confirms, m, Begin(canon));
    VerifiedAllCanonical(world, size, m.s, head, canon);
    NextInv(world, genesis, size, confirms, m, Begin(canon));
    NextInv(world, genesis, size, confirms, begun, Finish(dbs, true, canon));
    SectionFits(size, v.stored, m.s.known);
    NextLinks(world, genesis, size, v, head, canon);
    StoredCanonical(size, v, canon, Reached(dbs, v.stored * size, HeadBefore(v, v.stored), size));
  }

  /** After canonical sections the next one links, and closes with the chain's own block. */
  lemma {:induction false} NextLinks(world: Tree, genesis: Hash, size: nat, v: State, head: Hash, canon: map<nat, Hash>)
    requires Rooted(world, genesis) && size > 0 && head in world && canon == IndexOf(Path(world, head))
    requires AllCanonical(size, v, canon) && v.stored * size + size <= |Path(world, head)|
    requires v.stored > 0 ==> v.stored * size > 0
    ensures var first, prev, dbs := v.stored * size, HeadBefore(v, v.stored), Still(world, canon, size);
            && AllLink(dbs, first, prev, size)
            && Reached(dbs, first, prev, size) == ReadCanonical(canon, LastBlock(size, v.stored))
  {
    var first, prev := v.stored * size, HeadBefore(v, v.stored);
    if v.stored > 0 {
      assert CanonicalAt(size, v.heads, v.stored - 1, canon) && LastBlock(size, v.stored - 1) == first - 1;
    }
    StillLinks(world, genesis, head, size, first, prev);
    StillReached(world, head, size, first, prev, size);
    assert LastBlock(size, v.stored) == first + size - 1;
  }

  lemma SectionFits(size: nat, k: nat, known: nat)
    requires k < known
    ensures k * size + size <= known * size && (k > 0 && size > 0 ==> k * size > 0)
  {
    assert (k + 1) * size <= known * size;
  }

  lemma {:induction false} IdleShift(world: Tree, genesis: Hash, size: nat, confirms: nat, m: Machine, head: Hash,
                                     canon: map<nat, Hash>, stored: nat, known: nat)
    requires Rooted(world, genesis) && size > 0 && head in world && canon == IndexOf(Path(world, head))
    requires stored < known && known * size <= |Path(world, head)| && Idle(world, size, m, canon, stored, known)
    ensures Idle(world, size, Shift(world, size, confirms, m, canon), canon, stored + 1, known)
  {
    VerifiedSame(size, m.s, canon);
    ShiftStores(world, genesis, size, confirms, m, head, canon);
  }

  ghost function Iterated(f: Machine -> Machine, m: Machine, n: nat): Machine {
    if n == 0 then m else f(Iterated(f, m, n - 1))
  }

  lemma {:induction false} Climbs(f: Machine -> Machine, at: (Machine, nat) -> bool, m: Machine, k: nat, n: nat,
                                  limit: nat)
    requires at(f(m), k + 1) && k + n < limit && forall x, j: nat | at(x, j) && j < limit :: at(f(x), j + 1)
    ensures at(Iterated(f, m, n + 1), k + n + 1)
  {
    if n == 0 {
      assert Iterated(f, m, 1) == f(Iterated(f, m, 0));
    } else {
      Climbs(f, at, m, k, n - 1, limit);
    }
  }

  /** Begin and finish, n times, while the chain does not change. */
  ghost function Worked(world: Tree, size: nat, confirms: nat, m: Machine, canon: map<nat, Hash>, n: nat): Machine
    requires size > 0
  {
    Iterated(x => if size > 0 then Shift(world, size, confirms, x, canon) else x, m, n)
  }

  /** While the chain does not change, every begin and finish stores one more section than
      were canonical, until all known sections are stored and canonical. */
  lemma {:induction false} CatchesUp(world: Tree, genesis: Hash, size: nat, confirms: nat, m: Machine, head: Hash,
                                     canon: map<nat, Hash>, v: nat, n: nat)
    requires Rooted(world, genesis) && size > 0 && Inv(world, size, m) && m.job.None? && head in world
    requires m.s.stored < m.s.known && m.s.known * size <= |Path(world, head)| && canon == IndexOf(Path(world, head))
    requires v == Verified(size, m.s, canon).stored && v + n < m.s.known
    ensures Idle(world, size, Worked(world, size, confirms, m, canon, n + 1), canon, v + n + 1, m.s.known)
  {
    var known := m.s.known;
    var f: Machine -> Machine := x => if size > 0 then Shift(world, size, confirms, x, canon) else x;
    var at: (Machine, nat) -> bool := (x: Machine, j: nat) =>
      Closed(world) && size > 0 && Idle(world, size, x, canon, j, known);
    assert at(f(m), v + 1) by {
      ShiftStores(world, genesis, size, confirms, m, head, canon);
    }
    assert forall x, j: nat | at(x, j) && j < known :: at(f(x), j + 1) by {
      forall x, j: nat | at(x, j) && j < known
        ensures at(f(x), j + 1)
      {
        IdleShift(world, genesis, size, confirms, x, head, canon, j, known);
      }
    }
    Climbs(f, at, m, v, n, known);
  }

  /** In the end as many sections are stored as were known. */
  lemma {:induction false} AllStored(world: Tree, genesis: Hash, size: nat, confirms: nat, m: Machine, head: Hash,
                                     canon: map<nat, Hash>)
    returns (n: nat)
    requires Rooted(world, genesis) && size > 0 && Inv(world, size, m) && m.job.None? && head in world
    requires m.s.stored <= m.s.known && m.s.known * size <= |Path(world, head)| && canon == IndexOf(Path(world, head))
    ensures var r := Worked(world, size, confirms, m, canon, n);
            r.s.stored == r.s.known == m.s.known && (m.s.stored < m.s.known ==> AllCanonical(size, r.s, canon))
  {
    n := 0;
    if m.s.stored < m.s.known {
      var v := Verified(size, m.s, canon).stored;
      n := m.s.known - v;
      CatchesUp(world, genesis, size, confirms, m, head, canon, v, n - 1);
    }
  }

  // ------------------------------------------------------------- the indexer object

  /** The section is the first, or builds on the head that is stored before it. */
  predicate BuildsOn(job: Job, heads: map<nat, Hash>) {
    job.section == 0 || (job.section - 1 in heads && heads[job.section - 1] == job.prev)
  }

  class Indexer {
    const size: nat
    const confirms: nat
    var storedSections: nat
    var knownSections: nat
    var cascadedHead: int
    var sectionHeads: map<nat, Hash>

    ghost predicate Valid()
      reads this
    {
      size > 0 && forall k: nat :: k in sectionHeads <==> k < storedSections
    }

    function View(): State
      reads this
    {
      State(storedSections, knownSections, cascadedHead, sectionHeads)
    }

    constructor (size: nat, confirms: nat)
      requires size > 0
      ensures Valid() && this.size == size && this.confirms == confirms && View() == State(0, 0, 0, map[])
    {
      this.size, this.confirms := size, confirms;
      storedSections, knownSections, cascadedHead, sectionHeads := 0, 0, 0, map[];
    }

    method SetValidSections(sections: nat)
      modifies this
      ensures View() == Truncated(old(View()), sections)
    {
      while storedSections > sections
        invariant knownSections == old(knownSections) && cascadedHead == old(cascadedHead)
        invariant storedSections <= old(storedSections)
                  && (storedSections == old(storedSections) || sections <= storedSections)
        invariant sectionHeads == map k | k in old(sectionHeads)
                  && !(storedSections <= k < old(storedSections)) :: old(sectionHeads)[k]
      {
        storedSections := storedSections - 1;
        sectionHeads := sectionHeads - {storedSections};
      }
      storedSections := sections;
    }

    method VerifyLastHead(canon: map<nat, Hash>)
      requires Valid()
      modifies this
      ensures Valid() && View() == Verified(size, old(View()), canon)
    {
      ghost var heads, n := sectionHeads, LastValid(size, sectionHeads, storedSections, canon);
      while storedSections > 0
        invariant Valid() && storedSections <= old(storedSections)
        invariant knownSections == old(knownSections) && cascadedHead == old(cascadedHead)
        invariant forall k: nat | k < storedSections :: k in heads && sectionHeads[k] == heads[k]
        invariant LastValid(size, heads, storedSections, canon) == n
        decreases storedSections
      {
        if sectionHeads[storedSections - 1] == ReadCanonical(canon, LastBlock(size, storedSections - 1)) {
          break;
        }
        SetValidSections(storedSections - 1);
      }
      assert storedSections == n;
    }

    method NewHead(head: nat, reorg: bool)
      requires Valid()
      modifies this
      ensures Valid() && View() == Notified(size, confirms, old(View()), head, reorg)
    {
      if reorg {
        var known := (head + 1) / size;
        if known < knownSections {
          knownSections := known;
        }
        if known < storedSections {
          SetValidSections(known);
        }
        if known * size < cascadedHead {
          cascadedHead := known * size;
        }
        return;
      }
      if head >= confirms {
        var sections := (head + 1 - confirms) / size;
        if sections > knownSections {
          knownSections := sections;
        }
      }
    }

    /** The locked section before processing. */
    method BeginUpdate(canon: map<nat, Hash>) returns (job: Option<Job>)
      requires Valid()
      modifies this
      ensures Valid()
      ensures Machine(View(), job) == Next(size, confirms, Machine(old(View()), None), Begin(canon))
    {
      if knownSections <= storedSections {
        return None;
      }
      VerifyLastHead(canon);
      job := Some(Job(storedSections, if storedSections > 0 then sectionHeads[storedSections - 1] else NO_HASH));
    }

    /** The locked section after processing. */
    method FinishUpdate(job: Job, result: Option<Hash>, canon: map<nat, Hash>)
      requires Valid() && storedSections <= job.section
      requires result.Some? && job.section > 0 ==> job.prev != NO_HASH
      modifies this
      ensures Valid() && View() == Concluded(size, old(View()), job, result, canon)
      ensures result.Some? && BuildsOn(job, old(sectionHeads)) ==>
                && storedSections == job.section + 1 && sectionHeads == old(sectionHeads)[job.section := result.value]
                && knownSections == old(knownSections) && cascadedHead == (job.section + 1) * size - 1
      ensures !(result.Some? && BuildsOn(job, old(sectionHeads))) ==>
                && knownSections == storedSections <= old(storedSections) && cascadedHead == old(cascadedHead)
                && (storedSections > 0 ==>
                      sectionHeads[storedSections - 1] == ReadCanonical(canon, storedSections * size - 1))
    {
      if result.Some? && (job.section == 0 || job.prev == HeadBefore(View(), job.section)) {
        sectionHeads := sectionHeads[job.section := result.value];
        SetValidSections(job.section + 1);
        cascadedHead := storedSections * size - 1;
      } else {
        VerifyLastHead(canon);
        knownSections := storedSections;
      }
    }

    /** Processing without the lock and the locked section after it, on whatever became
        of the index meanwhile: the machine's step that finishes the job. */
    method Process(ghost world: Tree, ghost genesis: Hash, job: Job, dbs: seq<Db>, backendOk: bool,
                   canon: map<nat, Hash>)
      requires Valid() && Rooted(world, genesis) && |dbs| == size && (forall i | 0 <= i < size :: PartOf(dbs[i], world))
      requires Inv(world, size, Machine(View(), Some(job)))
      modifies this
      ensures Valid() && Machine(View(), None) ==
                Next(size, confirms, Machine(old(View()), Some(job)), Finish(dbs, backendOk, canon))
      ensures Inv(world, size, Machine(View(), None))
      ensures backendOk && AllLink(dbs, job.section * size, job.prev, size) && BuildsOn(job, old(sectionHeads)) ==>
                && storedSections == job.section + 1 && knownSections == old(knownSections)
                && sectionHeads == old(sectionHeads)[job.section := Reached(dbs, job.section * size, job.prev, size)]
      ensures !(backendOk && AllLink(dbs, job.section * size, job.prev, size) && BuildsOn(job, old(sectionHeads))) ==>
                knownSections == storedSections <= old(storedSections)
    {
      NextInv(world, genesis, size, confirms, Machine(View(), Some(job)), Finish(dbs, backendOk, canon));
      var head := ProcessSection(world, genesis, size, job.section, job.prev, dbs);
      FinishUpdate(job, if backendOk then head else None, canon);
    }
  }
}
