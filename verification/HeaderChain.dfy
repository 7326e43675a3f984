/** The header chain: batched header import, the header-only reorganisation and
    the rewind to a lower head. */
module HeaderChain {
  import opened Options
  import opened BlockTree
  import opened ForkChoice

  datatype Error = UnknownAncestor | MissingParent | NoTd

  datatype Outcome = Ignored | SideChain | Canonical | Failed(error: Error)

  /** A contiguous batch, each header the parent of the next. */
  ghost predicate Contiguous(hs: seq<Header>) {
    && (forall i | 0 <= i < |hs| :: hs[i].number == hs[0].number + i && hs[i].hash != NO_HASH)
    && (forall i | 0 < i < |hs| :: LinkedAt(hs, i))
    && (forall i, j | 0 <= i < j < |hs| :: hs[i].hash != hs[j].hash)
  }

  ghost predicate LinkedAt(hs: seq<Header>, i: nat)
    requires 0 < i < |hs|
  {
    hs[i].parent == hs[i - 1].hash
  }

  /** Hashes identify headers. */
  ghost predicate Identifies(t: Tree, hs: seq<Header>) {
    forall i | 0 <= i < |hs| && hs[i].hash in t :: t[hs[i].hash] == hs[i]
  }

  ghost predicate AllStored(t: Tree, hs: seq<Header>) {
    forall i | 0 <= i < |hs| :: hs[i].hash in t && t[hs[i].hash] == hs[i]
  }

  /** The batch is the tip of the branch of its last header. */
  lemma {:induction false} BatchOnPath(t: Tree, hs: seq<Header>, i: nat)
    requires Closed(t) && Contiguous(hs) && AllStored(t, hs) && i < |hs|
    ensures var last := hs[|hs| - 1];
            last.hash in t && Path(t, last.hash)[hs[i].number] == hs[i].hash
    decreases |hs| - i
  {
    var last := hs[|hs| - 1];
    if i < |hs| - 1 {
      BatchOnPath(t, hs, i + 1);
      PathParent(t, last.hash, hs[i + 1].number);
      assert LinkedAt(hs, i + 1);
    }
  }

  /** Entries lo..hi of the index agree with branch q. */
  ghost predicate Covers(m: map<nat, Hash>, q: seq<Hash>, lo: nat, hi: nat)
  {
    hi <= |q| && forall n | lo <= n < hi :: n in m && m[n] == q[n]
  }

  /** All headers of a tree at one number, as the database lists them. */
  function AllHashes(t: Tree, n: nat): (hs: set<Hash>)
  {
    set h | h in t && t[h].number == n
  }

  /** t' is t without everything above number n. */
  ghost predicate CutAt(t: Tree, n: nat, t': Tree) {
    forall h :: (h in t' <==> h in t && t[h].number <= n) && (h in t' ==> t'[h] == t[h])
  }

  /** Under parent closure no level below a stored header is empty. */
  lemma {:induction false} LevelBelow(t: Tree, n: nat, h: Hash)
    requires Closed(t) && h in t && n <= t[h].number
    ensures AllHashes(t, n) != {}
  {
    PathAt(t, h, n);
    assert Path(t, h)[n] in AllHashes(t, n);
  }

  lemma {:induction false} CutSound(t: Tree, td: map<Hash, nat>, genesis: Hash, n: nat, t': Tree,
                                    td': map<Hash, nat>, h: Hash)
    requires Rooted(t, genesis) && TdSound(t, td) && CutAt(t, n, t') && h in t'
    requires td'.Keys == t'.Keys && forall x | x in td' :: x in td && td'[x] == td[x]
    ensures Rooted(t', genesis) && TdSound(t', td') && Path(t', h) == Path(t, h)
  {
    forall x | x in t' && t'[x].number > 0
      ensures ParentOf(t', x) in t' && t'[ParentOf(t', x)].number == t'[x].number - 1
    {
      assert ParentOf(t, x) in t;
    }
    PathGrows(t', t, h);
    forall x | x in t'
      ensures td'[x] == Work(t', x)
    {
      WorkGrows(t', t, x);
      assert td[x] == Work(t, x);
    }
  }

  /** The parent of a header on a branch is stored and next on the branch. */
  lemma {:induction false} StepDown(t: Tree, head: Hash, h: Header)
    requires Closed(t) && head in t && h.hash in t && t[h.hash] == h
    requires 0 < h.number <= t[head].number && Path(t, head)[h.number] == h.hash
    ensures var p := GetHeader(t, h.parent, h.number - 1);
            p.Some? && p.value.number == h.number - 1 && p.value.hash == h.parent == Path(t, head)[h.number - 1]
  {
    PathParent(t, head, h.number);
    PathAt(t, head, h.number - 1);
  }

  ghost predicate IsAbove(t: Tree, n: nat, hs: set<Hash>) {
    forall h :: h in hs <==> h in t && t[h].number > n
  }

  lemma AboveOneLess(t: Tree, n: nat, hs: set<Hash>)
    requires n > 0 && IsAbove(t, n, hs)
    ensures IsAbove(t, n - 1, hs + AllHashes(t, n))
  {
  }

  lemma {:induction false} CutIndex(t: Tree, head: Hash, n: nat, canon: map<nat, Hash>, marks: set<nat>)
    requires Closed(t) && head in t && n < t[head].number && canon == IndexOf(Path(t, head))
    requires forall k | k in canon :: k in marks <==> k > n
    ensures Path(t, head)[n] in t && canon - marks == IndexOf(Path(t, Path(t, head)[n]))
  {
    PathAt(t, head, n);
  }

  /** Every hash at the levels above n, upwards until the first empty level. */
  method LevelsAbove(t: Tree, n: nat) returns (high: set<Hash>, levels: set<nat>)
    requires Closed(t)
    ensures IsAbove(t, n, high)
    ensures forall k | k in levels :: k > n
  {
    high, levels := {}, {};
    var k := n + 1;
    while AllHashes(t, k) != {}
      invariant n < k
      invariant forall h :: h in high <==> h in t && n < t[h].number < k
      invariant forall j | j in levels :: j > n
      decreases t.Keys - high
    {
      high, levels, k := high + AllHashes(t, k), levels + {k}, k + 1;
    }
    forall h | h in t
      ensures t[h].number < k
    {
      if t[h].number >= k {
        LevelBelow(t, k, h);
      }
    }
  }

  ghost predicate Anchored(t: Tree, hs: seq<Header>)
    requires hs != []
  {
    hs[0].number > 0 && hs[0].parent in t && t[hs[0].parent].number == hs[0].number - 1
  }

  /** t holds t0 and the first n headers of the batch, nothing else. */
  ghost predicate Adds(t0: Tree, hs: seq<Header>, n: nat, t: Tree) {
    && n <= |hs| && Extends(t0, t)
    && (forall i | 0 <= i < n :: hs[i].hash in t && t[hs[i].hash] == hs[i])
    && (forall h | h in t && h !in t0 :: InBatch(hs, n, h))
  }

  ghost predicate InBatch(hs: seq<Header>, n: nat, h: Hash)
    requires n <= |hs|
  {
    exists i :: 0 <= i < n && hs[i].hash == h
  }

  /** The parent of the next header of the batch is stored by then. */
  lemma {:induction false} NextParent(t0: Tree, hs: seq<Header>, i: nat, t: Tree)
    requires Contiguous(hs) && i < |hs| && Anchored(t0, hs) && Adds(t0, hs, i, t) && Identifies(t0, hs)
    ensures hs[i].number > 0 && hs[i].parent in t && t[hs[i].parent].number == hs[i].number - 1
    ensures hs[i].hash in t ==> t[hs[i].hash] == hs[i]
    ensures hs[i].hash in t <==> hs[i].hash in t0
  {
    if i > 0 {
      assert LinkedAt(hs, i);
    }
    assert !InBatch(hs, i, hs[i].hash);
  }

  lemma KnownParent(t0: Tree, hs: seq<Header>, i: nat)
    requires Closed(t0) && Contiguous(hs) && i < |hs| && hs[i].hash in t0 && t0[hs[i].hash] == hs[i] && hs[i].number > 0
    ensures i > 0 ==> hs[i - 1].hash in t0
  {
    assert ParentOf(t0, hs[i].hash) in t0;
    assert i > 0 ==> LinkedAt(hs, i);
  }

  lemma {:induction false} AddsOne(t0: Tree, hs: seq<Header>, i: nat, t: Tree)
    requires i < |hs| && Adds(t0, hs, i, t) && (hs[i].hash in t ==> t[hs[i].hash] == hs[i])
    ensures Adds(t0, hs, i + 1, t[hs[i].hash := hs[i]])
    ensures hs[i].hash in t ==> t[hs[i].hash := hs[i]] == t
  {
    var t' := t[hs[i].hash := hs[i]];
    forall h | h in t' && h !in t0
      ensures InBatch(hs, i + 1, h)
    {
      if h != hs[i].hash {
        assert InBatch(hs, i, h);
      }
    }
  }

  lemma {:induction false} TdOfKnown(t: Tree, td: map<Hash, nat>, h: Header)
    requires Closed(t) && TdSound(t, td) && h.number > 0 && h.hash in t && t[h.hash] == h && h.parent in t
    ensures td[h.hash] == td[h.parent] + h.difficulty
  {
    assert ParentOf(t, h.hash) == h.parent;
    assert Work(t, h.hash) == td[h.hash] && Work(t, h.parent) == td[h.parent];
  }

  /** A stored header is on a branch exactly if the branch has it at its number. */
  lemma {:induction false} OnHeadBranch(t: Tree, head: Header, h: Header)
    requires Closed(t) && head.hash in t && t[head.hash] == head && h.hash in t && t[h.hash] == h
    ensures h.hash in Path(t, head.hash) <==> h.number <= head.number && Path(t, head.hash)[h.number] == h.hash
  {
    if i :| 0 <= i < |Path(t, head.hash)| && Path(t, head.hash)[i] == h.hash {
      PathAt(t, head.hash, i);
    }
  }

  /** Of the first n headers, exactly the last `added` were unknown. */
  ghost predicate KnownPrefix(t0: Tree, hs: seq<Header>, n: nat, added: int) {
    n <= |hs| && forall j | 0 <= j < n :: hs[j].hash in t0 <==> j < n - added
  }

  /** The state of a batch import: n headers done, `added` of them new. */
  ghost predicate Importing(t0: Tree, genesis: Hash, hs: seq<Header>, n: nat, added: nat, t: Tree, td: map<Hash, nat>) {
    && Rooted(t, genesis) && TdSound(t, td) && Adds(t0, hs, n, t) && added <= n && KnownPrefix(t0, hs, n, added)
  }

  /** One header of the batch: skipped if known, stored with its parent's total
      difficulty plus its own if not. */
  lemma {:induction false} ImportOne(t0: Tree, genesis: Hash, hs: seq<Header>, i: nat, added: nat, t: Tree,
                                     td: map<Hash, nat>)
    requires Rooted(t0, genesis) && i < |hs| && Contiguous(hs) && Anchored(t0, hs) && Identifies(t0, hs)
    requires Importing(t0, genesis, hs, i, added, t, td)
    ensures hs[i].parent in t && hs[i].parent in td
    ensures hs[i].hash in t0 ==> added == 0 && Importing(t0, genesis, hs, i + 1, 0, t, td)
    ensures hs[i].hash in t0 ==> hs[i].hash in td && td[hs[i].hash] == td[hs[i].parent] + hs[i].difficulty
    ensures hs[i].hash !in t0 ==>
              Importing(t0, genesis, hs, i + 1, added + 1, t[hs[i].hash := hs[i]],
                        td[hs[i].hash := td[hs[i].parent] + hs[i].difficulty])
  {
    NextParent(t0, hs, i, t);
    AddsOne(t0, hs, i, t);
    if hs[i].hash in t0 {
      KnownParent(t0, hs, i);
      TdOfKnown(t, td, hs[i]);
    } else {
      var t' := t[hs[i].hash := hs[i]];
      TreeGrows(t, genesis, hs[i], t');
      WorkStored(t, td, genesis, hs[i], t', td[hs[i].hash := td[hs[i].parent] + hs[i].difficulty]);
    }
  }

  method StoreBatch(t0: Tree, td0: map<Hash, nat>, ghost genesis: Hash, hs: seq<Header>)
    returns (t: Tree, td: map<Hash, nat>, inserted: nat)
    requires Rooted(t0, genesis) && TdSound(t0, td0)
    requires hs != [] && Contiguous(hs) && Anchored(t0, hs) && Identifies(t0, hs)
    ensures Importing(t0, genesis, hs, |hs|, inserted, t, td)
  {
    var newTd, parentKnown := td0[hs[0].parent], true;
    t, td, inserted := t0, td0, 0;
    var i := 0;
    while i < |hs|
      invariant 0 <= i <= |hs| && Importing(t0, genesis, hs, i, inserted, t, td)
      invariant i < |hs| ==> hs[i].parent in td && newTd == td[hs[i].parent]
      invariant parentKnown <==> inserted == 0
    {
      ImportOne(t0, genesis, hs, i, inserted, t, td);
      newTd := newTd + hs[i].difficulty;
      var known := parentKnown && hs[i].hash in t0;
      if !known {
        td := td[hs[i].hash := newTd];
        t := t[hs[i].hash := hs[i]];
        inserted := inserted + 1;
      }
      parentKnown := known;
      i := i + 1;
      assert i < |hs| ==> LinkedAt(hs, i);
    }
  }

  // ------------------------------------------------------------ rewriting the index

  /** canon describes the branch of the stored header `current`. */
  ghost predicate Describes(t: Tree, genesis: Hash, canon: map<nat, Hash>, current: Header) {
    Rooted(t, genesis) && current.hash in t && t[current.hash] == current && canon == IndexOf(Path(t, current.hash))
  }

  lemma {:induction false} NoZero(t: Tree, genesis: Hash, canon: map<nat, Hash>, current: Header)
    requires Describes(t, genesis, canon, current)
    ensures forall k | k in canon :: canon[k] != NO_HASH
  {
    forall k | k in canon
      ensures canon[k] != NO_HASH
    {
      PathAt(t, current.hash, k);
    }
  }

  lemma {:induction false} ExtendsHead(t: Tree, genesis: Hash, canon: map<nat, Hash>, current: Header, first: Header,
                                       last: Header)
    requires Describes(t, genesis, canon, current) && OnBranch(t, first, last) && first.parent == current.hash
    ensures first.number == current.number + 1
    ensures Covers(canon, Path(t, last.hash), 0, first.number)
  {
    if first.number > 0 {
      assert ParentOf(t, first.hash) == current.hash;
      PathParent(t, last.hash, first.number);
      PathAt(t, last.hash, first.number - 1);
    }
  }

  /** first is an ancestor of last (or last itself), both stored. */
  ghost predicate OnBranch(t: Tree, first: Header, last: Header)
    requires Closed(t)
  {
    && first.hash in t && t[first.hash] == first && last.hash in t && t[last.hash] == last
    && first.number <= last.number && Path(t, last.hash)[first.number] == first.hash
  }

  ghost predicate NothingAbove(m: map<nat, Hash>, n: nat) {
    forall k | k in m :: k <= n
  }

  lemma {:induction false} WriteOne(m: map<nat, Hash>, q: seq<Hash>, lo: nat, hi: nat, n: nat, k: nat)
    requires n < |q| && Covers(m, q, lo, hi) && n <= k && NothingAbove(m, k) && (n == hi || n + 1 == lo)
    ensures NothingAbove(m[n := q[n]], k)
    ensures Covers(m[n := q[n]], q, if n == hi then lo else n, if n == hi then hi + 1 else hi)
  {
  }

  /** Rewrites stale entries backwards from `first` to the first one that is right. */
  method WriteBack(t: Tree, canon: map<nat, Hash>, ghost genesis: Hash, ghost current: Header,
                   batch0: map<nat, Hash>, first: Header, ghost last: Header) returns (batch: map<nat, Hash>)
    requires Describes(t, genesis, canon, current) && OnBranch(t, first, last) && NothingAbove(batch0, last.number)
    requires forall n | n in canon && n <= last.number :: n in batch0 && batch0[n] == canon[n]
    ensures Covers(batch, Path(t, last.hash), 0, first.number + 1) && NothingAbove(batch, last.number)
  {
    ghost var q := Path(t, last.hash);
    batch := batch0;
    var header := first;
    while ReadCanonical(canon, header.number) != header.hash
      invariant OnBranch(t, header, last) && header.number <= first.number
      invariant Covers(batch, q, header.number + 1, first.number + 1) && NothingAbove(batch, last.number)
      invariant forall n | n in canon && n <= header.number :: n in batch && batch[n] == canon[n]
      decreases header.number
    {
      WriteOne(batch, q, header.number + 1, first.number + 1, header.number, last.number);
      batch := batch[header.number := header.hash];
      if header.number == 0 {
        PathStart(t, genesis, current.hash);
        assert false;  // both branches start at genesis
      }
      PathParent(t, last.hash, header.number);
      PathAt(t, last.hash, header.number - 1);
      var parent := GetHeader(t, header.parent, header.number - 1);
      header := parent.value;
    }
    Joined(t, genesis, canon, current, header, last, batch);
  }

  /** Below the point where the branches meet the old entries are right. */
  lemma {:induction false} Joined(t: Tree, genesis: Hash, canon: map<nat, Hash>, current: Header, header: Header,
                                  last: Header, batch: map<nat, Hash>)
    requires Describes(t, genesis, canon, current) && OnBranch(t, header, last)
    requires ReadCanonical(canon, header.number) == header.hash
    requires forall n | n in canon && n <= header.number :: n in batch && batch[n] == canon[n]
    ensures Covers(batch, Path(t, last.hash), 0, header.number + 1)
  {
    var p, q := Path(t, current.hash), Path(t, last.hash);
    PathAt(t, last.hash, header.number);
    PathsMeet(t, current.hash, last.hash, header.number);
    forall n | 0 <= n <= header.number
      ensures n in batch && batch[n] == q[n]
    {
      assert p[n] == p[..header.number + 1][n] == q[..header.number + 1][n];
    }
  }

  /** The canonical index after a header reorganisation. */
  method NewIndex(t: Tree, canon: map<nat, Hash>, ghost genesis: Hash, current: Header, hs: seq<Header>)
    returns (batch: map<nat, Hash>)
    requires Describes(t, genesis, canon, current) && hs != [] && Contiguous(hs) && AllStored(t, hs)
    ensures Describes(t, genesis, batch, hs[|hs| - 1])
  {
    var first, last := hs[0], hs[|hs| - 1];
    ghost var q := Path(t, last.hash);
    batch := canon;
    BatchOnPath(t, hs, 0);
    if first.parent != current.hash {
      NoZero(t, genesis, canon, current);
      var marks, gap := ScanAbove(canon, last.number);
      batch := WriteBack(t, canon, genesis, current, batch - marks, first, last);
    } else {
      ExtendsHead(t, genesis, canon, current, first, last);
    }
    batch := WriteBatch(t, batch, hs);
    assert forall n: nat :: n in batch <==> n < |q|;
  }

  /** Writes the batch itself, each hash read off its successor's parent field. */
  method WriteBatch(ghost t: Tree, batch0: map<nat, Hash>, hs: seq<Header>) returns (batch: map<nat, Hash>)
    requires Closed(t) && hs != [] && Contiguous(hs) && AllStored(t, hs)
    requires Covers(batch0, Path(t, hs[|hs| - 1].hash), 0, hs[0].number) && NothingAbove(batch0, hs[|hs| - 1].number)
    ensures Covers(batch, Path(t, hs[|hs| - 1].hash), 0, hs[|hs| - 1].number + 1)
            && NothingAbove(batch, hs[|hs| - 1].number)
  {
    var last := hs[|hs| - 1];
    ghost var q := Path(t, last.hash);
    batch := batch0;
    var i := 0;
    while i < |hs| - 1
      invariant 0 <= i <= |hs| - 1
      invariant Covers(batch, q, 0, hs[0].number + i) && NothingAbove(batch, last.number)
      decreases |hs| - i
    {
      BatchOnPath(t, hs, i);
      assert LinkedAt(hs, i + 1);
      WriteOne(batch, q, 0, hs[0].number + i, hs[i].number, last.number);
      batch := batch[hs[i].number := hs[i + 1].parent];
      i := i + 1;
    }
    WriteOne(batch, q, 0, last.number, last.number, last.number);
    batch := batch[last.number := last.hash];
  }

  class Headers {
    const cfg: Config
    const genesis: Hash
    // The database.
    var headers: Tree
    var td: map<Hash, nat>
    var canon: map<nat, Hash>
    var headHeaderHash: Hash
    // The in-memory marker.
    var currentHeader: Header

    ghost predicate Valid()
      reads this
    {
      Describes(headers, genesis, canon, currentHeader) && TdSound(headers, td) && headHeaderHash == currentHeader.hash
    }

    /** Switches the canonical index to the branch that ends in the last header. All
        reads see the index as it was; the changes are applied together at the end. */
    method Reorg(hs: seq<Header>)
      requires Valid() && Contiguous(hs) && AllStored(headers, hs)
      modifies this`canon, this`headHeaderHash, this`currentHeader
      ensures Valid()
      ensures currentHeader == if hs == [] then old(currentHeader) else hs[|hs| - 1]
    {
      if |hs| == 0 {
        return;
      }
      var last := hs[|hs| - 1];
      var batch := NewIndex(headers, canon, genesis, currentHeader, hs);
      canon, headHeaderHash, currentHeader := batch, last.hash, last;
    }

    /** Stores a contiguous batch with its total difficulties. The known headers of a
        batch are a prefix of it and are skipped. */
    method WriteHeaders(hs: seq<Header>) returns (inserted: nat, err: Option<Error>)
      requires Valid() && Contiguous(hs) && Identifies(headers, hs)
      modifies this`headers, this`td
      ensures Valid()
      ensures err == if hs == [] || Anchored(old(headers), hs) then None else Some(UnknownAncestor)
      ensures err.Some? ==> headers == old(headers) && td == old(td) && inserted == 0
      ensures err.None? ==> Adds(old(headers), hs, |hs|, headers) && inserted <= |hs|
      ensures err.None? ==> KnownPrefix(old(headers), hs, |hs|, inserted)
    {
      inserted, err := 0, None;
      if |hs| == 0 {
        return;
      }
      if hs[0].number == 0 || GetHeader(headers, hs[0].parent, hs[0].number - 1).None? {
        return 0, Some(UnknownAncestor);
      }
      var batch, batchTd, n := StoreBatch(headers, td, genesis, hs);
      PathGrows(headers, batch, currentHeader.hash);
      headers, td, inserted := batch, batchTd, n;
    }

    /** The rewind loop: moves the markers down the branch one parent at a time and
        collects what is to be deleted. Nothing is deleted yet, so every head marker
        persisted on the way names a stored header. */
    method Rewind(n: nat) returns (dropped: set<Hash>, marks: set<nat>, ghost markers: seq<Hash>)
      requires Valid() && n < currentHeader.number
      modifies this`headHeaderHash, this`currentHeader
      ensures currentHeader.number == n && currentHeader.hash == old(Path(headers, currentHeader.hash))[n]
      ensures currentHeader.hash in headers && headers[currentHeader.hash] == currentHeader
      ensures headHeaderHash == currentHeader.hash
      ensures IsAbove(headers, n, dropped)
      ensures forall k | k in canon :: k in marks <==> k > n
      ensures |markers| == old(currentHeader.number) - n
      ensures forall i | 0 <= i < |markers| ::
                markers[i] == old(Path(headers, currentHeader.hash))[old(currentHeader.number) - 1 - i]
    {
      markers := [];
      dropped, marks := LevelsAbove(headers, currentHeader.number);
      ghost var head, top := currentHeader.hash, currentHeader.number;
      ghost var p := Path(headers, head);
      while currentHeader.number > n
        invariant n <= currentHeader.number <= top && p[currentHeader.number] == currentHeader.hash
        invariant currentHeader.hash in headers && headers[currentHeader.hash] == currentHeader
        invariant headHeaderHash == currentHeader.hash
        invariant IsAbove(headers, currentHeader.number, dropped)
        invariant forall k: nat | k <= top :: k in marks <==> k > currentHeader.number
        invariant |markers| == top - currentHeader.number
        invariant forall i | 0 <= i < |markers| :: markers[i] == p[top - 1 - i]
        decreases currentHeader.number
      {
        var num := currentHeader.number;
        StepDown(headers, head, currentHeader);
        var parent := GetHeader(headers, currentHeader.parent, num - 1);
        headHeaderHash := parent.value.hash;
        markers := markers + [headHeaderHash];
        currentHeader := parent.value;
        AboveOneLess(headers, num, dropped);
        dropped, marks := dropped + AllHashes(headers, num), marks + {num};
      }
    }

    /** Rewinds to number n: the index keeps exactly its prefix, and no header is
        stored above n, side forks included. At or above the head it does nothing. */
    method SetHead(n: nat)
      requires Valid()
      modifies this
      ensures Valid()
      ensures n >= old(currentHeader.number) ==>
                headers == old(headers) && td == old(td) && canon == old(canon) && currentHeader == old(currentHeader)
      ensures n < old(currentHeader.number) ==>
                CutAt(old(headers), n, headers) && currentHeader.hash == old(Path(headers, currentHeader.hash))[n]
    {
      if currentHeader.number <= n {
        return;
      }
      ghost var head, t, d := currentHeader.hash, headers, td;
      var dropped, marks, _ := Rewind(n);
      CutIndex(t, head, n, canon, marks);
      headers := headers - dropped;
      td := td - dropped;
      canon := canon - marks;
      CutSound(t, d, genesis, n, headers, td, currentHeader.hash);
    }

    /** Imports a batch and makes its last header the head if the fork choice prefers
        it and it is not already an ancestor of the head. The head's rank never falls. */
    method WriteHeadersAndSetHead(hs: seq<Header>, coin: bool) returns (outcome: Outcome)
      requires Valid() && hs != [] && Contiguous(hs) && Identifies(headers, hs)
      modifies this
      ensures Valid()
      ensures outcome.Failed? <==> !Anchored(old(headers), hs)
      ensures outcome.Failed? ==> headers == old(headers) && currentHeader == old(currentHeader)
      ensures !outcome.Failed? ==> Adds(old(headers), hs, |hs|, headers)
      ensures outcome.Canonical? ==> currentHeader == hs[|hs| - 1]
      ensures !outcome.Canonical? ==> currentHeader == old(currentHeader)
      ensures !outcome.Failed? ==>
                var last := hs[|hs| - 1];
                var better := ReorgNeeded(cfg, Some(Work(headers, old(currentHeader).hash)),
                                          Some(Work(headers, last.hash)),
                                          old(currentHeader), last, coin) == Decided(true);
                outcome.Canonical? <==> better && last.hash !in old(Path(headers, currentHeader.hash))
      ensures AtMost(RankOf(cfg, old(Work(headers, currentHeader.hash)), old(currentHeader)),
                     RankOf(cfg, Work(headers, currentHeader.hash), currentHeader))
    {
      ghost var t := headers;
      var inserted, err := WriteHeaders(hs);
      if err.Some? {
        return Failed(err.value);
      }
      var last := hs[|hs| - 1];
      WorkGrows(t, headers, currentHeader.hash);
      PathGrows(t, headers, currentHeader.hash);
      assert Work(headers, currentHeader.hash) == td[currentHeader.hash] && Work(headers, last.hash) == td[last.hash];
      ChoiceIsRank(cfg, td[currentHeader.hash], td[last.hash], currentHeader, last, coin);
      var choice := ReorgNeeded(cfg, Some(td[currentHeader.hash]), Some(td[last.hash]), currentHeader, last, coin);
      if !choice.reorg {
        return if inserted != 0 then SideChain else Ignored;
      }
      OnHeadBranch(headers, currentHeader, last);
      if ReadCanonical(canon, last.number) == last.hash && last.number <= currentHeader.number {
        return Ignored;
      }
      Reorg(hs);
      outcome := Canonical;
    }
  }
}
