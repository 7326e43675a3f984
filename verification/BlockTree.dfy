/** The tree of stored headers, and the one independent description of a branch
    that every index of the node is compared with: the path from genesis. */
module BlockTree {
  import opened Options

  /** Hashes are opaque identifiers; 0 plays the part of the all-zero hash, which
      the database readers return for "no entry". */
  type Hash = nat
  type TxHash = nat
  const NO_HASH: Hash := 0

  datatype Header = Header(hash: Hash, parent: Hash, number: nat, difficulty: nat)

  /** Stored headers by hash. */
  type Tree = map<Hash, Header>

  /** The database is keyed by (number, hash), so a lookup under a wrong number misses. */
  function GetHeader(t: Tree, hash: Hash, number: nat): (r: Option<Header>)
  {
    if hash in t && t[hash].number == number then Some(t[hash]) else None
  }

  /** Every header is stored under its own, non-zero hash. */
  ghost predicate Keyed(t: Tree) {
    forall h | h in t :: h != NO_HASH && t[h].hash == h
  }

  function ParentOf(t: Tree, h: Hash): Hash
    requires h in t
  {
    t[h].parent
  }

  /** Every stored header has its parent stored, one number below. */
  ghost predicate Closed(t: Tree) {
    && Keyed(t)
    && forall h {:trigger ParentOf(t, h)} | h in t && t[h].number > 0 ::
         ParentOf(t, h) in t && t[ParentOf(t, h)].number == t[h].number - 1
  }

  /** Closed, with a single header at number 0, which has no parent. */
  ghost predicate Rooted(t: Tree, genesis: Hash) {
    && Closed(t)
    && genesis in t && t[genesis].number == 0 && t[genesis].parent == NO_HASH
    && forall h | h in t && t[h].number == 0 :: h == genesis
  }

  /** The branch that ends in h: Path(t, h)[n] is the ancestor of h at number n. */
  ghost function Path(t: Tree, h: Hash): (p: seq<Hash>)
    requires Closed(t) && h in t
    ensures |p| == t[h].number + 1 && p[|p| - 1] == h
    decreases t[h].number
  {
    if t[h].number == 0 then [h] else Path(t, ParentOf(t, h)) + [h]
  }

  lemma {:induction false} PathAt(t: Tree, h: Hash, n: nat)
    requires Closed(t) && h in t && n <= t[h].number
    ensures var a := Path(t, h)[n];
            a in t && t[a].number == n && Path(t, a) == Path(t, h)[..n + 1]
    decreases t[h].number
  {
    var p := Path(t, h);
    if n < t[h].number {
      PathAt(t, ParentOf(t, h), n);
      assert p[..n + 1] == Path(t, ParentOf(t, h))[..n + 1];
    } else {
      assert p[..n + 1] == p;
    }
  }

  lemma PathParent(t: Tree, h: Hash, n: nat)
    requires Closed(t) && h in t && 0 < n <= t[h].number
    ensures Path(t, h)[n] in t && t[Path(t, h)[n]].parent == Path(t, h)[n - 1]
  {
    PathAt(t, h, n);
    var a := Path(t, h)[n];
    assert Path(t, a)[n - 1] == Path(t, ParentOf(t, a))[n - 1];
  }

  /** Branches do not change when the store grows. */
  lemma {:induction false} PathGrows(t: Tree, t': Tree, h: Hash)
    requires Closed(t) && Closed(t') && h in t
    requires forall x | x in t :: x in t' && t'[x] == t[x]
    ensures Path(t', h) == Path(t, h)
    decreases t[h].number
  {
    if t[h].number > 0 {
      PathGrows(t, t', ParentOf(t, h));
    }
  }

  /** All branches start at the genesis header. */
  lemma {:induction false} PathStart(t: Tree, genesis: Hash, h: Hash)
    requires Rooted(t, genesis) && h in t
    ensures Path(t, h)[0] == genesis
  {
    PathAt(t, h, 0);
  }

  /** Two branches that meet at a number agree on everything below it. */
  lemma PathsMeet(t: Tree, a: Hash, b: Hash, n: nat)
    requires Closed(t) && a in t && b in t
    requires n <= t[a].number && n <= t[b].number
    requires Path(t, a)[n] == Path(t, b)[n]
    ensures Path(t, a)[..n + 1] == Path(t, b)[..n + 1]
  {
    PathAt(t, a, n);
    PathAt(t, b, n);
  }

  /** The canonical index that describes a branch. */
  ghost function IndexOf(p: seq<Hash>): (m: map<nat, Hash>)
  {
    map n | 0 <= n < |p| :: p[n]
  }

  function ReadCanonical(canon: map<nat, Hash>, n: nat): (h: Hash)
  {
    if n in canon then canon[n] else NO_HASH
  }

  /** Sum of the difficulties along a branch. */
  ghost function Work(t: Tree, h: Hash): (w: nat)
    requires Closed(t) && h in t
    decreases t[h].number
  {
    t[h].difficulty + if t[h].number == 0 then 0 else Work(t, ParentOf(t, h))
  }

  lemma {:induction false} WorkGrows(t: Tree, t': Tree, h: Hash)
    requires Closed(t) && Closed(t') && h in t
    requires forall x | x in t :: x in t' && t'[x] == t[x]
    ensures Work(t', h) == Work(t, h)
    decreases t[h].number
  {
    if t[h].number > 0 {
      WorkGrows(t, t', ParentOf(t, h));
    }
  }

  ghost predicate Extends(t: Tree, t': Tree) {
    forall h | h in t :: h in t' && t'[h] == t[h]
  }

  lemma {:induction false} TreeGrows(t: Tree, genesis: Hash, h: Header, t': Tree)
    requires Rooted(t, genesis) && h.hash != NO_HASH && (h.hash in t ==> t[h.hash] == h)
    requires h.number > 0 && h.parent in t && t[h.parent].number == h.number - 1
    requires t' == t[h.hash := h]
    ensures Rooted(t', genesis) && Extends(t, t')
  {
    forall x | x in t' && t'[x].number > 0
      ensures ParentOf(t', x) in t' && t'[ParentOf(t', x)].number == t'[x].number - 1
    {
      if x != h.hash {
        assert ParentOf(t, x) in t;
      }
    }
  }

  /** Stored total difficulties are the work of whole branches. */
  ghost predicate TdSound(t: Tree, td: map<Hash, nat>)
    requires Closed(t)
  {
    td.Keys == t.Keys && forall h {:trigger Work(t, h)} | h in t :: td[h] == Work(t, h)
  }

  lemma {:induction false} WorkStored(t: Tree, td: map<Hash, nat>, genesis: Hash, h: Header, t': Tree,
                                      td': map<Hash, nat>)
    requires Rooted(t, genesis) && Rooted(t', genesis) && Extends(t, t') && t' == t[h.hash := h]
    requires h.number > 0 && h.parent in t && TdSound(t, td)
    requires td' == td[h.hash := td[h.parent] + h.difficulty]
    ensures TdSound(t', td')
  {
    forall x | x in t'
      ensures td'[x] == Work(t', x)
    {
      if x == h.hash {
        WorkGrows(t, t', h.parent);
        assert Work(t, h.parent) == td[h.parent] && ParentOf(t', x) == h.parent;
      } else {
        WorkGrows(t, t', x);
      }
    }
  }

  /** Collects the canonical numbers above n, upwards until the first gap: the marks
      that a head rewrite deletes. */
  method ScanAbove(canon: map<nat, Hash>, n: nat) returns (marks: set<nat>, gap: nat)
    requires forall k | k in canon :: canon[k] != NO_HASH
    ensures n < gap && gap !in canon
    ensures forall k: nat :: k in marks <==> n < k < gap
    ensures forall k | n < k < gap :: k in canon
  {
    marks, gap := {}, n + 1;
    ghost var left := canon.Keys;
    while ReadCanonical(canon, gap) != NO_HASH
      invariant n < gap
      invariant forall k: nat :: k in marks <==> n < k < gap
      invariant forall k | n < k < gap :: k in canon
      invariant left <= canon.Keys && (forall k | k in canon && k >= gap :: k in left)
      decreases left
    {
      marks, left, gap := marks + {gap}, left - {gap}, gap + 1;
    }
  }
}
