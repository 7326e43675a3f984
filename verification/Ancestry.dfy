/** The fast ancestor lookups against the plain parent walk. */
module Ancestry {
  import opened Options
  import opened BlockTree

  /** The plain walk: k times, read the header and take its parent. */
  function Walk(t: Tree, hash: Hash, number: nat, k: nat): (r: Option<Hash>)
    decreases k
  {
    if k == 0 then Some(hash)
    else if number == 0 || GetHeader(t, hash, number).None? then None
    else Walk(t, t[hash].parent, number - 1, k - 1)
  }

  /** On a closed store the walk from a stored header reads off the branch. */
  lemma {:induction false} WalkIsPath(t: Tree, hash: Hash, k: nat)
    requires Closed(t) && hash in t && k <= t[hash].number
    ensures Walk(t, hash, t[hash].number, k) == Some(Path(t, hash)[t[hash].number - k])
    decreases k
  {
    if k > 0 {
      WalkIsPath(t, ParentOf(t, hash), k - 1);
    }
  }

  lemma {:induction false} WalkSplit(t: Tree, hash: Hash, number: nat, j: nat, k: nat)
    requires j <= k <= number
    ensures var w := Walk(t, hash, number, j);
            Walk(t, hash, number, k) == if w.None? then None else Walk(t, w.value, number - j, k - j)
    decreases j
  {
    if j > 0 && GetHeader(t, hash, number).Some? {
      WalkSplit(t, t[hash].parent, number - 1, j - 1, k - 1);
    }
  }

  /** How many headers have to be read one by one before the walk has finished or
      is on the canonical branch. */
  function OffCanonical(t: Tree, canon: map<nat, Hash>, hash: Hash, number: nat, k: nat): (steps: nat)
    ensures steps <= k
    decreases k
  {
    if k == 0 || ReadCanonical(canon, number) == hash then 0
    else if number == 0 || GetHeader(t, hash, number).None? then 1
    else 1 + OffCanonical(t, canon, t[hash].parent, number - 1, k - 1)
  }

  /** The k-th ancestor with the jump through the canonical index. `budget` limits
      the headers read one by one; the answer is the zero hash when it runs out.
      Whatever is found is what the plain walk finds, with one exception: the zero
      hash above the head "matches" the missing index entry. */
  method GetAncestor(t: Tree, canon: map<nat, Hash>, ghost head: Hash, hash0: Hash, number0: nat, ancestor0: nat,
                     budget0: nat)
    returns (r: Hash, number: nat, budget: nat)
    requires Closed(t) && head in t && canon == IndexOf(Path(t, head))
    ensures hash0 != NO_HASH ==>
              var w := if ancestor0 <= number0 then Walk(t, hash0, number0, ancestor0) else None;
              var steps := OffCanonical(t, canon, hash0, number0, ancestor0);
              && (r != NO_HASH <==> w.Some? && (ancestor0 == 1 || steps <= budget0))
              && (r != NO_HASH ==> r == w.value && number == number0 - ancestor0)
              && (r != NO_HASH ==> budget == if ancestor0 == 1 then budget0 else budget0 - steps)
    ensures (r != NO_HASH ==> ancestor0 <= number0 && Walk(t, hash0, number0, ancestor0) == Some(r)) <==>
            !(hash0 == NO_HASH && 1 < ancestor0 <= number0 && number0 !in canon && number0 - ancestor0 in canon)
  {
    budget := budget0;
    if ancestor0 > number0 {
      return NO_HASH, 0, budget;
    }
    if ancestor0 == 1 {
      var h := GetHeader(t, hash0, number0);
      if h.None? {
        return NO_HASH, 0, budget;
      }
      assert ParentOf(t, hash0) in t;
      return h.value.parent, number0 - 1, budget;
    }
    var hash: Hash, ancestor: nat := hash0, ancestor0;
    number := number0;
    while ancestor != 0
      invariant ancestor <= number && number0 - ancestor0 == number - ancestor
      invariant budget <= budget0
      invariant if hash0 != NO_HASH then hash != NO_HASH else hash == hash0 && ancestor == ancestor0
      invariant hash0 != NO_HASH ==> Walk(t, hash0, number0, ancestor0) == Walk(t, hash, number, ancestor)
      invariant OffCanonical(t, canon, hash0, number0, ancestor0) ==
                OffCanonical(t, canon, hash, number, ancestor) + (budget0 - budget)
      decreases ancestor
    {
      if number in canon {
        PathAt(t, head, number);
      }
      if ReadCanonical(canon, number) == hash {
        if hash0 != NO_HASH {
          PathAt(t, head, number - ancestor);
          WalkIsPath(t, hash, ancestor);
        } else if number - ancestor in canon {
          PathAt(t, head, number - ancestor);
        }
        return ReadCanonical(canon, number - ancestor), number - ancestor, budget;
      }
      if budget == 0 {
        return NO_HASH, 0, budget;
      }
      var h := GetHeader(t, hash, number);
      if h.None? {
        return NO_HASH, 0, budget - 1;
      }
      assert ParentOf(t, hash) in t;
      budget, ancestor, hash, number := budget - 1, ancestor - 1, h.value.parent, number - 1;
    }
    r := hash;
  }

  /** The exception at work: a chain of one block, asked two numbers above it for the
      zero hash's second ancestor, answers with that block. */
  method ZeroHashExample() returns (r: Hash)
    ensures var t := map[1 := Header(1, NO_HASH, 0, 5)];
            Closed(t) && r != NO_HASH && Walk(t, NO_HASH, 2, 2) != Some(r)
  {
    var t := map[1 := Header(1, NO_HASH, 0, 5)];
    assert Path(t, 1) == [1];
    var canon: map<nat, Hash> := map[0 := 1];
    assert canon == IndexOf(Path(t, 1));
    var number, budget;
    r, number, budget := GetAncestor(t, canon, 1, NO_HASH, 2, 2, 0);
  }

  /** The block-hash lookup of one EVM context, with its growing memo. */
  class HashLookup {
    const tree: Tree
    const ref: Header
    var cache: seq<Hash>

    /** The i-th memo entry is the hash i + 1 parents up from the reference header. */
    ghost predicate Valid()
      reads this
    {
      && |cache| <= ref.number
      && forall i | 0 <= i < |cache| :: Walk(tree, ref.parent, ref.number - 1, i) == Some(cache[i])
    }

    constructor (tree: Tree, ref: Header)
      ensures Valid() && cache == [] && this.tree == tree && this.ref == ref
    {
      this.tree, this.ref, cache := tree, ref, [];
    }

    /** What a lookup without a memo answers. */
    function Fresh(n: nat): (h: Hash)
    {
      if ref.number <= n then NO_HASH
      else
        var w := Walk(tree, ref.parent, ref.number - 1, ref.number - 1 - n);
        if w.None? then NO_HASH else w.value
    }

    /** Over a closed store that is the block of that number on the reference's branch. */
    lemma FreshOnBranch(n: nat)
      requires Closed(tree) && n < ref.number && ref.parent in tree && tree[ref.parent].number == ref.number - 1
      ensures Fresh(n) == Path(tree, ref.parent)[n]
    {
      WalkIsPath(tree, ref.parent, ref.number - 1 - n);
    }

    method Get(n: nat) returns (h: Hash)
      requires Valid()
      modifies this
      ensures Valid() && old(cache) <= cache
      ensures h == Fresh(n)
      ensures Closed(tree) && n < ref.number && ref.parent in tree && tree[ref.parent].number == ref.number - 1 ==>
                h == Path(tree, ref.parent)[n]
    {
      if Closed(tree) && n < ref.number && ref.parent in tree && tree[ref.parent].number == ref.number - 1 {
        FreshOnBranch(n);
      }
      if ref.number <= n {
        return NO_HASH;
      }
      if |cache| == 0 {
        cache := cache + [ref.parent];
      }
      var idx := ref.number - n - 1;
      if idx < |cache| {
        return cache[idx];
      }
      var lastHash, lastNumber := cache[|cache| - 1], ref.number - |cache|;
      while true
        invariant Valid() && old(cache) <= cache && 0 < |cache|
        invariant lastHash == cache[|cache| - 1] && lastNumber == ref.number - |cache| && n < lastNumber
        decreases lastNumber
      {
        var header := GetHeader(tree, lastHash, lastNumber);
        WalkSplit(tree, ref.parent, ref.number - 1, |cache| - 1, idx);
        if header.None? {
          break;
        }
        WalkSplit(tree, ref.parent, ref.number - 1, |cache| - 1, |cache|);
        cache := cache + [header.value.parent];
        lastHash, lastNumber := header.value.parent, header.value.number - 1;
        if n == lastNumber {
          return lastHash;
        }
      }
      h := NO_HASH;
    }
  }
}
