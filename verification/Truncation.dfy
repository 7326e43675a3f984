/** How the pool cuts back when it holds too much: pending lists are levelled from the
    largest down, queued lists are dropped from the longest unheard account on.
    Accounts are numbered and stand for their list lengths; list.Cap and removeTx take
    the highest nonces. */
module Truncation {

  ghost function Sum(s: seq<nat>): (t: nat)
  {
    if s == [] then 0 else Sum(s[..|s| - 1]) + s[|s| - 1]
  }

  lemma {:induction false} SumUpdate(s: seq<nat>, i: nat, x: nat)
    requires i < |s|
    ensures Sum(s[i := x]) == Sum(s) - s[i] + x
  {
    var last := |s| - 1;
    if i < last {
      SumUpdate(s[..last], i, x);
      assert s[i := x][..last] == s[..last][i := x];
    } else {
      assert s[i := x][..last] == s[..last];
    }
  }

  lemma {:induction false} SumMonotone(s: seq<nat>, t: seq<nat>)
    requires |s| == |t| && (forall i | 0 <= i < |s| :: s[i] <= t[i])
    ensures Sum(s) <= Sum(t)
  {
    if s != [] {
      SumMonotone(s[..|s| - 1], t[..|t| - 1]);
    }
  }

  method Total(sizes: seq<nat>) returns (t: nat)
    ensures t == Sum(sizes)
  {
    t := 0;
    for i := 0 to |sizes|
      invariant t == Sum(sizes[..i])
    {
      assert sizes[..i + 1][..i] == sizes[..i];
      t := t + sizes[i];
    }
    assert sizes[..|sizes|] == sizes;
  }

  // ------------------------------------------------------------------- the water level

  function Least(a: nat, b: nat): nat {
    if a <= b then a else b
  }

  /** Every account but the local ones cut down to a common level. */
  function Level(sizes: seq<nat>, local: seq<bool>, l: nat): (r: seq<nat>)
    requires |sizes| == |local|
  {
    seq(|sizes|, i requires 0 <= i < |sizes| => if local[i] then sizes[i] else Least(sizes[i], l))
  }

  /** r levels the accounts at l: never below the account allowance, down to the global
      limit or that allowance, and no further than needed. */
  ghost predicate Levelled(sizes: seq<nat>, local: seq<bool>, account: nat, limit: nat, r: seq<nat>, l: nat)
    requires |sizes| == |local|
  {
    && r == Level(sizes, local, l) && account <= l
    && (Sum(r) <= limit || forall i | 0 <= i < |r| && !local[i] :: r[i] <= account)
    && (r == sizes || Sum(Level(sizes, local, l + 1)) > limit)
  }

  /** An account that is cut keeps its allowance and as much as any other account. */
  lemma {:induction false} LevelledIsFair(sizes: seq<nat>, local: seq<bool>, account: nat, limit: nat, r: seq<nat>,
                                          l: nat, i: nat, j: nat)
    requires |sizes| == |local| && Levelled(sizes, local, account, limit, r, l)
    requires i < |r| && j < |r| && r[i] < sizes[i]
    ensures !local[i] && r[i] >= account && (!local[j] ==> r[j] <= r[i])
  {
  }

  lemma {:induction false} LevelMonotone(sizes: seq<nat>, local: seq<bool>, l: nat, m: nat)
    requires |sizes| == |local| && l <= m
    ensures Sum(Level(sizes, local, l)) <= Sum(Level(sizes, local, m))
  {
    SumMonotone(Level(sizes, local, l), Level(sizes, local, m));
  }

  /** Which accounts are popped first among equals makes no difference: there is only
      one such levelling. */
  lemma {:induction false} LevelledUnique(sizes: seq<nat>, local: seq<bool>, account: nat, limit: nat, r: seq<nat>,
                                          l: nat, s: seq<nat>, m: nat)
    requires |sizes| == |local| && Levelled(sizes, local, account, limit, r, l)
             && Levelled(sizes, local, account, limit, s, m)
    ensures r == s
  {
    if l < m {
      HigherLevelSame(sizes, local, account, limit, r, l, s, m);
    } else if m < l {
      HigherLevelSame(sizes, local, account, limit, s, m, r, l);
    }
  }

  lemma {:induction false} HigherLevelSame(sizes: seq<nat>, local: seq<bool>, account: nat, limit: nat, r: seq<nat>,
                                           l: nat, s: seq<nat>, m: nat)
    requires |sizes| == |local| && Levelled(sizes, local, account, limit, r, l)
             && Levelled(sizes, local, account, limit, s, m)
    requires l < m
    ensures r == s
  {
    LevelMonotone(sizes, local, l + 1, m);
    if r == sizes {
      assert forall i | 0 <= i < |sizes| :: local[i] || sizes[i] <= l;
    } else {
      assert Sum(s) > limit;
    }
  }

  // ------------------------------------------------------------------ cutting pending

  /** One transaction less for each of the accounts. */
  method CutRound(sizes: seq<nat>, accounts: seq<nat>, pending: nat) returns (r: seq<nat>, left: nat)
    requires pending == Sum(sizes) && Distinct(accounts, |sizes|)
             && (forall i | 0 <= i < |accounts| :: sizes[accounts[i]] > 0)
    ensures |r| == |sizes| && left == Sum(r)
    ensures forall a | 0 <= a < |r| :: r[a] == if a in accounts then sizes[a] - 1 else sizes[a]
  {
    r, left := sizes, pending;
    for i := 0 to |accounts|
      invariant |r| == |sizes| && left == Sum(r)
      invariant forall a | 0 <= a < |r| :: r[a] == if a in accounts[..i] then sizes[a] - 1 else sizes[a]
    {
      var a := accounts[i];
      SumUpdate(r, a, r[a] - 1);
      r, left := r[a := r[a] - 1], left - 1;
    }
    assert accounts[..|accounts|] == accounts;
  }

  ghost predicate Distinct(accounts: seq<nat>, n: nat) {
    && (forall i | 0 <= i < |accounts| :: accounts[i] < n)
    && (forall i, j | 0 <= i < j < |accounts| :: accounts[i] != accounts[j])
  }

  lemma {:induction false} RoundLowersLevel(sizes: seq<nat>, local: seq<bool>, l: nat, accounts: seq<nat>,
                                            r: seq<nat>, r': seq<nat>)
    requires |sizes| == |local| && l > 0 && r == Level(sizes, local, l) && |r'| == |r|
    requires forall a: nat | a < |r| :: a in accounts <==> !local[a] && sizes[a] >= l
    requires forall a | 0 <= a < |r| :: r'[a] == if a in accounts then r[a] - 1 else r[a]
    ensures r' == Level(sizes, local, l - 1)
  {
  }

  /** Cuts the accounts, which are level, round by round until the limit or the floor. */
  method CutDown(ghost sizes: seq<nat>, ghost local: seq<bool>, r: seq<nat>, ghost l: nat, accounts: seq<nat>,
                 floor: nat, limit: nat, pending: nat)
    returns (r': seq<nat>, ghost l': nat, pending': nat)
    requires |sizes| == |local| && r == Level(sizes, local, l) && pending == Sum(r) && floor <= l
    requires accounts != [] && Distinct(accounts, |r|)
    requires forall i | 0 <= i < |accounts| :: !local[accounts[i]] && sizes[accounts[i]] >= l
    requires forall a: nat | a < |r| && !local[a] && sizes[a] > floor :: a in accounts
    ensures r' == Level(sizes, local, l') && pending' == Sum(r') && floor <= l' <= l
    ensures pending' <= limit || l' == floor
    ensures l' < l ==> Sum(Level(sizes, local, l' + 1)) > limit
  {
    r', l', pending' := r, l, pending;
    while pending' > limit && r'[accounts[|accounts| - 1]] > floor
      invariant r' == Level(sizes, local, l') && pending' == Sum(r') && floor <= l' <= l
      invariant l' < l ==> Sum(Level(sizes, local, l' + 1)) > limit
      decreases l'
    {
      ghost var before := r';
      r', pending' := CutRound(r', accounts, pending');
      RoundLowersLevel(sizes, local, l', accounts, before, r');
      l' := l' - 1;
    }
  }

  /** The large accounts that are not local: still in the queue, or popped. */
  ghost predicate Grouped(sizes: seq<nat>, local: seq<bool>, account: nat, spammers: set<nat>, offenders: seq<nat>)
    requires |sizes| == |local|
  {
    && Distinct(offenders, |sizes|) && (forall a | a in spammers :: a < |sizes| && a !in offenders)
    && (forall a: nat | a < |sizes| :: !local[a] && sizes[a] > account <==> a in spammers || a in offenders)
  }

  /** Between two pops: the offenders so far are level, everyone else is below them. */
  ghost predicate Levelling(sizes: seq<nat>, local: seq<bool>, account: nat, limit: nat, spammers: set<nat>,
                            offenders: seq<nat>, r: seq<nat>, l: nat)
    requires |sizes| == |local|
  {
    && r == Level(sizes, local, l) && account <= l
    && (forall a | a in spammers :: a < |sizes| && sizes[a] <= l)
    && (Sum(r) > limit ==> forall i | 0 <= i < |offenders| :: offenders[i] < |sizes| && sizes[offenders[i]] >= l)
    && (r == sizes || Sum(Level(sizes, local, l + 1)) > limit)
    && (offenders == [] ==> r == sizes)
  }

  lemma {:induction false} SumAtLeast(s: seq<nat>, i: nat)
    requires i < |s|
    ensures s[i] <= Sum(s)
  {
    if i < |s| - 1 {
      SumAtLeast(s[..|s| - 1], i);
    }
  }

  /** A level above all accounts cuts nothing. */
  lemma {:induction false} HighLevel(sizes: seq<nat>, local: seq<bool>, l: nat)
    requires |sizes| == |local| && l >= Sum(sizes)
    ensures Level(sizes, local, l) == sizes
  {
    forall i: nat | i < |sizes|
      ensures sizes[i] <= l
    {
      SumAtLeast(sizes, i);
    }
  }

  /** The priority queue's next account: one of the largest. */
  method PopLargest(spammers: set<nat>, sizes: seq<nat>) returns (a: nat)
    requires spammers != {} && forall x | x in spammers :: x < |sizes|
    ensures a in spammers && forall x | x in spammers :: sizes[x] <= sizes[a]
  {
    a :| a in spammers;
    var left := spammers;
    while left != {}
      invariant a in spammers && left <= spammers && forall x | x in spammers && x !in left :: sizes[x] <= sizes[a]
    {
      var x :| x in left;
      if sizes[x] > sizes[a] {
        a := x;
      }
      left := left - {x};
    }
  }

  /** The popped account is not cut yet, and those above it are the offenders so far. */
  lemma {:induction false} PoppedSize(sizes: seq<nat>, local: seq<bool>, account: nat, limit: nat,
                                      spammers: set<nat>, offenders: seq<nat>, r: seq<nat>, l: nat, o: nat)
    requires |sizes| == |local| && Levelling(sizes, local, account, limit, spammers, offenders, r, l)
    requires Grouped(sizes, local, account, spammers, offenders)
    requires o in spammers && forall x | x in spammers :: x < |r| && r[x] <= r[o]
    ensures r[o] == sizes[o] && account < sizes[o] <= l && (forall x | x in spammers :: sizes[x] <= sizes[o])
    ensures forall a: nat | a < |r| && !local[a] && sizes[a] > sizes[o] :: a in offenders
    ensures offenders == [] ==> Level(sizes, local, sizes[o]) == sizes
  {
    assert forall x | x in spammers :: r[x] == sizes[x];
  }

  lemma {:induction false} GroupedNext(sizes: seq<nat>, local: seq<bool>, account: nat, spammers: set<nat>,
                                       offenders: seq<nat>, o: nat)
    requires |sizes| == |local| && Grouped(sizes, local, account, spammers, offenders) && o in spammers
    ensures Grouped(sizes, local, account, spammers - {o}, offenders + [o])
  {
    assert forall a :: a in offenders + [o] <==> a in offenders || a == o;
  }

  lemma {:induction false} LevellingNext(sizes: seq<nat>, local: seq<bool>, account: nat, limit: nat,
                                         spammers: set<nat>, offenders: seq<nat>, r: seq<nat>, l: nat, o: nat,
                                         r': seq<nat>, l': nat)
    requires |sizes| == |local| && Levelling(sizes, local, account, limit, spammers, offenders, r, l) && Sum(r) > limit
    requires o in spammers && o < |sizes| && account < sizes[o]
    requires forall x | x in spammers :: x < |sizes| && sizes[x] <= sizes[o]
    requires r' == Level(sizes, local, l') && sizes[o] <= l' <= l && (Sum(r') <= limit || l' == sizes[o])
    requires if offenders == [] then r' == r else l' < l ==> Sum(Level(sizes, local, l' + 1)) > limit
    ensures Levelling(sizes, local, account, limit, spammers - {o}, offenders + [o], r', l')
  {
    var os := offenders + [o];
    assert forall i | 0 <= i < |offenders| :: os[i] == offenders[i];
  }

  lemma {:induction false} LevelledAtLast(sizes: seq<nat>, local: seq<bool>, account: nat, limit: nat,
                                          spammers: set<nat>, offenders: seq<nat>, r: seq<nat>, l: nat)
    requires |sizes| == |local| && Levelling(sizes, local, account, limit, spammers, offenders, r, l)
    requires Grouped(sizes, local, account, spammers, offenders)
    requires Sum(r) <= limit || (spammers == {} && offenders == [])
    ensures Levelled(sizes, local, account, limit, r, l)
  {
  }

  lemma {:induction false} LevelledAtFloor(sizes: seq<nat>, local: seq<bool>, account: nat, limit: nat,
                                           spammers: set<nat>, offenders: seq<nat>, r: seq<nat>, l: nat,
                                           r': seq<nat>, l': nat)
    requires |sizes| == |local| && Levelling(sizes, local, account, limit, spammers, offenders, r, l)
    requires r' == Level(sizes, local, l') && account <= l' <= l && (Sum(r') <= limit || l' == account)
    requires l' < l ==> Sum(Level(sizes, local, l' + 1)) > limit
    ensures Levelled(sizes, local, account, limit, r', l')
  {
  }

  /** Pops the next offender and cuts the earlier ones down to it. */
  method Equalize(ghost sizes: seq<nat>, ghost local: seq<bool>, ghost account: nat, limit: nat, spammers: set<nat>,
                  offenders: seq<nat>, r: seq<nat>, ghost l: nat, pending: nat)
    returns (offender: nat, r': seq<nat>, ghost l': nat, pending': nat)
    requires |sizes| == |local| && Levelling(sizes, local, account, limit, spammers, offenders, r, l)
    requires Grouped(sizes, local, account, spammers, offenders) && pending == Sum(r) > limit && spammers != {}
    ensures offender in spammers && pending' == Sum(r')
    ensures Levelling(sizes, local, account, limit, spammers - {offender}, offenders + [offender], r', l')
    ensures Grouped(sizes, local, account, spammers - {offender}, offenders + [offender])
  {
    offender := PopLargest(spammers, r);
    PoppedSize(sizes, local, account, limit, spammers, offenders, r, l, offender);
    if offenders == [] {
      r', l', pending' := r, r[offender], pending;
    } else {
      r', l', pending' := CutDown(sizes, local, r, l, offenders, r[offender], limit, pending);
    }
    LevellingNext(sizes, local, account, limit, spammers, offenders, r, l, offender, r', l');
    GroupedNext(sizes, local, account, spammers, offenders, offender);
  }

  /** Cuts all offenders, after the last pop, down to the limit or their allowance. */
  method Finish(ghost sizes: seq<nat>, ghost local: seq<bool>, account: nat, limit: nat, ghost spammers: set<nat>,
                offenders: seq<nat>, r: seq<nat>, ghost l: nat, pending: nat)
    returns (r': seq<nat>, ghost l': nat)
    requires |sizes| == |local| && Levelling(sizes, local, account, limit, spammers, offenders, r, l)
    requires Grouped(sizes, local, account, spammers, offenders) && pending == Sum(r)
             && (pending <= limit || spammers == {})
    ensures Levelled(sizes, local, account, limit, r', l')
  {
    if pending > limit && offenders != [] {
      var left;
      r', l', left := CutDown(sizes, local, r, l, offenders, account, limit, pending);
      LevelledAtFloor(sizes, local, account, limit, spammers, offenders, r, l, r', l');
    } else {
      r', l' := r, l;
      LevelledAtLast(sizes, local, account, limit, spammers, offenders, r, l);
    }
  }

  lemma {:induction false} AtFirst(sizes: seq<nat>, local: seq<bool>, account: nat, limit: nat, l: nat,
                                   spammers: set<nat>)
    requires |sizes| == |local| && l == account + Sum(sizes)
    requires spammers == set a: nat | a < |sizes| && !local[a] && sizes[a] > account
    ensures Levelling(sizes, local, account, limit, spammers, [], sizes, l)
            && Grouped(sizes, local, account, spammers, [])
  {
    HighLevel(sizes, local, l);
    forall a | a in spammers
      ensures sizes[a] <= l
    {
      SumAtLeast(sizes, a);
    }
  }

  /** Levels the large accounts, the largest first, until all fit. */
  method TruncatePending(sizes: seq<nat>, local: seq<bool>, account: nat, limit: nat)
    returns (r: seq<nat>, ghost level: nat)
    requires |sizes| == |local|
    ensures Levelled(sizes, local, account, limit, r, level)
  {
    r, level := sizes, account + Sum(sizes);
    var pending := Total(sizes);
    if pending <= limit {
      HighLevel(sizes, local, level);
      return;
    }
    var spammers := set a: nat | a < |sizes| && !local[a] && sizes[a] > account;
    var offenders: seq<nat> := [];
    AtFirst(sizes, local, account, limit, level, spammers);
    while pending > limit && spammers != {}
      invariant Levelling(sizes, local, account, limit, spammers, offenders, r, level) && pending == Sum(r)
      invariant Grouped(sizes, local, account, spammers, offenders)
      decreases spammers
    {
      var offender;
      offender, r, level, pending := Equalize(sizes, local, account, limit, spammers, offenders, r, level, pending);
      spammers, offenders := spammers - {offender}, offenders + [offender];
    }
    r, level := Finish(sizes, local, account, limit, spammers, offenders, r, level, pending);
  }

  // -------------------------------------------------------------------- cutting queued

  /** Local accounts keep everything; an account is touched only when every account not
      heard of for longer has lost all; at most one account loses only a part. */
  ghost predicate OldestFirst(sizes: seq<nat>, local: seq<bool>, beats: seq<nat>, r: seq<nat>)
    requires |sizes| == |local| == |beats|
  {
    && |r| == |sizes|
    && (forall a | 0 <= a < |r| :: r[a] <= sizes[a] && (local[a] ==> r[a] == sizes[a]))
    && (forall a, b | 0 <= a < |r| && 0 <= b < |r| && !local[a] && beats[a] < beats[b] && r[b] < sizes[b] :: r[a] == 0)
    && (forall a, b | 0 <= a < |r| && 0 <= b < |r| && 0 < r[a] < sizes[a] && 0 < r[b] < sizes[b] :: a == b)
  }

  /** Down to exactly the limit, unless only local accounts have queued transactions. */
  ghost predicate Fits(sizes: seq<nat>, local: seq<bool>, limit: nat, r: seq<nat>)
    requires |sizes| == |local|
  {
    && (Sum(sizes) <= limit ==> r == sizes)
    && (Sum(sizes) > limit ==>
          || Sum(r) == limit
          || (|r| == |local| && Sum(r) > limit && forall a | 0 <= a < |r| && !local[a] :: r[a] == 0))
  }

  /** `left` is untouched, and everything already visited is gone while there is more to drop. */
  ghost predicate Dropping(sizes: seq<nat>, local: seq<bool>, beats: seq<nat>, left: set<nat>, r: seq<nat>, drop: nat)
    requires |sizes| == |local| == |beats|
  {
    && OldestFirst(sizes, local, beats, r)
    && (forall a | a in left :: a < |r| && !local[a] && r[a] == sizes[a])
    && (forall a: nat | a < |r| && !local[a] && a !in left && drop > 0 :: r[a] == 0)
  }

  method PopOldest(left: set<nat>, beats: seq<nat>) returns (a: nat)
    requires left != {} && forall x | x in left :: x < |beats|
    ensures a in left && forall x | x in left :: beats[a] <= beats[x]
  {
    a :| a in left;
    var rest := left;
    while rest != {}
      invariant a in left && rest <= left && forall x | x in left && x !in rest :: beats[a] <= beats[x]
    {
      var x :| x in rest;
      if beats[x] < beats[a] {
        a := x;
      }
      rest := rest - {x};
    }
  }

  /** Drops the account's whole list if it fits, else its last transactions one by one. */
  method DropFrom(size: nat, drop: nat) returns (kept: nat, left: nat)
    ensures kept == (if size <= drop then 0 else size - drop) && left == (if size <= drop then drop - size else 0)
  {
    if size <= drop {
      return 0, drop - size;
    }
    kept, left := size, drop;
    while kept > 0 && left > 0
      invariant kept - left == size - drop && left <= drop
    {
      kept, left := kept - 1, left - 1;
    }
  }

  lemma {:induction false} DroppingNext(sizes: seq<nat>, local: seq<bool>, beats: seq<nat>, left: set<nat>,
                                        r: seq<nat>, drop: nat, o: nat, kept: nat, drop': nat)
    requires |sizes| == |local| == |beats| && Dropping(sizes, local, beats, left, r, drop) && drop > 0
    requires o in left && (forall x | x in left :: x < |beats| && beats[o] <= beats[x])
    requires kept <= sizes[o] && (drop' > 0 ==> kept == 0)
    ensures Dropping(sizes, local, beats, left - {o}, r[o := kept], drop')
  {
  }

  /** Drops queued transactions down to exactly the limit, or until only local
      accounts have any. */
  method TruncateQueue(sizes: seq<nat>, local: seq<bool>, beats: seq<nat>, limit: nat) returns (r: seq<nat>)
    requires |sizes| == |local| == |beats|
    ensures OldestFirst(sizes, local, beats, r) && Fits(sizes, local, limit, r)
  {
    r := sizes;
    var queued := Total(sizes);
    if queued <= limit {
      return;
    }
    var addresses := set a: nat | a < |sizes| && !local[a];
    var drop: nat := queued - limit;
    while drop > 0 && addresses != {}
      invariant Dropping(sizes, local, beats, addresses, r, drop) && Sum(r) == limit + drop
      decreases addresses
    {
      var a := PopOldest(addresses, beats);
      var kept, rest := DropFrom(r[a], drop);
      DroppingNext(sizes, local, beats, addresses, r, drop, a, kept, rest);
      SumUpdate(r, a, kept);
      addresses, r, drop := addresses - {a}, r[a := kept], rest;
    }
  }
}
