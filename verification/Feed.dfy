/** The one-to-many event feed. A send keeps the cases still to be served as a prefix
    of the array of all cases; serving swaps a case to the end of the prefix and an
    unsubscription shifts the array left, both in place. */
module Feed {

  /** Channels are opaque; slot 0 of the case list is the feed's own channel for
      unsubscriptions. */
  type Chan = nat
  const REMOVE_SUB: Chan := 0

  type Subscriber = c: Chan | c != REMOVE_SUB witness 1

  /** What the environment does in one round of a send: which of the non-blocking
      attempts succeed, which case the blocking select then takes, and what others do to
      the inbox meanwhile. */
  datatype Round = Round(accepts: nat -> bool, choice: Choice, mail: seq<Mail>)
  datatype Mail = Joined(channel: Subscriber) | Left(channel: Subscriber)
  datatype Choice = Received(pick: nat) | Unsubscribed(channel: Chan)

  /** A send ends when all cases are served. It is still waiting if the rounds run out,
      and crashes if it is told to remove a channel that was never subscribed. */
  datatype Status = Done | Waiting | Crashed

  /** The seq without its element at index i. */
  function Without<T>(s: seq<T>, i: nat): (r: seq<T>)
    requires i < |s|
  {
    s[..i] + s[i + 1..]
  }

  function Swapped<T>(s: seq<T>, i: nat, j: nat): (r: seq<T>)
    requires i < |s| && j < |s|
  {
    s[i := s[j]][j := s[i]]
  }

  lemma WithoutMultiset<T>(s: seq<T>, i: nat)
    requires i < |s|
    ensures multiset(s) == multiset(Without(s, i)) + multiset{s[i]}
  {
    assert s == s[..i] + [s[i]] + s[i + 1..];
  }

  // --------------------------------------------------- one send, on the case list

  /** The bookkeeping of a send: cases[1..m] are still to be served and cases[m..] have
      been served. `log` lists the deliveries, `dropped` the channels unsubscribed
      before their turn and `late` those unsubscribed after it. */
  datatype Progress = Progress(cases: seq<Chan>, m: nat, log: seq<Chan>, dropped: seq<Chan>, late: seq<Chan>)

  ghost predicate WellFormed(cases: seq<Chan>) {
    |cases| >= 1 && cases[0] == REMOVE_SUB && forall i | 1 <= i < |cases| :: cases[i] != REMOVE_SUB
  }

  ghost predicate Balanced(p: Progress, subscribers: multiset<Chan>) {
    && WellFormed(p.cases) && 1 <= p.m <= |p.cases|
    && multiset(p.cases[1..p.m]) + multiset(p.log) + multiset(p.dropped) == subscribers
    && multiset(p.cases[p.m..]) + multiset(p.late) == multiset(p.log)
  }

  /** Serving case i: swap it to the end of the prefix and shrink the prefix. */
  function Served(p: Progress, i: nat): (r: Progress)
    requires 1 <= i < p.m <= |p.cases|
  {
    Progress(Swapped(p.cases, i, p.m - 1), p.m - 1, p.log + [p.cases[i]], p.dropped, p.late)
  }

  /** Removing case i. */
  function Removed(p: Progress, i: nat): (r: Progress)
    requires 1 <= i < |p.cases| && 1 <= p.m <= |p.cases|
  {
    if i < p.m then Progress(Without(p.cases, i), p.m - 1, p.log, p.dropped + [p.cases[i]], p.late)
    else Progress(Without(p.cases, i), p.m, p.log, p.dropped, p.late + [p.cases[i]])
  }

  lemma {:induction false} SwapSlices(s: seq<Chan>, i: nat, m: nat)
    requires 1 <= i < m <= |s|
    ensures Swapped(s, i, m - 1)[1..m - 1] == Swapped(s[1..m], i - 1, m - 2)[..m - 2]
    ensures Swapped(s, i, m - 1)[m - 1..] == [s[i]] + s[m..]
  {
    var r, active := Swapped(s, i, m - 1), s[1..m];
    var swapped := Swapped(active, i - 1, m - 2);
    assert forall k | 0 <= k < m - 2 :: r[1..m - 1][k] == r[k + 1] == swapped[k];
    assert r[m - 1] == s[i];
    assert r[m..] == s[m..];
    assert r[m - 1..] == [r[m - 1]] + r[m..];
  }

  /** Swapping an element to the end and cutting it off removes just that element. */
  lemma {:induction false} SwapLast(s: seq<Chan>, i: nat)
    requires i < |s|
    ensures multiset(s) == multiset(Swapped(s, i, |s| - 1)[..|s| - 1]) + multiset{s[i]}
  {
    var r, n := Swapped(s, i, |s| - 1), |s| - 1;
    assert multiset(r) == multiset(s);
    assert r == r[..n] + [s[i]];
  }

  lemma {:induction false} ServedBalanced(p: Progress, i: nat, subs: multiset<Chan>)
    requires Balanced(p, subs) && 1 <= i < p.m
    ensures Balanced(Served(p, i), subs)
  {
    var r, c := Served(p, i), p.cases[i];
    var active := p.cases[1..p.m];
    SwapSlices(p.cases, i, p.m);
    SwapLast(active, i - 1);
    AppendMultiset(p.log, c);
    ShiftLog(multiset(active), multiset(r.cases[1..r.m]), multiset(p.log), multiset(p.dropped), c);
    PrependMultiset(c, p.cases[p.m..]);
    ShiftServed(multiset(p.cases[p.m..]), multiset(p.late), multiset(p.log), c);
    SwappedWellFormed(p.cases, i, p.m - 1);
  }

  lemma SwappedWellFormed(s: seq<Chan>, i: nat, j: nat)
    requires WellFormed(s) && 1 <= i < |s| && 1 <= j < |s|
    ensures WellFormed(Swapped(s, i, j))
  {
  }

  lemma PrependMultiset(x: Chan, s: seq<Chan>)
    ensures multiset([x] + s) == multiset{x} + multiset(s)
  {
  }

  lemma ShiftServed(served: multiset<Chan>, late: multiset<Chan>, log: multiset<Chan>, x: Chan)
    requires served + late == log
    ensures multiset{x} + served + late == log + multiset{x}
  {
  }

  lemma ShiftLog(a: multiset<Chan>, b: multiset<Chan>, l: multiset<Chan>, d: multiset<Chan>, x: Chan)
    requires a == b + multiset{x}
    ensures b + (l + multiset{x}) + d == a + l + d
  {
  }

  lemma {:induction false} RemovedActiveSlices(s: seq<Chan>, i: nat, m: nat)
    requires 1 <= i < m <= |s|
    ensures Without(s, i)[1..m - 1] == Without(s[1..m], i - 1)
    ensures Without(s, i)[m - 1..] == s[m..]
  {
    assert s[1..m][..i - 1] == s[1..i] && s[1..m][i..] == s[i + 1..m];
    assert Without(s, i)[1..m - 1] == s[1..i] + s[i + 1..m];
  }

  lemma {:induction false} RemovedServedSlices(s: seq<Chan>, i: nat, m: nat)
    requires 1 <= m <= i < |s|
    ensures Without(s, i)[1..m] == s[1..m]
    ensures Without(s, i)[m..] == Without(s[m..], i - m)
  {
    assert s[m..][..i - m] == s[m..i] && s[m..][i - m + 1..] == s[i + 1..];
    assert Without(s, i)[m..] == s[m..i] + s[i + 1..];
    assert Without(s, i)[..m] == s[..m];
    assert Without(s, i)[1..m] == Without(s, i)[..m][1..] == s[..m][1..];
  }

  lemma AppendMultiset(s: seq<Chan>, x: Chan)
    ensures multiset(s + [x]) == multiset(s) + multiset{x}
  {
  }

  lemma ShiftOne(a: multiset<Chan>, b: multiset<Chan>, l: multiset<Chan>, d: multiset<Chan>, x: Chan)
    requires a == b + multiset{x}
    ensures b + l + (d + multiset{x}) == a + l + d
  {
  }

  lemma ShiftTwo(a: multiset<Chan>, b: multiset<Chan>, l: multiset<Chan>, x: Chan)
    requires a == b + multiset{x}
    ensures b + (l + multiset{x}) == a + l
  {
  }

  lemma {:induction false} RemovedActive(p: Progress, i: nat, subs: multiset<Chan>)
    requires Balanced(p, subs) && 1 <= i < p.m
    ensures Balanced(Removed(p, i), subs)
  {
    var c := p.cases[i];
    RemovedActiveSlices(p.cases, i, p.m);
    WithoutMultiset(p.cases[1..p.m], i - 1);
    AppendMultiset(p.dropped, c);
    ShiftOne(multiset(p.cases[1..p.m]), multiset(Without(p.cases[1..p.m], i - 1)), multiset(p.log),
        multiset(p.dropped), c);
    var r := Removed(p, i);
    assert r.cases[1..r.m] == Without(p.cases[1..p.m], i - 1) && r.cases[r.m..] == p.cases[p.m..];
  }

  lemma {:induction false} RemovedServed(p: Progress, i: nat, subs: multiset<Chan>)
    requires Balanced(p, subs) && p.m <= i < |p.cases|
    ensures Balanced(Removed(p, i), subs)
  {
    var c := p.cases[i];
    RemovedServedSlices(p.cases, i, p.m);
    WithoutMultiset(p.cases[p.m..], i - p.m);
    AppendMultiset(p.late, c);
    ShiftTwo(multiset(p.cases[p.m..]), multiset(Without(p.cases[p.m..], i - p.m)), multiset(p.late), c);
    var r := Removed(p, i);
    assert r.cases[1..r.m] == p.cases[1..p.m] && r.cases[r.m..] == Without(p.cases[p.m..], i - p.m);
  }

  lemma RemovedBalanced(p: Progress, i: nat, subs: multiset<Chan>)
    requires Balanced(p, subs) && 1 <= i < |p.cases|
    ensures Balanced(Removed(p, i), subs)
  {
    if i < p.m {
      RemovedActive(p, i, subs);
    } else {
      RemovedServed(p, i, subs);
    }
  }

  /** The unsubscriptions asked for in the first k rounds. */
  ghost function Asked(rounds: seq<Round>, k: nat): (r: multiset<Chan>)
    requires k <= |rounds|
  {
    if k == 0 then multiset{}
    else if rounds[k - 1].choice.Unsubscribed? then Asked(rounds, k - 1) + multiset{rounds[k - 1].choice.channel}
    else Asked(rounds, k - 1)
  }

  /** The channels taken off the list, before or after their turn, are those asked for. */
  ghost predicate Traced(p: Progress, asked: multiset<Chan>) {
    multiset(p.dropped) + multiset(p.late) == asked
  }

  lemma {:induction false} RemovedTraced(p: Progress, i: nat, asked: multiset<Chan>)
    requires Traced(p, asked) && 1 <= i < |p.cases| && 1 <= p.m <= |p.cases|
    ensures Traced(Removed(p, i), asked + multiset{p.cases[i]})
  {
    var c := p.cases[i];
    AppendMultiset(p.dropped, c);
    AppendMultiset(p.late, c);
  }

  /** During a send the case list is always what is left of the subscribers. */
  lemma {:induction false} LeftOver(p: Progress, subs: multiset<Chan>, asked: multiset<Chan>)
    requires Balanced(p, subs) && Traced(p, asked)
    ensures multiset(p.cases[1..]) + asked == subs
  {
    assert p.cases[1..] == p.cases[1..p.m] + p.cases[p.m..];
  }

  /** When all cases are served, every channel got the value as often as it was
      subscribed, less at most the unsubscriptions asked for during the send. */
  lemma {:induction false} DeliveredOnce(p: Progress, subs: multiset<Chan>, asked: multiset<Chan>, c: Chan)
    requires Balanced(p, subs) && Traced(p, asked) && p.m == 1
    ensures subs[c] - asked[c] <= multiset(p.log)[c] <= subs[c]
    ensures c !in asked ==> multiset(p.log)[c] == subs[c]
  {
    assert p.cases[1..1] == [];
    assert multiset(p.log) + multiset(p.dropped) == subs;
    assert multiset(p.dropped)[c] <= asked[c];
  }

  // ------------------------------------------------------------- a send, round by round

  ghost predicate InBounds(p: Progress) {
    1 <= p.m <= |p.cases|
  }

  /** The non-blocking pass: every case that accepts is served, the others stay. */
  ghost function Fast(p: Progress, accepts: nat -> bool, i: nat, attempt: nat): (r: Progress)
    requires InBounds(p) && 1 <= i <= p.m
    ensures InBounds(r)
    decreases p.m - i
  {
    if i == p.m then p
    else if accepts(attempt) then Fast(Served(p, i), accepts, i, attempt + 1)
    else Fast(p, accepts, i + 1, attempt + 1)
  }

  /** The index of the first case of a channel, or the length if there is none. */
  ghost function First(s: seq<Chan>, c: Chan): (i: nat)
    ensures i <= |s| && c !in s[..i] && (i < |s| ==> s[i] == c)
  {
    if s == [] then 0
    else if s[0] == c then 0
    else
      var i := First(s[1..], c);
      assert s[..i + 1] == [s[0]] + s[1..][..i];
      i + 1
  }

  // --------------------------------------------------------------- the inbox of a send

  /** A subscription enters the inbox; an unsubscription takes its channel out, if it is
      there. */
  ghost function Posted(inbox: seq<Chan>, mail: seq<Mail>): (r: seq<Chan>)
    ensures REMOVE_SUB !in inbox ==> REMOVE_SUB !in r
  {
    if mail == [] then inbox
    else
      var r := Posted(inbox, mail[..|mail| - 1]);
      match mail[|mail| - 1]
      case Joined(c) => r + [c]
      case Left(c) => if First(r, c) < |r| then Without(r, First(r, c)) else r
  }

  /** The inbox after k rounds: nobody is in it when a send starts. */
  ghost function Inbox(rounds: seq<Round>, k: nat): (r: seq<Chan>)
    requires k <= |rounds|
    ensures REMOVE_SUB !in r
  {
    if k == 0 then [] else Posted(Inbox(rounds, k - 1), rounds[k - 1].mail)
  }

  ghost function Joins(mail: seq<Mail>, c: Subscriber): nat {
    if mail == [] then 0
    else Joins(mail[..|mail| - 1], c) + if mail[|mail| - 1] == Joined(c) then 1 else 0
  }

  /** Whoever does not leave again stays in the inbox, once for every subscription. */
  lemma {:induction false} JoinedStay(inbox: seq<Chan>, mail: seq<Mail>, c: Subscriber)
    requires Left(c) !in mail
    ensures multiset(Posted(inbox, mail))[c] == multiset(inbox)[c] + Joins(mail, c)
  {
    if mail != [] {
      var init, last := mail[..|mail| - 1], mail[|mail| - 1];
      JoinedStay(inbox, init, c);
      var r := Posted(inbox, init);
      if last.Joined? {
        AppendMultiset(r, last.channel);
      } else if First(r, last.channel) < |r| {
        WithoutMultiset(r, First(r, last.channel));
      }
    }
  }

  /** Leaving takes one subscription of the channel out of the inbox, if there is one. */
  lemma {:induction false} LeavingTakesOne(inbox: seq<Chan>, mail: seq<Mail>, c: Subscriber)
    ensures multiset(Posted(inbox, mail + [Left(c)])) == multiset(Posted(inbox, mail)) - multiset{c}
  {
    var r := Posted(inbox, mail);
    assert (mail + [Left(c)])[..|mail|] == mail;
    if First(r, c) < |r| {
      WithoutMultiset(r, First(r, c));
    } else {
      assert r[..|r|] == r;
    }
  }

  /** One select: the picked case is served, or the first case of a channel removed. */
  ghost function Selected(p: Progress, choice: Choice): (r: Progress)
    requires InBounds(p) && p.m > 1
    requires choice.Unsubscribed? ==> 1 <= First(p.cases, choice.channel) < |p.cases|
    ensures InBounds(r)
  {
    match choice
    case Received(pick) => Served(p, 1 + pick % (p.m - 1))
    case Unsubscribed(c) => Removed(p, First(p.cases, c))
  }

  function Accepts(rounds: seq<Round>, k: nat): nat -> bool {
    if k < |rounds| then rounds[k].accepts else n => false
  }

  datatype Outcome = Outcome(p: Progress, status: Status, k: nat)

  /** Where a send ends that stands before round k. */
  ghost function Rounds(p: Progress, rounds: seq<Round>, k: nat): (r: Outcome)
    requires InBounds(p) && k <= |rounds|
    decreases |rounds| - k
  {
    var q := Fast(p, Accepts(rounds, k), 1, 0);
    if q.m == 1 then Outcome(q, Done, k)
    else if k == |rounds| then Outcome(q, Waiting, k)
    else
      var choice := rounds[k].choice;
      if choice.Unsubscribed? && !(1 <= First(q.cases, choice.channel) < |q.cases|) then Outcome(q, Crashed, k)
      else Rounds(Selected(q, choice), rounds, k + 1)
  }

  lemma {:induction false} FastKeeps(p: Progress, accepts: nat -> bool, i: nat, attempt: nat, subs: multiset<Chan>)
    requires InBounds(p) && 1 <= i <= p.m && Balanced(p, subs)
    ensures var r := Fast(p, accepts, i, attempt);
            Balanced(r, subs) && r.dropped == p.dropped && r.late == p.late && |p.log| <= |r.log|
    decreases p.m - i
  {
    if i < p.m {
      if accepts(attempt) {
        ServedBalanced(p, i, subs);
        FastKeeps(Served(p, i), accepts, i, attempt + 1, subs);
      } else {
        FastKeeps(p, accepts, i + 1, attempt + 1, subs);
      }
    }
  }

  /** If every channel accepts at once, the first pass serves all. */
  lemma {:induction false} FastServesAll(p: Progress, accepts: nat -> bool, attempt: nat)
    requires InBounds(p) && forall n :: accepts(n)
    ensures Fast(p, accepts, 1, attempt).m == 1
    decreases p.m
  {
    if p.m > 1 {
      FastServesAll(Served(p, 1), accepts, attempt + 1);
    }
  }

  lemma {:induction false} SelectedKeeps(p: Progress, rounds: seq<Round>, k: nat, subs: multiset<Chan>)
    requires k < |rounds| && Running(p, rounds, k, subs) && p.m > 1
    requires rounds[k].choice.Unsubscribed? ==> 1 <= First(p.cases, rounds[k].choice.channel) < |p.cases|
    ensures Running(Selected(p, rounds[k].choice), rounds, k + 1, subs)
  {
    match rounds[k].choice
    case Received(pick) => ServedBalanced(p, 1 + pick % (p.m - 1), subs);
    case Unsubscribed(c) =>
      RemovedBalanced(p, First(p.cases, c), subs);
      RemovedTraced(p, First(p.cases, c), Asked(rounds, k));
  }

  /** After k selects: the books are balanced, the channels that left are those asked
      for, and each select served or removed one case. */
  ghost predicate Running(p: Progress, rounds: seq<Round>, k: nat, subs: multiset<Chan>) {
    k <= |rounds| && Balanced(p, subs) && Traced(p, Asked(rounds, k)) && |p.log| + |Asked(rounds, k)| >= k
  }

  lemma {:induction false} FastRuns(p: Progress, rounds: seq<Round>, k: nat, subs: multiset<Chan>)
    requires Running(p, rounds, k, subs)
    ensures Running(Fast(p, Accepts(rounds, k), 1, 0), rounds, k, subs)
  {
    FastKeeps(p, Accepts(rounds, k), 1, 0, subs);
  }

  /** ... and the status is right. */
  ghost predicate Settled(r: Outcome, rounds: seq<Round>, subs: multiset<Chan>) {
    && Running(r.p, rounds, r.k, subs)
    && (r.status == Done <==> r.p.m == 1)
    && (r.status == Waiting ==> r.k == |rounds|)
    && (r.status == Crashed ==>
          r.k < |rounds| && rounds[r.k].choice.Unsubscribed? && rounds[r.k].choice.channel !in r.p.cases[1..])
  }

  /** Whatever the rounds bring, a send ends settled. */
  lemma {:induction false} RoundsSettle(p: Progress, rounds: seq<Round>, k: nat, subs: multiset<Chan>)
    requires Running(p, rounds, k, subs)
    ensures Settled(Rounds(p, rounds, k), rounds, subs)
    decreases |rounds| - k
  {
    var q := Fast(p, Accepts(rounds, k), 1, 0);
    FastRuns(p, rounds, k, subs);
    if q.m == 1 || k == |rounds| {
    } else if rounds[k].choice.Unsubscribed? && !(1 <= First(q.cases, rounds[k].choice.channel) < |q.cases|) {
      NoSuchCase(q.cases, rounds[k].choice.channel);
    } else {
      SelectedKeeps(q, rounds, k, subs);
      RoundsSettle(Selected(q, rounds[k].choice), rounds, k + 1, subs);
    }
  }

  lemma {:induction false} AllDelivered(p: Progress, subs: multiset<Chan>, asked: multiset<Chan>)
    requires Balanced(p, subs) && Traced(p, asked) && p.m == 1
    ensures forall c :: subs[c] - asked[c] <= multiset(p.log)[c] <= subs[c]
  {
    forall c
      ensures subs[c] - asked[c] <= multiset(p.log)[c] <= subs[c]
    {
      DeliveredOnce(p, subs, asked, c);
    }
  }

  lemma {:induction false} SomeDelivered(p: Progress, subs: multiset<Chan>)
    requires Balanced(p, subs)
    ensures forall c :: multiset(p.log)[c] <= subs[c]
  {
  }

  /** What a settled send has done: the cases left and the unsubscriptions asked for add up
      to the subscribers, and a finished one delivered to all but at most those who left. */
  lemma {:induction false} SettledMeans(r: Outcome, rounds: seq<Round>, subs: multiset<Chan>)
    requires Settled(r, rounds, subs)
    ensures r.k <= |rounds| && multiset(r.p.cases[1..]) + Asked(rounds, r.k) == subs
    ensures forall c :: multiset(r.p.log)[c] <= subs[c]
    ensures r.status == Done ==> forall c :: subs[c] <= multiset(r.p.log)[c] + Asked(rounds, r.k)[c]
    ensures r.status == Waiting ==> r.k == |rounds|
    ensures r.status == Crashed ==>
              r.k < |rounds| && rounds[r.k].choice.Unsubscribed? && rounds[r.k].choice.channel !in r.p.cases[1..]
    ensures |r.p.log| + |Asked(rounds, r.k)| >= r.k
  {
    LeftOver(r.p, subs, Asked(rounds, r.k));
    SomeDelivered(r.p, subs);
    if r.status == Done {
      AllDelivered(r.p, subs, Asked(rounds, r.k));
    }
  }

  lemma {:induction false} NoSuchCase(s: seq<Chan>, c: Chan)
    requires WellFormed(s) && !(1 <= First(s, c) < |s|)
    ensures c !in s[1..]
  {
    if First(s, c) == |s| {
      assert s[..|s|] == s;
    }
  }

  // ------------------------------------------------------------- in-place operations

  /** Index of the first case with the given channel, or -1. */
  method Find(a: array<Chan>, n: nat, c: Chan) returns (index: int)
    requires n <= a.Length
    ensures -1 <= index < n
    ensures index >= 0 ==> a[index] == c && c !in a[..index]
    ensures index < 0 ==> c !in a[..n]
  {
    index := 0;
    while index < n
      invariant 0 <= index <= n && c !in a[..index]
    {
      if a[index] == c {
        return;
      }
      index := index + 1;
    }
    index := -1;
  }

  method FindIn(s: seq<Chan>, c: Chan) returns (index: nat)
    requires c in s
    ensures index < |s| && s[index] == c && c !in s[..index]
  {
    index := 0;
    while s[index] != c
      invariant 0 <= index < |s| && c !in s[..index]
      decreases |s| - index
    {
      index := index + 1;
    }
  }

  /** Shifts the cases above index one place down. */
  method Delete(a: array<Chan>, n: nat, index: nat)
    requires index < n <= a.Length
    modifies a
    ensures a[..n - 1] == Without(old(a[..n]), index)
  {
    var i := index;
    while i < n - 1
      invariant index <= i <= n - 1
      invariant forall k | 0 <= k < index :: a[k] == old(a[k])
      invariant forall k | index <= k < i :: a[k] == old(a[k + 1])
      invariant forall k | i <= k < n :: a[k] == old(a[k])
    {
      a[i] := a[i + 1];
      i := i + 1;
    }
  }

  /** Swaps case i to the end of the prefix of length m. */
  method Deactivate(a: array<Chan>, n: nat, i: nat, m: nat)
    requires i < m <= n <= a.Length
    modifies a
    ensures a[..n] == Swapped(old(a[..n]), i, m - 1)
  {
    a[i], a[m - 1] := a[m - 1], a[i];
  }

  /** What one removal does to the case list between sends. */
  lemma {:induction false} WithoutCase(s: seq<Chan>, i: nat)
    requires WellFormed(s) && 1 <= i < |s|
    ensures WellFormed(Without(s, i))
    ensures multiset(Without(s, i)[1..]) == multiset(s[1..]) - multiset{s[i]}
  {
    WithoutMultiset(s[1..], i - 1);
    assert Without(s, i)[1..] == Without(s[1..], i - 1);
  }

  /** A send starts with everyone to be served. */
  function Started(cases: seq<Chan>): Progress {
    Progress(cases, |cases|, [], [], [])
  }

  lemma {:induction false} StartBalanced(s: seq<Chan>, inbox: seq<Chan>)
    requires WellFormed(s) && REMOVE_SUB !in inbox
    ensures Balanced(Started(s + inbox), multiset(s[1..]) + multiset(inbox))
  {
    var p := Started(s + inbox);
    assert p.cases[1..p.m] == s[1..] + inbox;
    assert p.cases[p.m..] == [];
    assert multiset(s[1..] + inbox) == multiset(s[1..]) + multiset(inbox);
  }

  lemma MinusOne(a: multiset<Chan>, b: multiset<Chan>, x: Chan)
    ensures x in b ==> a + (b - multiset{x}) == (a + b) - multiset{x}
    ensures x in a ==> (a - multiset{x}) + b == (a + b) - multiset{x}
  {
  }

  class Feed {
    var sendCases: array<Chan>
    var count: nat          // length of the case list
    var inbox: seq<Chan>    // subscribed since the last send

    ghost function Cases(): seq<Chan>
      reads this, sendCases
      requires count <= sendCases.Length
    {
      sendCases[..count]
    }

    ghost predicate Valid()
      reads this, sendCases
    {
      count <= sendCases.Length && WellFormed(Cases()) && REMOVE_SUB !in inbox
    }

    /** Everyone subscribed, with multiplicity. */
    ghost function Subscribers(): multiset<Chan>
      reads this, sendCases
      requires Valid()
    {
      multiset(Cases()[1..]) + multiset(inbox)
    }

    constructor ()
      ensures Valid() && fresh(sendCases) && Subscribers() == multiset{}
    {
      sendCases := new Chan[1](i => REMOVE_SUB);
      count, inbox := 1, [];
    }

    method Subscribe(c: Chan)
      requires Valid() && c != REMOVE_SUB
      modifies this`inbox
      ensures Valid() && Subscribers() == old(Subscribers()) + multiset{c}
    {
      inbox := inbox + [c];
    }

    method RemoveCase(c: Chan)
      requires Valid() && c in Cases()[1..]
      modifies this`count, sendCases
      ensures Valid()
      ensures multiset(Cases()[1..]) == multiset(old(Cases()[1..])) - multiset{c}
    {
      ghost var s := Cases();
      var index := Find(sendCases, count, c);
      WithoutCase(s, index);
      Delete(sendCases, count, index);
      count := count - 1;
      assert Cases() == Without(s, index);
    }

    method RemoveQueued(c: Chan)
      requires c in inbox && REMOVE_SUB !in inbox
      modifies this`inbox
      ensures First(old(inbox), c) < |old(inbox)| && inbox == Without(old(inbox), First(old(inbox), c))
      ensures multiset(inbox) == multiset(old(inbox)) - multiset{c} && REMOVE_SUB !in inbox
    {
      var i := FindIn(inbox, c);
      FoundFirst(inbox, c, i);
      WithoutMultiset(inbox, i);
      inbox := Without(inbox, i);
    }

    /** What others do to the inbox while a send is in progress. */
    method Post(mail: seq<Mail>)
      requires REMOVE_SUB !in inbox
      modifies this`inbox
      ensures inbox == Posted(old(inbox), mail) && REMOVE_SUB !in inbox
    {
      ghost var first := inbox;
      for i := 0 to |mail|
        invariant inbox == Posted(first, mail[..i]) && REMOVE_SUB !in inbox
      {
        assert mail[..i + 1][..i] == mail[..i];
        match mail[i] {
          case Joined(c) =>
            inbox := inbox + [c];
          case Left(c) =>
            if c in inbox {
              RemoveQueued(c);
            } else {
              FoundFirst(inbox, c, -1);
            }
        }
      }
      assert mail[..|mail|] == mail;
    }

    /** An unsubscription while no send is in progress: the inbox is searched first. */
    method Remove(c: Chan)
      requires Valid() && c in Subscribers()
      modifies this, sendCases
      ensures Valid() && Subscribers() == old(Subscribers()) - multiset{c}
    {
      MinusOne(multiset(Cases()[1..]), multiset(inbox), c);
      if c in inbox {
        RemoveQueued(c);
      } else {
        RemoveCase(c);
      }
    }

    /** Serves case i. */
    method Serve(m: nat, i: nat, ghost p0: Progress) returns (c: Chan, ghost p: Progress)
      requires p0.m == m && 1 <= i < m <= count <= sendCases.Length && p0.cases == Cases()
      modifies sendCases
      ensures c == p0.cases[i] && p == Served(p0, i) && p.cases == Cases()
    {
      c := sendCases[i];
      Deactivate(sendCases, count, i, m);
      assert Cases() == Swapped(p0.cases, i, m - 1);
      p := Served(p0, i);
    }

    /** Takes case i off the list. */
    method Cancel(i: nat, ghost p0: Progress) returns (ghost p: Progress)
      requires 1 <= i < count <= sendCases.Length && p0.cases == Cases() && InBounds(p0)
      modifies sendCases, this`count
      ensures count <= sendCases.Length && p == Removed(p0, i) && p.cases == Cases()
    {
      Delete(sendCases, count, i);
      count := count - 1;
      assert Cases() == Without(p0.cases, i);
      p := Removed(p0, i);
    }

    /** The non-blocking pass over the cases still to be served. */
    method FastPass(m0: nat, accepts: nat -> bool, ghost p0: Progress)
      returns (m: nat, sent: seq<Chan>, ghost p: Progress)
      requires p0.m == m0 && InBounds(p0) && count <= sendCases.Length && p0.cases == Cases()
      modifies sendCases
      ensures p == Fast(p0, accepts, 1, 0) && p.m == m && p.cases == Cases() && p.log == p0.log + sent
    {
      m, sent, p := m0, [], p0;
      var i, attempt := 1, 0;
      while i < m
        invariant InBounds(p) && p.m == m && 1 <= i <= m && p.cases == Cases() && p.log == p0.log + sent
        invariant Fast(p, accepts, i, attempt) == Fast(p0, accepts, 1, 0)
        decreases m - i
      {
        if accepts(attempt) {
          var c;
          c, p := Serve(m, i, p);
          assert p0.log + (sent + [c]) == (p0.log + sent) + [c];
          m, sent := m - 1, sent + [c];
        } else {
          i := i + 1;
        }
        attempt := attempt + 1;
      }
    }

    /** The case taken by the blocking select: a delivery, or an unsubscription, which
        takes the first case of its channel off the list. */
    method Take(m0: nat, choice: Choice, ghost p0: Progress)
      returns (m: nat, sent: seq<Chan>, ok: bool, ghost p: Progress)
      requires p0.m == m0 > 1 && InBounds(p0) && count <= sendCases.Length && p0.cases == Cases()
      modifies sendCases, this`count
      ensures p.m == m && InBounds(p) && count <= sendCases.Length && p.cases == Cases() && p.log == p0.log + sent
      ensures ok <==> choice.Unsubscribed? ==> 1 <= First(p0.cases, choice.channel) < |p0.cases|
      ensures p == if ok then Selected(p0, choice) else p0
    {
      m, sent, ok, p := m0, [], true, p0;
      match choice {
        case Unsubscribed(c) =>
          var index := Find(sendCases, count, c);
          FoundFirst(p.cases, c, index);
          if index <= 0 {
            ok := false;
            return;
          }
          p := Cancel(index, p);
          if index < m {
            m := m - 1;
          }
        case Received(pick) =>
          var c;
          c, p := Serve(m, 1 + pick % (m - 1), p);
          m, sent := m - 1, [c];
      }
    }

    /** Moves the inbox into the case list. */
    method Merge()
      requires count <= sendCases.Length
      modifies this
      ensures count <= sendCases.Length && fresh(sendCases) && inbox == []
      ensures Cases() == old(Cases()) + old(inbox)
    {
      var all := new Chan[count + |inbox|];
      forall i | 0 <= i < count {
        all[i] := sendCases[i];
      }
      forall i | 0 <= i < |inbox| {
        all[count + i] := inbox[i];
      }
      assert all[..] == sendCases[..count] + inbox;
      sendCases, count, inbox := all, all.Length, [];
    }

    /** Delivers one value to all subscribers; k selects were made. A finished send
        delivered to every channel as often as it was subscribed, less at most the
        unsubscriptions made meanwhile, and these are exactly what left the case list.
        Whoever subscribed meanwhile gets nothing yet and is in the inbox. */
    method Send(rounds: seq<Round>)
      returns (nsent: nat, delivered: seq<Chan>, status: Status, k: nat, ghost p: Progress)
      requires Valid()
      modifies this, sendCases
      ensures Valid() && k <= |rounds| && inbox == Inbox(rounds, k)
      ensures Outcome(p, status, k) == Rounds(Started(old(Cases() + inbox)), rounds, 0)
      ensures p.cases == Cases() && delivered == p.log
      ensures nsent == |delivered| && Subscribers() + Asked(rounds, k) == old(Subscribers()) + multiset(inbox)
      ensures forall c :: multiset(delivered)[c] <= old(Subscribers())[c]
      ensures status == Done ==> forall c :: old(Subscribers())[c] <= multiset(delivered)[c] + Asked(rounds, k)[c]
      ensures status == Waiting ==> k == |rounds|
      ensures status == Crashed ==>
                k < |rounds| && rounds[k].choice.Unsubscribed? && rounds[k].choice.channel !in Cases()[1..]
      ensures nsent + |Asked(rounds, k)| >= k
    {
      ghost var subs := Subscribers();
      StartBalanced(Cases(), inbox);
      p := Started(Cases() + inbox);
      Merge();
      RoundsSettle(p, rounds, 0, subs);
      delivered, status, k, p := Loop(rounds, p);
      nsent := |delivered|;
      SettledMeans(Outcome(p, status, k), rounds, subs);
    }

    /** One round of a send: a non-blocking pass, one select, and what others did to the
        inbox meanwhile. */
    method Turn(m0: nat, rounds: seq<Round>, k: nat, ghost p0: Progress)
      returns (m: nat, sent: seq<Chan>, status: Status, more: bool, ghost p: Progress)
      requires p0.m == m0 && InBounds(p0) && count <= sendCases.Length && p0.cases == Cases()
      requires k <= |rounds| && inbox == Inbox(rounds, k)
      modifies sendCases, this`count, this`inbox
      ensures p.m == m && InBounds(p) && count <= sendCases.Length && p.cases == Cases() && p.log == p0.log + sent
      ensures if more then k < |rounds| && Rounds(p, rounds, k + 1) == Rounds(p0, rounds, k)
              else Outcome(p, status, k) == Rounds(p0, rounds, k)
      ensures inbox == Inbox(rounds, if more then k + 1 else k)
    {
      m, sent, p := FastPass(m0, Accepts(rounds, k), p0);
      if m == 1 {
        return m, sent, Done, false, p;
      }
      if k == |rounds| {
        return m, sent, Waiting, false, p;
      }
      var taken, ok;
      m, taken, ok, p := Take(m, rounds[k].choice, p);
      assert p0.log + (sent + taken) == (p0.log + sent) + taken;
      sent := sent + taken;
      if !ok {
        return m, sent, Crashed, false, p;
      }
      Post(rounds[k].mail);
      return m, sent, Waiting, true, p;
    }

    /** The rounds of a send. */
    method Loop(rounds: seq<Round>, ghost p0: Progress)
      returns (delivered: seq<Chan>, status: Status, k: nat, ghost p: Progress)
      requires count <= sendCases.Length && p0.cases == Cases() && p0.m == count >= 1 && p0.log == [] && inbox == []
      modifies this`count, this`inbox, sendCases
      ensures Outcome(p, status, k) == Rounds(p0, rounds, 0)
      ensures k <= |rounds| && inbox == Inbox(rounds, k)
      ensures count <= sendCases.Length && p.cases == Cases() && delivered == p.log
    {
      var m, more := count, true;
      delivered, status, k, p := [], Waiting, 0, p0;
      while true
        invariant count <= sendCases.Length && p.m == m && InBounds(p) && p.cases == Cases() && delivered == p.log
        invariant k <= |rounds| && Rounds(p, rounds, k) == Rounds(p0, rounds, 0) && inbox == Inbox(rounds, k)
        decreases |rounds| - k
      {
        var sent;
        m, sent, status, more, p := Turn(m, rounds, k, p);
        delivered := delivered + sent;
        if !more {
          return;
        }
        k := k + 1;
      }
    }
  }

  lemma {:induction false} FoundFirst(s: seq<Chan>, c: Chan, index: int)
    requires -1 <= index < |s|
    requires if index >= 0 then s[index] == c && c !in s[..index] else c !in s
    ensures First(s, c) == if index >= 0 then index else |s|
  {
    var i := First(s, c);
    if index >= 0 {
      assert forall j | 0 <= j < index :: s[..index][j] != c;
      assert forall j | 0 <= j < i :: s[..i][j] != c;
    }
  }
}
