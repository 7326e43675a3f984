/** The remote transactions by price: an urgent heap by effective tip and a floating
    heap by fee cap, both with entries that may have left the pool. A heap is taken as
    the bag of its entries whose pop gives a least one. */
module PricedList {
  import opened PoolLists

  type Bag = multiset<Tx>

  datatype Heaps = Heaps(urgent: Bag, floating: Bag) {
    ghost function Entries(): Bag {
      urgent + floating
    }
  }

  datatype BaseFee = NoBaseFee | BaseFee(fee: nat)

  const URGENT_RATIO: nat := 4
  const FLOATING_RATIO: nat := 1

  // ------------------------------------------------------------------------- the order

  function EffectiveTip(tx: Tx, fee: nat): int {
    if tx.feeCap - fee < tx.tipCap then tx.feeCap - fee else tx.tipCap
  }

  /** a is cheaper than b: by effective tip if there is a base fee, then by fee cap,
      then by tip. */
  predicate Cheaper(base: BaseFee, a: Tx, b: Tx) {
    if base.BaseFee? && EffectiveTip(a, base.fee) != EffectiveTip(b, base.fee)
    then EffectiveTip(a, base.fee) < EffectiveTip(b, base.fee)
    else if a.feeCap != b.feeCap then a.feeCap < b.feeCap
    else a.tipCap < b.tipCap
  }

  /** With a base fee: by what is left for the author, at most the tip, then fee cap, then tip. */
  lemma CheaperMeans(fee: nat, a: Tx, b: Tx)
    ensures var x: int, y: int := a.feeCap - fee, b.feeCap - fee;
            var u, v := if x < a.tipCap then x else a.tipCap, if y < b.tipCap then y else b.tipCap;
            Cheaper(BaseFee(fee), a, b) <==>
            || u < v
            || (u == v && a.feeCap < b.feeCap)
            || (u == v && a.feeCap == b.feeCap && a.tipCap < b.tipCap)
    ensures Cheaper(NoBaseFee, a, b) <==> a.feeCap < b.feeCap || (a.feeCap == b.feeCap && a.tipCap < b.tipCap)
  {
  }

  /** The heap order: cheaper first, and among equals the higher nonce. */
  predicate Sooner(base: BaseFee, a: Tx, b: Tx) {
    Cheaper(base, a, b) || (!Cheaper(base, b, a) && a.nonce > b.nonce)
  }

  ghost predicate IsFirst(base: BaseFee, bag: Bag, x: Tx) {
    x in bag && forall y | y in bag :: !Sooner(base, y, x)
  }

  /** heap.Pop. */
  method Pop(base: BaseFee, bag: Bag) returns (x: Tx, rest: Bag)
    requires bag != multiset{}
    ensures IsFirst(base, bag, x) && rest == bag - multiset{x}
  {
    x :| x in bag;
    var left := bag;
    while left != multiset{}
      invariant x in bag && left <= bag
      invariant forall y | y in bag && left[y] < bag[y] :: !Sooner(base, y, x)
      decreases |left|
    {
      var y :| y in left;
      if Sooner(base, y, x) {
        x := y;
      }
      left := left - multiset{y};
    }
    rest := bag - multiset{x};
  }

  // --------------------------------------------------------------------------- slots

  function SlotsOf(txs: seq<Tx>): nat {
    if txs == [] then 0 else SlotsOf(txs[..|txs| - 1]) + NumSlots(txs[|txs| - 1])
  }

  // ------------------------------------------------------------------------ discarding

  /** Entries whose transaction is still a remote one of the pool. */
  predicate Live(remotes: map<Hash, Tx>, tx: Tx) {
    tx.hash in remotes
  }

  ghost predicate ConservedAt(remotes: map<Hash, Tx>, before: Bag, after: Bag, drop: seq<Tx>, tx: Tx) {
    if Live(remotes, tx) then before[tx] == after[tx] + multiset(drop)[tx]
    else after[tx] <= before[tx] && multiset(drop)[tx] == 0
  }

  /** Live entries are conserved: held before is held after or dropped. Stale ones can
      only vanish, and only live ones are dropped. */
  ghost predicate Conserved(remotes: map<Hash, Tx>, before: Bag, after: Bag, drop: seq<Tx>) {
    forall tx :: ConservedAt(remotes, before, after, drop, tx)
  }

  lemma {:induction false} StaleGone(remotes: map<Hash, Tx>, before: Bag, after: Bag, drop: seq<Tx>, x: Tx, after': Bag)
    requires Conserved(remotes, before, after, drop) && x in after && !Live(remotes, x) && after' == after - multiset{x}
    ensures Conserved(remotes, before, after', drop)
  {
    forall tx
      ensures ConservedAt(remotes, before, after', drop, tx)
    {
      assert ConservedAt(remotes, before, after, drop, tx);
    }
  }

  lemma {:induction false} LiveDropped(remotes: map<Hash, Tx>, before: Bag, after: Bag, drop: seq<Tx>, x: Tx,
                                       after': Bag)
    requires Conserved(remotes, before, after, drop) && x in after && Live(remotes, x) && after' == after - multiset{x}
    ensures Conserved(remotes, before, after', drop + [x])
  {
    forall tx
      ensures ConservedAt(remotes, before, after', drop + [x], tx)
    {
      assert ConservedAt(remotes, before, after, drop, tx);
    }
  }

  lemma {:induction false} Moves(u: Bag, f: Bag, x: Tx)
    ensures x in u ==> (u - multiset{x}) + f == (u + f) - multiset{x} && (u - multiset{x}) + (f + multiset{x}) == u + f
    ensures x in f ==> u + (f - multiset{x}) == (u + f) - multiset{x}
  {
  }

  /** What left the urgent heap is no better than what remains in it. */
  ghost predicate WorstLeft(base: BaseFee, before: Bag, after: Bag) {
    after <= before && forall x, y | x in before && after[x] < before[x] && y in after :: !Sooner(base, y, x)
  }

  lemma {:induction false} PopWorst(base: BaseFee, before: Bag, bag: Bag, x: Tx, rest: Bag)
    requires WorstLeft(base, before, bag) && IsFirst(base, bag, x) && rest == bag - multiset{x}
    ensures WorstLeft(base, before, rest)
  {
  }

  /** One turn with the urgent heap: its worst entry becomes a floating one or, if it is
      stale, goes. */
  method Demote(base: BaseFee, urgent: Bag, floating: Bag, remotes: map<Hash, Tx>, ghost first: Bag,
                ghost before: Bag, ghost drop: seq<Tx>)
    returns (urgent': Bag, floating': Bag)
    requires urgent != multiset{} && WorstLeft(base, first, urgent)
             && Conserved(remotes, before, urgent + floating, drop)
    ensures |urgent'| == |urgent| - 1 && floating <= floating' && |floating'| <= |floating| + 1
    ensures WorstLeft(base, first, urgent') && Conserved(remotes, before, urgent' + floating', drop)
  {
    var x;
    x, urgent' := Pop(base, urgent);
    PopWorst(base, first, urgent, x, urgent');
    Moves(urgent, floating, x);
    floating' := floating;
    if Live(remotes, x) {
      floating' := floating + multiset{x};
    } else {
      StaleGone(remotes, before, urgent + floating, drop, x, urgent' + floating);
    }
  }

  /** The last drop was needed, came from a heap of its share, and was its worst entry. */
  ghost predicate LastDrop(after: Heaps, drop: seq<Tx>, slots: int) {
    drop != [] ==>
      && SlotsOf(drop[..|drop| - 1]) < slots
      && (forall y | y in after.floating :: !Sooner(NoBaseFee, y, drop[|drop| - 1]))
      && |after.urgent| * FLOATING_RATIO <= (|after.floating| + 1) * URGENT_RATIO
  }

  /** No floating transaction stays while a better one is dropped. */
  ghost predicate NoneSpared(remotes: map<Hash, Tx>, floating: Bag, drop: seq<Tx>) {
    forall i, y | 0 <= i < |drop| && Live(remotes, y) && multiset(drop)[y] < floating[y] ::
      !Sooner(NoBaseFee, y, drop[i])
  }

  ghost predicate SameAt(remotes: map<Hash, Tx>, before: Bag, after: Bag, y: Tx) {
    Live(remotes, y) ==> after[y] == before[y]
  }

  /** Live entries stay urgent, or no more leave than keep the heaps balanced. */
  ghost predicate NoneWasted(remotes: map<Hash, Tx>, urgent: Bag, after: Heaps) {
    || (forall y :: SameAt(remotes, urgent, after.urgent, y))
    || (|after.urgent| + 1) * FLOATING_RATIO > (|after.floating| - 1) * URGENT_RATIO
  }

  /** Those dropped are the worst: of the urgent entries by effective tip the worst leave
      that heap, and of the floating ones by fee cap the worst are dropped. */
  ghost predicate WorstDropped(remotes: map<Hash, Tx>, base: BaseFee, before: Heaps, after: Heaps, drop: seq<Tx>,
                               slots: int) {
    && WorstLeft(base, before.urgent, after.urgent) && NoneSpared(remotes, before.floating, drop)
    && NoneWasted(remotes, before.urgent, after) && LastDrop(after, drop, slots)
  }

  ghost predicate StillAt(remotes: map<Hash, Tx>, first: Bag, floating: Bag, drop: seq<Tx>, y: Tx) {
    Live(remotes, y) ==> first[y] <= floating[y] + multiset(drop)[y]
  }

  /** Live floating entries are still there or dropped. */
  ghost predicate Still(remotes: map<Hash, Tx>, first: Bag, floating: Bag, drop: seq<Tx>) {
    forall y :: StillAt(remotes, first, floating, drop, y)
  }

  lemma {:induction false} StillMore(remotes: map<Hash, Tx>, first: Bag, floating: Bag, drop: seq<Tx>, more: Bag)
    requires Still(remotes, first, floating, drop) && floating <= more
    ensures Still(remotes, first, more, drop)
  {
    forall y
      ensures StillAt(remotes, first, more, drop, y)
    {
      assert StillAt(remotes, first, floating, drop, y);
    }
  }

  lemma {:induction false} StillOneLess(remotes: map<Hash, Tx>, first: Bag, floating: Bag, drop: seq<Tx>, x: Tx,
                                        drop': seq<Tx>)
    requires Still(remotes, first, floating, drop) && IsFirst(NoBaseFee, floating, x)
    requires NoneSpared(remotes, first, drop) && drop' == if Live(remotes, x) then drop + [x] else drop
    ensures Still(remotes, first, floating - multiset{x}, drop') && NoneSpared(remotes, first, drop')
  {
    forall y
      ensures StillAt(remotes, first, floating - multiset{x}, drop', y)
    {
      assert StillAt(remotes, first, floating, drop, y);
    }
    forall i, y | 0 <= i < |drop'| && Live(remotes, y) && multiset(drop')[y] < first[y]
      ensures !Sooner(NoBaseFee, y, drop'[i])
    {
      assert StillAt(remotes, first, floating, drop, y);
      assert multiset(drop)[y] <= multiset(drop')[y];
    }
  }

  /** One turn with the floating heap: its worst entry is dropped or, if stale, goes. */
  method Evict(floating: Bag, remotes: map<Hash, Tx>, drop: seq<Tx>, ghost urgent: Bag, ghost before: Bag,
               ghost first: Bag)
    returns (floating': Bag, drop': seq<Tx>)
    requires floating != multiset{} && Conserved(remotes, before, urgent + floating, drop)
    requires Still(remotes, first, floating, drop) && NoneSpared(remotes, first, drop)
    ensures |floating'| == |floating| - 1 && Conserved(remotes, before, urgent + floating', drop')
    ensures Still(remotes, first, floating', drop') && NoneSpared(remotes, first, drop')
    ensures drop' == drop || (|drop'| == |drop| + 1 && drop'[..|drop|] == drop
            && forall y | y in floating' :: !Sooner(NoBaseFee, y, drop'[|drop|]))
  {
    var x;
    x, floating' := Pop(NoBaseFee, floating);
    Moves(urgent, floating, x);
    drop' := drop;
    if Live(remotes, x) {
      LiveDropped(remotes, before, urgent + floating, drop, x, urgent + floating');
      drop' := drop + [x];
    } else {
      StaleGone(remotes, before, urgent + floating, drop, x, urgent + floating');
    }
    StillOneLess(remotes, first, floating, drop, x, drop');
  }

  method Gather(base: BaseFee, urgent: Bag, floating: Bag, remotes: map<Hash, Tx>, slots: int)
    returns (urgent': Bag, floating': Bag, drop: seq<Tx>)
    ensures Conserved(remotes, urgent + floating, urgent' + floating', drop)
    ensures WorstDropped(remotes, base, Heaps(urgent, floating), Heaps(urgent', floating'), drop, slots)
    ensures SlotsOf(drop) < slots ==> urgent' == floating' == multiset{}
  {
    urgent', floating', drop := urgent, floating, [];
    var left := slots;
    while left > 0
      invariant Conserved(remotes, urgent + floating, urgent' + floating', drop) && WorstLeft(base, urgent, urgent')
      invariant Still(remotes, floating, floating', drop) && NoneSpared(remotes, floating, drop)
      invariant NoneWasted(remotes, urgent, Heaps(urgent', floating'))
      invariant left == slots - SlotsOf(drop)
      invariant left <= 0 ==> LastDrop(Heaps(urgent', floating'), drop, slots)
      decreases 2 * |urgent'| + |floating'|
    {
      if |urgent'| * FLOATING_RATIO > |floating'| * URGENT_RATIO {
        ghost var f := floating';
        urgent', floating' := Demote(base, urgent', floating', remotes, urgent, urgent + floating, drop);
        StillMore(remotes, floating, f, drop, floating');
      } else {
        if floating' == multiset{} {
          break;
        }
        var n := |drop|;
        floating', drop := Evict(floating', remotes, drop, urgent', urgent + floating, floating);
        if |drop| > n {
          left := left - NumSlots(drop[n]);
        }
      }
    }
  }

  method PushAll(bag: Bag, txs: seq<Tx>) returns (r: Bag)
    ensures r == bag + multiset(txs)
  {
    r := bag;
    for i := 0 to |txs|
      invariant r == bag + multiset(txs[..i])
    {
      assert txs[..i + 1] == txs[..i] + [txs[i]];
      r := r + multiset{txs[i]};
    }
    assert txs[..|txs|] == txs;
  }

  /** With nothing kept, the drops are all the live entries; putting them back keeps all. */
  lemma {:induction false} PutBack(remotes: map<Hash, Tx>, before: Bag, drop: seq<Tx>)
    requires Conserved(remotes, before, multiset{}, drop)
    ensures Conserved(remotes, before, multiset(drop), [])
  {
    forall tx
      ensures ConservedAt(remotes, before, multiset(drop), [], tx)
    {
      assert ConservedAt(remotes, before, multiset{}, drop, tx);
    }
  }

  // ------------------------------------------------------------------ entries held twice

  /** An entry of a live hash is the transaction of that hash. */
  ghost predicate Matches(remotes: map<Hash, Tx>, entries: Bag) {
    forall tx | tx in entries && Live(remotes, tx) :: remotes[tx.hash] == tx
  }

  /** Every live entry is there once, and is the transaction of its hash. */
  ghost predicate Once(remotes: map<Hash, Tx>, entries: Bag) {
    forall tx | tx in entries && Live(remotes, tx) :: entries[tx] == 1 && remotes[tx.hash] == tx
  }

  ghost predicate DistinctHashes(txs: seq<Tx>) {
    forall i, j | 0 <= i < j < |txs| :: txs[i].hash != txs[j].hash
  }

  ghost predicate AllLive(remotes: map<Hash, Tx>, txs: seq<Tx>) {
    forall i | 0 <= i < |txs| :: Live(remotes, txs[i])
  }

  /** Only entries of remote transactions are dropped. */
  lemma {:induction false} DropsLive(remotes: map<Hash, Tx>, before: Bag, after: Bag, drop: seq<Tx>)
    requires Conserved(remotes, before, after, drop)
    ensures AllLive(remotes, drop) && forall i | 0 <= i < |drop| :: drop[i] in before
    ensures Matches(remotes, before) ==> forall i | 0 <= i < |drop| :: remotes[drop[i].hash] == drop[i]
  {
    forall i | 0 <= i < |drop|
      ensures Live(remotes, drop[i]) && drop[i] in before
    {
      assert drop[i] in multiset(drop);
      assert ConservedAt(remotes, before, after, drop, drop[i]);
    }
  }

  /** If every live entry is there once, no transaction is dropped twice. */
  lemma {:induction false} DropsDistinct(remotes: map<Hash, Tx>, before: Bag, after: Bag, drop: seq<Tx>)
    requires Once(remotes, before) && Conserved(remotes, before, after, drop)
    ensures DistinctHashes(drop)
  {
    DropsLive(remotes, before, after, drop);
    forall i, j | 0 <= i < j < |drop|
      ensures drop[i].hash != drop[j].hash
    {
      assert ConservedAt(remotes, before, after, drop, drop[i]);
      if drop[i] == drop[j] {
        TwoAtLeast(drop, i, j);
      }
    }
  }

  lemma {:induction false} TwoAtLeast(s: seq<Tx>, i: nat, j: nat)
    requires i < j < |s| && s[i] == s[j]
    ensures multiset(s)[s[i]] >= 2
  {
    assert s == s[..j] + s[j..];
    assert s[i] in multiset(s[..j]) && s[j] in multiset(s[j..]);
  }

  lemma {:induction false} TwoIndexes(s: seq<Tx>, x: Tx) returns (i: nat, j: nat)
    requires multiset(s)[x] >= 2
    ensures i < j < |s| && s[i] == s[j] == x
  {
    j :| j < |s| && s[j] == x;
    assert s == s[..j] + [x] + s[j + 1..];
    if x in s[..j] {
      i :| i < j && s[..j][i] == x;
    } else {
      assert x in multiset(s[j + 1..]);
      var k: nat :| k < |s| - j - 1 && s[j + 1..][k] == x;
      i, j := j, j + 1 + k;
    }
  }

  /** When nothing is left, no transaction was dropped twice if and only if every live
      entry was there once. */
  lemma {:induction false} DistinctIffOnce(remotes: map<Hash, Tx>, before: Bag, drop: seq<Tx>)
    requires Matches(remotes, before) && Conserved(remotes, before, multiset{}, drop)
    ensures DistinctHashes(drop) <==> Once(remotes, before)
  {
    if Once(remotes, before) {
      DropsDistinct(remotes, before, multiset{}, drop);
    } else {
      var x :| x in before && Live(remotes, x) && before[x] != 1;
      assert ConservedAt(remotes, before, multiset{}, drop, x);
      var i, j := TwoIndexes(drop, x);
    }
  }

  /** Tracking one more transaction keeps every live entry there once if and only if no
      entry, live or stale, has its hash. */
  lemma {:induction false} OnceIffUntracked(remotes: map<Hash, Tx>, entries: Bag, tx: Tx)
    requires Once(remotes, entries) && tx.hash !in remotes
    ensures Once(remotes[tx.hash := tx], entries + multiset{tx}) <==> forall y | y in entries :: y.hash != tx.hash
  {
    var remotes', entries' := remotes[tx.hash := tx], entries + multiset{tx};
    if y :| y in entries && y.hash == tx.hash {
      assert y in entries' && Live(remotes', y);
      assert y == tx ==> entries'[y] >= 2;
    }
  }

  /** Dropping entries and forgetting their transactions keeps the rest there once. */
  lemma {:induction false} OnceKept(remotes: map<Hash, Tx>, remotes': map<Hash, Tx>, before: Bag, after: Bag,
                                    drop: seq<Tx>)
    requires Once(remotes, before) && Conserved(remotes, before, after, drop)
    requires forall h | h in remotes' :: h in remotes && remotes'[h] == remotes[h]
    ensures Once(remotes', after)
  {
    forall tx | tx in after && Live(remotes', tx)
      ensures after[tx] == 1 && remotes'[tx.hash] == tx
    {
      assert ConservedAt(remotes, before, after, drop, tx);
    }
  }

  // --------------------------------------------------------------------------- tracking

  /** Every remote transaction has an entry. */
  ghost predicate Tracks(remotes: map<Hash, Tx>, entries: Bag) {
    forall h | h in remotes :: remotes[h] in entries
  }

  /** What is not dropped stays tracked. */
  lemma {:induction false} TracksRest(remotes: map<Hash, Tx>, remotes': map<Hash, Tx>, before: Bag, after: Bag,
                                      drop: seq<Tx>)
    requires HashKeyed(remotes) && Tracks(remotes, before) && Conserved(remotes, before, after, drop)
    requires forall h | h in remotes' :: h in remotes && remotes'[h] == remotes[h]
    requires forall i | 0 <= i < |drop| :: drop[i].hash !in remotes'
    ensures Tracks(remotes', after)
  {
    forall h | h in remotes'
      ensures remotes'[h] in after
    {
      var tx := remotes[h];
      assert ConservedAt(remotes, before, after, drop, tx);
    }
  }

  // ------------------------------------------------------------------------- live slots

  function Weight(remotes: map<Hash, Tx>, tx: Tx): nat {
    if Live(remotes, tx) then NumSlots(tx) else 0
  }

  /** The slots of the live entries. */
  ghost function LiveSlots(remotes: map<Hash, Tx>, entries: Bag): nat
    decreases |entries|
  {
    if entries == multiset{} then 0
    else
      var x :| x in entries;
      LiveSlots(remotes, entries - multiset{x}) + Weight(remotes, x)
  }

  lemma {:induction false} FirstCounted(remotes: map<Hash, Tx>, entries: Bag) returns (y: Tx)
    requires entries != multiset{}
    ensures y in entries && LiveSlots(remotes, entries) ==
                            LiveSlots(remotes, entries - multiset{y}) + Weight(remotes, y)
  {
    y :| y in entries && LiveSlots(remotes, entries) ==
                         LiveSlots(remotes, entries - multiset{y}) + Weight(remotes, y);
  }

  lemma {:induction false} EitherFirst(entries: Bag, x: Tx, y: Tx)
    requires x in entries && y in entries && x != y
    ensures x in entries - multiset{y} && y in entries - multiset{x}
    ensures entries - multiset{y} - multiset{x} == entries - multiset{x} - multiset{y}
    ensures |entries - multiset{y}| == |entries - multiset{x}| == |entries| - 1
  {
  }

  /** Any entry can be counted first. */
  lemma {:induction false} LiveSlotsWithout(remotes: map<Hash, Tx>, entries: Bag, x: Tx)
    requires x in entries
    ensures LiveSlots(remotes, entries) == LiveSlots(remotes, entries - multiset{x}) + Weight(remotes, x)
    decreases |entries|
  {
    var y := FirstCounted(remotes, entries);
    if x != y {
      EitherFirst(entries, x, y);
      LiveSlotsWithout(remotes, entries - multiset{y}, x);
      LiveSlotsWithout(remotes, entries - multiset{x}, y);
    }
  }

  /** The slots of the live entries are kept or dropped. */
  lemma {:induction false} SlotsConserved(remotes: map<Hash, Tx>, before: Bag, after: Bag, drop: seq<Tx>)
    requires Conserved(remotes, before, after, drop)
    ensures LiveSlots(remotes, before) == LiveSlots(remotes, after) + SlotsOf(drop)
    decreases |before|
  {
    if before == multiset{} {
      NothingFrom(remotes, after, drop);
    } else {
      var x :| x in before;
      assert ConservedAt(remotes, before, after, drop, x);
      LiveSlotsWithout(remotes, before, x);
      if x in after {
        LiveSlotsWithout(remotes, after, x);
        OneLess(remotes, before, after, drop, x, after - multiset{x}, drop);
        SlotsConserved(remotes, before - multiset{x}, after - multiset{x}, drop);
      } else if x in multiset(drop) {
        var rest := SlotsWithout(drop, x);
        OneLess(remotes, before, after, drop, x, after, rest);
        SlotsConserved(remotes, before - multiset{x}, after, rest);
      } else {
        OneLess(remotes, before, after, drop, x, after, drop);
        SlotsConserved(remotes, before - multiset{x}, after, drop);
      }
    }
  }

  lemma {:induction false} NothingFrom(remotes: map<Hash, Tx>, after: Bag, drop: seq<Tx>)
    requires Conserved(remotes, multiset{}, after, drop)
    ensures after == multiset{} && drop == []
  {
    forall tx
      ensures after[tx] == multiset(drop)[tx] == 0
    {
      assert ConservedAt(remotes, multiset{}, after, drop, tx);
    }
    assert multiset(drop) == multiset{} && |drop| == |multiset(drop)|;
  }

  /** One entry less on both sides. */
  lemma {:induction false} OneLess(remotes: map<Hash, Tx>, before: Bag, after: Bag, drop: seq<Tx>, x: Tx,
                                   after': Bag, drop': seq<Tx>)
    requires Conserved(remotes, before, after, drop) && x in before
    requires (x in after && after' == after - multiset{x} && drop' == drop)
             || (x !in after && after' == after
                 && if x in multiset(drop) then multiset(drop') == multiset(drop) - multiset{x} else drop' == drop)
    ensures Conserved(remotes, before - multiset{x}, after', drop')
  {
    forall tx
      ensures ConservedAt(remotes, before - multiset{x}, after', drop', tx)
    {
      assert ConservedAt(remotes, before, after, drop, tx);
    }
  }

  lemma {:induction false} SlotsWithout(drop: seq<Tx>, x: Tx) returns (rest: seq<Tx>)
    requires x in multiset(drop)
    ensures multiset(rest) == multiset(drop) - multiset{x} && SlotsOf(drop) == SlotsOf(rest) + NumSlots(x)
  {
    var n := |drop| - 1;
    assert drop == drop[..n] + [drop[n]];
    if drop[n] == x {
      rest := drop[..n];
    } else {
      var init := SlotsWithout(drop[..n], x);
      rest := init + [drop[n]];
      assert rest[..|init|] == init;
    }
  }

  // ------------------------------------------------------------------------- reheaping

  predicate HashKeyed(m: map<Hash, Tx>) {
    forall h | h in m :: m[h].hash == h
  }

  /** Exactly the given transactions, once each. */
  ghost predicate Holds(bag: Bag, m: map<Hash, Tx>) {
    forall tx :: bag[tx] == if tx.hash in m && m[tx.hash] == tx then 1 else 0
  }

  method Collect(m: map<Hash, Tx>) returns (bag: Bag)
    requires HashKeyed(m)
    ensures Holds(bag, m) && |bag| == |m|
  {
    bag := multiset{};
    var left := m.Keys;
    while left != {}
      invariant left <= m.Keys && Holds(bag, m - left) && |bag| + |left| == |m|
    {
      var h :| h in left;
      bag, left := bag + multiset{m[h]}, left - {h};
    }
  }

  /** Moves the n worst entries over. */
  method MoveWorst(base: BaseFee, bag: Bag, n: nat) returns (urgent: Bag, floating: Bag)
    requires n <= |bag|
    ensures urgent + floating == bag && |floating| == n && WorstLeft(base, bag, urgent)
  {
    urgent, floating := bag, multiset{};
    for i := 0 to n
      invariant urgent + floating == bag && |floating| == i && WorstLeft(base, bag, urgent)
    {
      var x, rest := Pop(base, urgent);
      PopWorst(base, bag, urgent, x, rest);
      Moves(urgent, floating, x);
      urgent, floating := rest, floating + multiset{x};
    }
  }

  // ------------------------------------------------------------------------ underpriced

  /** No live entry of the bag is cheaper than tx. */
  ghost predicate NoneCheaper(base: BaseFee, bag: Bag, remotes: map<Hash, Tx>, tx: Tx) {
    forall y | y in bag && Live(remotes, y) :: !Cheaper(base, y, tx)
  }

  ghost predicate HasLive(bag: Bag, remotes: map<Hash, Tx>) {
    exists y :: y in bag && Live(remotes, y)
  }

  /** Some remote transaction is tracked, and none of them is cheaper than tx. */
  ghost predicate Undercut(base: BaseFee, urgent: Bag, floating: Bag, remotes: map<Hash, Tx>, tx: Tx) {
    && (HasLive(urgent, remotes) || HasLive(floating, remotes))
    && NoneCheaper(base, urgent, remotes, tx) && NoneCheaper(NoBaseFee, floating, remotes, tx)
  }

  /** Only stale entries are gone, and only from the front of each heap. */
  ghost predicate Settled(remotes: map<Hash, Tx>, base: BaseFee, before: Heaps, after: Heaps) {
    && Conserved(remotes, before.urgent, after.urgent, []) && Conserved(remotes, before.floating, after.floating, [])
    && WorstLeft(base, before.urgent, after.urgent) && WorstLeft(NoBaseFee, before.floating, after.floating)
  }

  lemma {:induction false} SettledEntries(remotes: map<Hash, Tx>, base: BaseFee, before: Heaps, after: Heaps)
    requires Settled(remotes, base, before, after)
    ensures Conserved(remotes, before.Entries(), after.Entries(), [])
    ensures LiveSlots(remotes, before.Entries()) == LiveSlots(remotes, after.Entries())
  {
    forall tx
      ensures ConservedAt(remotes, before.Entries(), after.Entries(), [], tx)
    {
      assert ConservedAt(remotes, before.urgent, after.urgent, [], tx);
      assert ConservedAt(remotes, before.floating, after.floating, [], tx);
    }
    SlotsConserved(remotes, before.Entries(), after.Entries(), []);
  }

  lemma {:induction false} ConservedTwice(remotes: map<Hash, Tx>, before: Bag, settled: Bag, after: Bag, drop: seq<Tx>)
    requires Conserved(remotes, before, settled, []) && Conserved(remotes, settled, after, drop)
    ensures Conserved(remotes, before, after, drop)
  {
    forall tx
      ensures ConservedAt(remotes, before, after, drop, tx)
    {
      assert ConservedAt(remotes, before, settled, [], tx);
      assert ConservedAt(remotes, settled, after, drop, tx);
    }
  }

  /** Stale entries that go first do not change who is worst. */
  lemma {:induction false} SettledFirst(remotes: map<Hash, Tx>, base: BaseFee, before: Heaps, settled: Heaps,
                                        after: Heaps, drop: seq<Tx>, slots: int)
    requires Settled(remotes, base, before, settled) && Conserved(remotes, settled.Entries(), after.Entries(), drop)
    requires WorstDropped(remotes, base, settled, after, drop, slots)
    ensures Conserved(remotes, before.Entries(), after.Entries(), drop)
    ensures WorstDropped(remotes, base, before, after, drop, slots)
  {
    SettledEntries(remotes, base, before, settled);
    ConservedTwice(remotes, before.Entries(), settled.Entries(), after.Entries(), drop);
    LiveSame(remotes, before.urgent, settled.urgent);
    LiveSame(remotes, before.floating, settled.floating);
    if forall y :: SameAt(remotes, settled.urgent, after.urgent, y) {
      forall y
        ensures SameAt(remotes, before.urgent, after.urgent, y)
      {
        assert SameAt(remotes, settled.urgent, after.urgent, y);
      }
    }
  }

  lemma {:induction false} LiveSame(remotes: map<Hash, Tx>, bag: Bag, rest: Bag)
    requires Conserved(remotes, bag, rest, [])
    ensures forall y | Live(remotes, y) :: bag[y] == rest[y]
  {
    forall y | Live(remotes, y)
      ensures bag[y] == rest[y]
    {
      assert ConservedAt(remotes, bag, rest, [], y);
    }
  }

  /** Pops stale entries off the front of a heap, then compares with its first entry. */
  method UnderpricedFor(base: BaseFee, bag: Bag, remotes: map<Hash, Tx>, tx: Tx) returns (rest: Bag, under: bool)
    ensures Conserved(remotes, bag, rest, []) && (rest == multiset{} <==> !HasLive(bag, remotes))
    ensures WorstLeft(base, bag, rest)
    ensures under <==> HasLive(bag, remotes) && NoneCheaper(base, bag, remotes, tx)
  {
    rest := bag;
    var x := tx;
    while rest != multiset{}
      invariant Conserved(remotes, bag, rest, []) && WorstLeft(base, bag, rest)
      decreases |rest|
    {
      var after;
      x, after := Pop(base, rest);
      if Live(remotes, x) {
        break;
      }
      StaleGone(remotes, bag, rest, [], x, after);
      PopWorst(base, bag, rest, x, after);
      rest := after;
    }
    LiveSame(remotes, bag, rest);
    under := rest != multiset{} && !Cheaper(base, x, tx);
    if rest != multiset{} {
      FirstDecides(base, rest, remotes, x, tx);
    }
  }

  lemma {:induction false} FirstDecides(base: BaseFee, bag: Bag, remotes: map<Hash, Tx>, x: Tx, tx: Tx)
    requires IsFirst(base, bag, x) && Live(remotes, x)
    ensures !Cheaper(base, x, tx) <==> NoneCheaper(base, bag, remotes, tx)
  {
  }

  /** tx is underpriced if and only if some remote transaction is tracked and none of
      them, each by its heap's order, is cheaper. */
  method Settle(heaps: Heaps, base: BaseFee, remotes: map<Hash, Tx>, tx: Tx) returns (after: Heaps, under: bool)
    ensures Settled(remotes, base, heaps, after)
    ensures under <==> Undercut(base, heaps.urgent, heaps.floating, remotes, tx)
  {
    var u, f, urgentUnder, floatingUnder;
    u, urgentUnder := UnderpricedFor(base, heaps.urgent, remotes, tx);
    if !urgentUnder && u != multiset{} {
      NothingMoved(remotes, base, heaps);
      return Heaps(u, heaps.floating), false;
    }
    f, floatingUnder := UnderpricedFor(NoBaseFee, heaps.floating, remotes, tx);
    return Heaps(u, f), (floatingUnder || f == multiset{}) && (u != multiset{} || f != multiset{});
  }

  lemma {:induction false} NothingMoved(remotes: map<Hash, Tx>, base: BaseFee, heaps: Heaps)
    ensures Settled(remotes, base, heaps, heaps)
    ensures Conserved(remotes, heaps.Entries(), heaps.Entries(), []) && NoneWasted(remotes, heaps.urgent, heaps)
  {
    forall tx
      ensures ConservedAt(remotes, heaps.urgent, heaps.urgent, [], tx)
              && ConservedAt(remotes, heaps.floating, heaps.floating, [], tx)
              && ConservedAt(remotes, heaps.Entries(), heaps.Entries(), [], tx)
              && SameAt(remotes, heaps.urgent, heaps.urgent, tx)
    {
    }
  }

  // ---------------------------------------------------------------------- the price list

  /** Without force a discard succeeds if and only if the live entries take enough slots,
      and otherwise it drops none. If even all of them are too few, none is dropped twice
      if and only if each was there once. */
  ghost predicate Discarded(remotes: map<Hash, Tx>, base: BaseFee, before: Heaps, after: Heaps, slots: int, force: bool,
                            drop: seq<Tx>, ok: bool) {
    && (ok <==> force || LiveSlots(remotes, before.Entries()) >= slots)
    && Conserved(remotes, before.Entries(), after.Entries(), drop) && AllLive(remotes, drop)
    && (if ok then WorstDropped(remotes, base, before, after, drop, slots)
        else drop == [] && after.floating == multiset{} && forall y | y in after.urgent :: Live(remotes, y))
    && (ok && SlotsOf(drop) < slots ==>
          && force && after.Entries() == multiset{}
          && (Matches(remotes, before.Entries()) ==> (DistinctHashes(drop) <==> Once(remotes, before.Entries()))))
  }

  method DiscardFrom(heaps: Heaps, base: BaseFee, remotes: map<Hash, Tx>, slots: int, force: bool)
    returns (after: Heaps, drop: seq<Tx>, ok: bool)
    ensures Discarded(remotes, base, heaps, after, slots, force, drop, ok)
  {
    ghost var entries := heaps.Entries();
    var u, f;
    u, f, drop := Gather(base, heaps.urgent, heaps.floating, remotes, slots);
    after, ok := Heaps(u, f), true;
    SlotsConserved(remotes, entries, after.Entries(), drop);
    DropsLive(remotes, entries, after.Entries(), drop);
    if SlotsOf(drop) < slots {
      assert after.Entries() == multiset{};
      if !force {
        PutBack(remotes, entries, drop);
        u := PushAll(u, drop);
        assert u + f == multiset(drop);
        return Heaps(u, f), [], false;
      }
      if Matches(remotes, entries) {
        DistinctIffOnce(remotes, entries, drop);
      }
    }
  }

  /** A fifth of the entries float, and they are the worst by the urgent order. */
  ghost predicate Balanced(base: BaseFee, heaps: Heaps) {
    && |heaps.floating| == |heaps.Entries()| * FLOATING_RATIO / (URGENT_RATIO + FLOATING_RATIO)
    && WorstLeft(base, heaps.Entries(), heaps.urgent)
  }

  class List {
    var urgent: Bag
    var floating: Bag
    var baseFee: BaseFee

    function Contents(): Heaps
      reads this
    {
      Heaps(urgent, floating)
    }

    ghost function Entries(): Bag
      reads this
    {
      Contents().Entries()
    }

    constructor ()
      ensures Entries() == multiset{} && baseFee == NoBaseFee
    {
      urgent, floating, baseFee := multiset{}, multiset{}, NoBaseFee;
    }

    /** Only remote transactions are tracked. */
    method Put(tx: Tx, local: bool)
      modifies this
      ensures urgent == (if local then old(urgent) else old(urgent) + multiset{tx})
      ensures floating == old(floating) && baseFee == old(baseFee)
    {
      if !local {
        urgent := urgent + multiset{tx};
      }
    }

    /** Makes room for a number of slots. */
    method Discard(remotes: map<Hash, Tx>, slots: int, force: bool) returns (drop: seq<Tx>, ok: bool)
      modifies this
      ensures baseFee == old(baseFee)
      ensures Discarded(remotes, baseFee, old(Contents()), Contents(), slots, force, drop, ok)
    {
      var after;
      after, drop, ok := DiscardFrom(Contents(), baseFee, remotes, slots, force);
      urgent, floating := after.urgent, after.floating;
    }

    /** Tracks exactly the remote transactions again, a fifth of them, the worst by the
        urgent order, as floating. */
    method Reheap(remotes: map<Hash, Tx>)
      requires HashKeyed(remotes)
      modifies this
      ensures baseFee == old(baseFee) && Holds(Entries(), remotes)
      ensures Once(remotes, Entries()) && Tracks(remotes, Entries())
      ensures |Entries()| == |remotes| && Balanced(baseFee, Contents())
    {
      var all := Collect(remotes);
      urgent, floating := MoveWorst(baseFee, all, |all| * FLOATING_RATIO / (URGENT_RATIO + FLOATING_RATIO));
    }

    method SetBaseFee(fee: nat, remotes: map<Hash, Tx>)
      requires HashKeyed(remotes)
      modifies this
      ensures baseFee == BaseFee(fee) && Holds(Entries(), remotes)
      ensures Once(remotes, Entries()) && Tracks(remotes, Entries())
      ensures |Entries()| == |remotes| && Balanced(baseFee, Contents())
    {
      baseFee := BaseFee(fee);
      Reheap(remotes);
    }

    /** Whether the transaction undercuts what is tracked; stale entries may go. */
    method Underpriced(remotes: map<Hash, Tx>, tx: Tx) returns (under: bool)
      modifies this
      ensures baseFee == old(baseFee) && Settled(remotes, baseFee, old(Contents()), Contents())
      ensures under <==> Undercut(baseFee, old(urgent), old(floating), remotes, tx)
    {
      var after;
      after, under := Settle(Contents(), baseFee, remotes, tx);
      urgent, floating := after.urgent, after.floating;
    }
  }

  /** A transaction that left the pool and came back before a reheap has two entries. It
      leaves so when demotion removes a mined transaction, which counts no stale entry, and
      comes back when its block is abandoned; without a base fee no new head reheaps. Both
      entries are live, so one discard drops it twice and counts its slots twice. */
  method DroppedTwice(tx: Tx) returns (drop: seq<Tx>)
    requires NumSlots(tx) > 0
    ensures drop == [tx, tx]
  {
    var list := new List();
    list.Put(tx, false);
    list.Put(tx, false);
    assert list.Entries() == multiset{tx, tx};
    TwiceTheSlots(tx);
    var ok;
    drop, ok := list.Discard(map[tx.hash := tx], 2 * NumSlots(tx), false);
    if ok {
      SlotsConserved(map[tx.hash := tx], multiset{tx, tx}, list.Entries(), drop);
      OnlyOf(tx, list.Entries(), drop);
    }
  }

  lemma {:induction false} TwiceTheSlots(tx: Tx)
    ensures LiveSlots(map[tx.hash := tx], multiset{tx, tx}) == 2 * NumSlots(tx)
  {
    LiveSlotsWithout(map[tx.hash := tx], multiset{tx, tx}, tx);
    assert multiset{tx, tx} - multiset{tx} == multiset{tx};
    LiveSlotsWithout(map[tx.hash := tx], multiset{tx}, tx);
    assert multiset{tx} - multiset{tx} == multiset{};
  }

  lemma {:induction false} AllSame(tx: Tx, txs: seq<Tx>)
    requires forall i | 0 <= i < |txs| :: txs[i] == tx
    ensures multiset(txs)[tx] == |txs| && SlotsOf(txs) == |txs| * NumSlots(tx)
  {
    if txs != [] {
      var init := txs[..|txs| - 1];
      AllSame(tx, init);
      assert txs == init + [tx];
      assert (|init| + 1) * NumSlots(tx) == |init| * NumSlots(tx) + NumSlots(tx);
    }
  }

  lemma {:induction false} OnlyOf(tx: Tx, after: Bag, drop: seq<Tx>)
    requires Conserved(map[tx.hash := tx], multiset{tx, tx}, after, drop) && SlotsOf(drop) > NumSlots(tx) > 0
    ensures drop == [tx, tx]
  {
    forall i | 0 <= i < |drop|
      ensures drop[i] == tx
    {
      assert drop[i] in multiset(drop);
      assert ConservedAt(map[tx.hash := tx], multiset{tx, tx}, after, drop, drop[i]);
    }
    AllSame(tx, drop);
    assert ConservedAt(map[tx.hash := tx], multiset{tx, tx}, after, drop, tx);
    assert |drop| == 0 || |drop| == 1 || |drop| == 2;
  }
}
