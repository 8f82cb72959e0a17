/** The leave ledger: an append-only list from which balances are built, the register that
    summarises a period, and the checks that decide whether leave may be taken.

    Days are day numbers; row ids are numbers whose order is the order of the row's identifiers. Stored rows have ids
    from 0 on. A row that is only proposed has a negative one: its identifier starts with `~`, which the collation of
    the comparison sorts ahead of digits and letters. */
module LeaveLedger {
  import opened Wrappers

  datatype Kind = Grant | Consume | Expire | Adjust | Reverse

  datatype Entry = Entry(
    id: int, kind: Kind, minutes: int, on: int, expiresOn: Option<int>, reverses: Option<int>, request: Option<nat>)

  /** What the table's constraints say about the sign of a row. */
  predicate IsSigned(e: Entry) {
    match e.kind
    case Grant => e.minutes > 0
    case Consume => e.minutes < 0
    case Expire => e.minutes < 0
    case _ => e.minutes != 0
  }

  // ---------------------------------------------------------------------------
  // Buckets
  // ---------------------------------------------------------------------------

  datatype Origin = OfEntry(id: int) | Unallocated

  /** What is left of a grant, or a debt that no grant covered. */
  datatype Bucket = Bucket(origin: Origin, minutes: int, expiresOn: Option<int>)

  predicate OriginLess(a: Origin, b: Origin) {
    a.OfEntry? && (b.Unallocated? || a.id < b.id)
  }

  /** Soonest to expire first, those that never expire last. */
  predicate BucketLess(a: Bucket, b: Bucket) {
    if a.expiresOn == b.expiresOn then OriginLess(a.origin, b.origin)
    else a.expiresOn.Some? && (b.expiresOn == None || a.expiresOn.value < b.expiresOn.value)
  }

  /** Pushing and sorting: behind everything that is not greater. */
  function Put(buckets: seq<Bucket>, b: Bucket): seq<Bucket> {
    if buckets == [] || !BucketLess(b, buckets[|buckets| - 1]) then buckets + [b]
    else Put(buckets[..|buckets| - 1], b) + [buckets[|buckets| - 1]]
  }

  predicate HasLapsed(b: Bucket, day: int) {
    b.expiresOn.Some? && b.expiresOn.value < day
  }

  function Lapsed(buckets: seq<Bucket>, day: int): seq<Bucket> {
    seq(|buckets|, i requires 0 <= i < |buckets| =>
      if HasLapsed(buckets[i], day) && buckets[i].minutes > 0 then buckets[i].(minutes := 0) else buckets[i])
  }

  /** What lapses on a day. */
  function LapsedMinutes(buckets: seq<Bucket>, day: int): nat {
    if buckets == [] then 0
    else
      LapsedMinutes(buckets[..|buckets| - 1], day)
      + var b := buckets[|buckets| - 1]; if HasLapsed(b, day) && b.minutes > 0 then b.minutes else 0
  }

  function Min(a: int, b: int): int {
    if a < b then a else b
  }

  /** May this bucket be taken from? `cut` is the day before which it must have expired, if there is one. */
  predicate IsOpen(b: Bucket, cut: Option<int>) {
    b.minutes > 0 && (cut == None || HasLapsed(b, cut.value))
  }

  /** Takes from the front until nothing is left to take: the buckets and the rest of the amount. */
  function Taken(buckets: seq<Bucket>, amount: int, cut: Option<int>): (seq<Bucket>, int) {
    if buckets == [] || amount <= 0 then (buckets, amount)
    else
      var b := buckets[0];
      var part := if IsOpen(b, cut) then Min(b.minutes, amount) else 0;
      var (rest, left) := Taken(buckets[1..], amount - part, cut);
      ([b.(minutes := b.minutes - part)] + rest, left)
  }

  /** What no bucket could cover becomes a negative bucket of its own. */
  function Reduced(buckets: seq<Bucket>, amount: int, cut: Option<int>): seq<Bucket> {
    var (rest, left) := Taken(buckets, amount, cut);
    if left > 0 then Put(rest, Bucket(Unallocated, -left, None)) else rest
  }

  // ---------------------------------------------------------------------------
  // The balance
  // ---------------------------------------------------------------------------

  datatype State = State(buckets: seq<Bucket>, expired: int)

  function LapsedState(s: State, day: int): State {
    State(Lapsed(s.buckets, day), s.expired + LapsedMinutes(s.buckets, day))
  }

  function Applied(s: State, e: Entry): State {
    match e.kind
    case Grant => s.(buckets := Put(s.buckets, Bucket(OfEntry(e.id), e.minutes, e.expiresOn)))
    case Consume =>
      var lapsed := LapsedState(s, e.on);
      lapsed.(buckets := Reduced(lapsed.buckets, -e.minutes, None))
    case Expire => State(Reduced(s.buckets, -e.minutes, Some(e.on)), s.expired - e.minutes)
    case Adjust =>
      if e.minutes > 0 then s.(buckets := Put(s.buckets, Bucket(OfEntry(e.id), e.minutes, None)))
      else
        var lapsed := LapsedState(s, e.on);
        lapsed.(buckets := Reduced(lapsed.buckets, -e.minutes, None))
    case Reverse => s
  }

  function AppliedAll(s: State, entries: seq<Entry>): State {
    if entries == [] then s
    else Applied(AppliedAll(s, entries[..|entries| - 1]), entries[|entries| - 1])
  }

  predicate EntryLess(a: Entry, b: Entry) {
    a.on < b.on || (a.on == b.on && a.id < b.id)
  }

  function Inserted(sorted: seq<Entry>, e: Entry): seq<Entry> {
    if sorted == [] || !EntryLess(e, sorted[|sorted| - 1]) then sorted + [e]
    else Inserted(sorted[..|sorted| - 1], e) + [sorted[|sorted| - 1]]
  }

  /** By day, then by id. */
  function Sorted(entries: seq<Entry>): seq<Entry> {
    if entries == [] then [] else Inserted(Sorted(entries[..|entries| - 1]), entries[|entries| - 1])
  }

  /** Rows that cancel and rows that are cancelled. */
  function ReversedIds(entries: seq<Entry>): set<int> {
    if entries == [] then {}
    else
      var last := entries[|entries| - 1];
      ReversedIds(entries[..|entries| - 1])
      + if last.kind == Reverse && last.reverses.Some? then {last.id, last.reverses.value} else {}
  }

  function Counted(entries: seq<Entry>, reversed: set<int>, asOf: int): seq<Entry> {
    if entries == [] then []
    else
      var last := entries[|entries| - 1];
      Counted(entries[..|entries| - 1], reversed, asOf) + if last.id !in reversed && last.on <= asOf then [last] else []
  }

  /** `buildLeaveBalance`, before the empty buckets are dropped. */
  function Balance(entries: seq<Entry>, asOf: int): State {
    LapsedState(AppliedAll(State([], 0), Sorted(Counted(entries, ReversedIds(entries), asOf))), asOf)
  }

  function Total(buckets: seq<Bucket>): int {
    if buckets == [] then 0 else Total(buckets[..|buckets| - 1]) + buckets[|buckets| - 1].minutes
  }

  function Available(entries: seq<Entry>, asOf: int): int {
    Total(Balance(entries, asOf).buckets)
  }

  // ---------------------------------------------------------------------------
  // The procedure, step by step
  // ---------------------------------------------------------------------------

  method LapseBefore(buckets: seq<Bucket>, day: int) returns (after: seq<Bucket>, lapsed: nat)
    ensures after == Lapsed(buckets, day) && lapsed == LapsedMinutes(buckets, day)
  {
    after, lapsed := buckets, 0;
    for i := 0 to |buckets|
      invariant |after| == |buckets| && after[i..] == buckets[i..]
      invariant after[..i] == Lapsed(buckets, day)[..i]
      invariant lapsed == LapsedMinutes(buckets[..i], day)
    {
      assert buckets[..i + 1][..i] == buckets[..i];
      assert after[i] == buckets[i];
      if HasLapsed(after[i], day) && after[i].minutes > 0 {
        lapsed := lapsed + after[i].minutes;
        after := after[i := after[i].(minutes := 0)];
      }
    }
    assert buckets[..|buckets|] == buckets;
  }

  /** The result of taking when the buckets before `i` have become `done` and `amount` is left to take. */
  function Progress(done: seq<Bucket>, buckets: seq<Bucket>, i: nat, amount: int, cut: Option<int>): (seq<Bucket>, int)
    requires i <= |buckets|
  {
    (done + Taken(buckets[i..], amount, cut).0, Taken(buckets[i..], amount, cut).1)
  }

  lemma ProgressStart(buckets: seq<Bucket>, amount: int, cut: Option<int>)
    ensures Progress([], buckets, 0, amount, cut) == Taken(buckets, amount, cut)
  {
    assert buckets[0..] == buckets;
    assert [] + Taken(buckets, amount, cut).0 == Taken(buckets, amount, cut).0;
  }

  lemma ProgressStep(done: seq<Bucket>, buckets: seq<Bucket>, i: nat, amount: int, cut: Option<int>)
    requires i < |buckets| && 0 < amount
    ensures var b := buckets[i];
            var part := if IsOpen(b, cut) then Min(b.minutes, amount) else 0;
            Progress(done + [b.(minutes := b.minutes - part)], buckets, i + 1, amount - part, cut) ==
            Progress(done, buckets, i, amount, cut)
  {
    assert buckets[i..][1..] == buckets[i + 1..];
    var b := buckets[i];
    var part := if IsOpen(b, cut) then Min(b.minutes, amount) else 0;
    var rest := Taken(buckets[i + 1..], amount - part, cut).0;
    assert done + ([b.(minutes := b.minutes - part)] + rest) == done + [b.(minutes := b.minutes - part)] + rest;
  }

  lemma ProgressEnd(done: seq<Bucket>, buckets: seq<Bucket>, i: nat, amount: int, cut: Option<int>)
    requires i <= |buckets| && (i == |buckets| || amount <= 0)
    ensures Progress(done, buckets, i, amount, cut) == (done + buckets[i..], amount)
  {
  }

  method Take(buckets: seq<Bucket>, amount: int, cut: Option<int>) returns (after: seq<Bucket>)
    ensures after == Reduced(buckets, amount, cut)
  {
    hide Taken, Progress, Put;
    after := buckets;
    var remaining := amount;
    var i := 0;
    ghost var done: seq<Bucket> := [];
    ProgressStart(buckets, amount, cut);
    while i < |buckets| && remaining > 0
      invariant 0 <= i <= |buckets|
      invariant after == done + buckets[i..] && |done| == i
      invariant Progress(done, buckets, i, remaining, cut) == Taken(buckets, amount, cut)
    {
      ProgressStep(done, buckets, i, remaining, cut);
      var b := after[i];
      var part := 0;
      if b.minutes > 0 && (cut == None || HasLapsed(b, cut.value)) { part := Min(b.minutes, remaining); }
      after := after[i := b.(minutes := b.minutes - part)];
      done := done + [b.(minutes := b.minutes - part)];
      remaining := remaining - part;
      i := i + 1;
    }
    ProgressEnd(done, buckets, i, remaining, cut);
    if remaining > 0 { after := Put(after, Bucket(Unallocated, -remaining, None)); }
  }

  /** One row of the loop over the ledger. */
  method Apply(buckets: seq<Bucket>, expired: int, e: Entry) returns (buckets': seq<Bucket>, expired': int)
    ensures State(buckets', expired') == Applied(State(buckets, expired), e)
  {
    hide Put, Lapsed, LapsedMinutes, Reduced;
    buckets', expired' := buckets, expired;
    match e.kind {
      case Grant => buckets' := Put(buckets, Bucket(OfEntry(e.id), e.minutes, e.expiresOn));
      case Consume =>
        var after, lapsed := LapseBefore(buckets, e.on);
        expired' := expired + lapsed;
        buckets' := Take(after, -e.minutes, None);
      case Expire =>
        buckets' := Take(buckets, -e.minutes, Some(e.on));
        expired' := expired - e.minutes;
      case Adjust =>
        if e.minutes > 0 {
          buckets' := Put(buckets, Bucket(OfEntry(e.id), e.minutes, None));
        } else {
          var after, lapsed := LapseBefore(buckets, e.on);
          expired' := expired + lapsed;
          buckets' := Take(after, -e.minutes, None);
        }
      case Reverse =>
    }
  }

  method BuildLeaveBalance(entries: seq<Entry>, asOf: int)
    returns (available: int, remaining: seq<Bucket>, expired: int)
    ensures available == Available(entries, asOf) && expired == Balance(entries, asOf).expired
    ensures remaining == NonEmpty(Balance(entries, asOf).buckets)
  {
    var effective := Sorted(Counted(entries, ReversedIds(entries), asOf));
    var buckets: seq<Bucket> := [];
    expired := 0;
    hide Applied, Sorted, Counted, ReversedIds;
    for i := 0 to |effective|
      invariant State(buckets, expired) == AppliedAll(State([], 0), effective[..i])
    {
      assert effective[..i + 1][..i] == effective[..i];
      buckets, expired := Apply(buckets, expired, effective[i]);
    }
    assert effective[..|effective|] == effective;
    var after, lapsed := LapseBefore(buckets, asOf);
    expired := expired + lapsed;
    remaining, available := SumUp(after);
  }

  method SumUp(buckets: seq<Bucket>) returns (remaining: seq<Bucket>, available: int)
    ensures remaining == NonEmpty(buckets) && available == Total(buckets)
  {
    remaining, available := [], 0;
    for i := 0 to |buckets|
      invariant remaining == NonEmpty(buckets[..i]) && available == Total(buckets[..i])
    {
      assert buckets[..i + 1][..i] == buckets[..i];
      if buckets[i].minutes != 0 { remaining := remaining + [buckets[i]]; }
      available := available + buckets[i].minutes;
    }
    assert buckets[..|buckets|] == buckets;
  }

  function NonEmpty(buckets: seq<Bucket>): seq<Bucket> {
    if buckets == [] then []
    else
      var last := buckets[|buckets| - 1];
      NonEmpty(buckets[..|buckets| - 1]) + if last.minutes != 0 then [last] else []
  }

  // ---------------------------------------------------------------------------
  // Nothing appears and nothing is lost
  // ---------------------------------------------------------------------------

  lemma OneMoreBucket(buckets: seq<Bucket>, b: Bucket)
    ensures Total(buckets + [b]) == Total(buckets) + b.minutes
    ensures NonEmpty(buckets + [b]) == if b.minutes != 0 then NonEmpty(buckets) + [b] else NonEmpty(buckets)
  {
    assert (buckets + [b])[..|buckets|] == buckets;
    assert NonEmpty(buckets) + [] == NonEmpty(buckets);
  }

  lemma NoBuckets()
    ensures Total([]) == 0 && NonEmpty([]) == []
  {
  }

  /** What is shown as remaining: every bucket that is not empty, and the balance is theirs. */
  lemma {:induction false} RemainingIsTheBalance(buckets: seq<Bucket>, b: Bucket)
    ensures b in NonEmpty(buckets) <==> b in buckets && b.minutes != 0
    ensures Total(NonEmpty(buckets)) == Total(buckets)
  {
    hide *;
    if buckets == [] {
      NoBuckets();
    } else {
      var init, last := buckets[..|buckets| - 1], buckets[|buckets| - 1];
      assert buckets == init + [last];
      RemainingIsTheBalance(init, b);
      OneMoreBucket(init, last);
      OneMoreBucket(NonEmpty(init), last);
    }
  }

  lemma {:induction false} TotalOfPut(buckets: seq<Bucket>, b: Bucket)
    ensures Total(Put(buckets, b)) == Total(buckets) + b.minutes
  {
    if buckets == [] || !BucketLess(b, buckets[|buckets| - 1]) {
    } else {
      TotalOfPut(buckets[..|buckets| - 1], b);
    }
  }

  lemma {:induction false} TotalOfCons(b: Bucket, buckets: seq<Bucket>)
    ensures Total([b] + buckets) == b.minutes + Total(buckets)
  {
    if buckets == [] {
      assert [b] + buckets == [b];
    } else {
      TotalOfCons(b, buckets[..|buckets| - 1]);
      assert ([b] + buckets)[..|buckets|] == [b] + buckets[..|buckets| - 1];
    }
  }

  lemma {:induction false} TotalOfTaken(buckets: seq<Bucket>, amount: int, cut: Option<int>)
    ensures var (rest, left) := Taken(buckets, amount, cut); Total(rest) - left == Total(buckets) - amount
  {
    if buckets == [] || amount <= 0 {
    } else {
      var b := buckets[0];
      var part := if IsOpen(b, cut) then Min(b.minutes, amount) else 0;
      TotalOfTaken(buckets[1..], amount - part, cut);
      TotalOfCons(b, buckets[1..]);
      TotalOfCons(b.(minutes := b.minutes - part), Taken(buckets[1..], amount - part, cut).0);
      assert buckets == [b] + buckets[1..];
    }
  }

  lemma {:induction false} LeftIsSmaller(buckets: seq<Bucket>, amount: int, cut: Option<int>)
    requires 0 <= amount
    ensures 0 <= Taken(buckets, amount, cut).1 <= amount
  {
    if buckets == [] || amount <= 0 {
    } else {
      var part := if IsOpen(buckets[0], cut) then Min(buckets[0].minutes, amount) else 0;
      LeftIsSmaller(buckets[1..], amount - part, cut);
    }
  }

  lemma TotalOfReduced(buckets: seq<Bucket>, amount: int, cut: Option<int>)
    requires 0 <= amount
    ensures Total(Reduced(buckets, amount, cut)) == Total(buckets) - amount
  {
    hide Total, Taken, Put;
    TotalOfTaken(buckets, amount, cut);
    LeftIsSmaller(buckets, amount, cut);
    var (rest, left) := Taken(buckets, amount, cut);
    TotalOfPut(rest, Bucket(Unallocated, -left, None));
  }

  lemma {:induction false} TotalOfLapsed(buckets: seq<Bucket>, day: int)
    ensures Total(Lapsed(buckets, day)) + LapsedMinutes(buckets, day) == Total(buckets)
  {
    if buckets != [] {
      TotalOfLapsed(buckets[..|buckets| - 1], day);
      assert Lapsed(buckets, day)[..|buckets| - 1] == Lapsed(buckets[..|buckets| - 1], day);
    }
  }

  /** What a row adds to the sum of the balance and everything that expired. */
  function Weight(e: Entry): int {
    if e.kind == Expire || e.kind == Reverse then 0 else e.minutes
  }

  function Weights(entries: seq<Entry>): int {
    if entries == [] then 0 else Weights(entries[..|entries| - 1]) + Weight(entries[|entries| - 1])
  }

  function Worth(s: State): int {
    Total(s.buckets) + s.expired
  }

  lemma DecrementConserves(s: State, day: int, amount: nat)
    ensures Worth(LapsedState(s, day).(buckets := Reduced(Lapsed(s.buckets, day), amount, None))) == Worth(s) - amount
  {
    hide Total, Reduced, Lapsed, LapsedMinutes;
    TotalOfLapsed(s.buckets, day);
    TotalOfReduced(Lapsed(s.buckets, day), amount, None);
  }

  lemma AppliedConserves(s: State, e: Entry)
    requires IsSigned(e)
    ensures Worth(Applied(s, e)) == Worth(s) + Weight(e)
  {
    hide Total, Put, Reduced, Lapsed, LapsedMinutes;
    match e.kind {
      case Grant => TotalOfPut(s.buckets, Bucket(OfEntry(e.id), e.minutes, e.expiresOn));
      case Consume => DecrementConserves(s, e.on, -e.minutes);
      case Expire => TotalOfReduced(s.buckets, -e.minutes, Some(e.on));
      case Adjust =>
        if e.minutes > 0 {
          TotalOfPut(s.buckets, Bucket(OfEntry(e.id), e.minutes, None));
        } else {
          DecrementConserves(s, e.on, -e.minutes);
        }
      case Reverse =>
    }
  }

  lemma {:induction false} AppliedAllConserves(entries: seq<Entry>)
    requires forall i :: 0 <= i < |entries| ==> IsSigned(entries[i])
    ensures Worth(AppliedAll(State([], 0), entries)) == Weights(entries)
  {
    if entries != [] {
      AppliedAllConserves(entries[..|entries| - 1]);
      AppliedConserves(AppliedAll(State([], 0), entries[..|entries| - 1]), entries[|entries| - 1]);
      hide Applied, Total;
    }
  }

  lemma {:induction false} SortingKeepsWeights(entries: seq<Entry>)
    ensures Weights(Sorted(entries)) == Weights(entries)
    ensures forall e :: e in Sorted(entries) <==> e in entries
  {
    if entries != [] {
      SortingKeepsWeights(entries[..|entries| - 1]);
      InsertingAddsOne(Sorted(entries[..|entries| - 1]), entries[|entries| - 1]);
      assert entries == entries[..|entries| - 1] + [entries[|entries| - 1]];
    }
  }

  lemma {:induction false} InsertingAddsOne(sorted: seq<Entry>, e: Entry)
    ensures Weights(Inserted(sorted, e)) == Weights(sorted) + Weight(e)
    ensures forall x :: x in Inserted(sorted, e) <==> x == e || x in sorted
  {
    if sorted == [] || !EntryLess(e, sorted[|sorted| - 1]) {
    } else {
      InsertingAddsOne(sorted[..|sorted| - 1], e);
      assert sorted == sorted[..|sorted| - 1] + [sorted[|sorted| - 1]];
    }
  }

  lemma {:induction false} CountedAreEntries(entries: seq<Entry>, reversed: set<int>, asOf: int)
    ensures forall e :: e in Counted(entries, reversed, asOf) ==> e in entries
  {
    if entries != [] {
      CountedAreEntries(entries[..|entries| - 1], reversed, asOf);
      assert entries == entries[..|entries| - 1] + [entries[|entries| - 1]];
    }
  }

  predicate AllSigned(entries: seq<Entry>) {
    forall e :: e in entries ==> IsSigned(e)
  }

  /** At every date the minutes available and the minutes expired add up to everything the counted rows gave and took;
      a row that states an expiry only moves minutes from one to the other. */
  lemma BalanceConserves(entries: seq<Entry>, asOf: int)
    requires AllSigned(entries)
    ensures Available(entries, asOf) + Balance(entries, asOf).expired ==
            Weights(Counted(entries, ReversedIds(entries), asOf))
  {
    var counted := Counted(entries, ReversedIds(entries), asOf);
    CountedAreEntries(entries, ReversedIds(entries), asOf);
    SortingKeepsWeights(counted);
    AppliedAllConserves(Sorted(counted));
    TotalOfLapsed(AppliedAll(State([], 0), Sorted(counted)).buckets, asOf);
    hide Sorted, Counted, AppliedAll, Total, Lapsed, LapsedMinutes, Weights, ReversedIds;
  }

  // ---------------------------------------------------------------------------
  // Cancelled rows
  // ---------------------------------------------------------------------------

  predicate IsReversal(e: Entry) {
    e.kind == Reverse && e.reverses.Some?
  }

  /** A reversal of the ledger names the row, or the row is one. */
  predicate IsCancelled(entries: seq<Entry>, id: int) {
    exists i :: 0 <= i < |entries| && IsReversal(entries[i]) && (entries[i].id == id || entries[i].reverses.value == id)
  }

  lemma {:induction false} ReversedIdsAre(entries: seq<Entry>, id: int)
    ensures id in ReversedIds(entries) <==> IsCancelled(entries, id)
  {
    if entries != [] {
      var n := |entries| - 1;
      ReversedIdsAre(entries[..n], id);
      assert forall i :: 0 <= i < n ==> entries[..n][i] == entries[i];
    }
  }

  lemma {:induction false} CountedAre(entries: seq<Entry>, reversed: set<int>, asOf: int, e: Entry)
    ensures e in Counted(entries, reversed, asOf) <==> e in entries && e.id !in reversed && e.on <= asOf
  {
    if entries != [] {
      var n := |entries| - 1;
      CountedAre(entries[..n], reversed, asOf, e);
      assert entries == entries[..n] + [entries[n]];
    }
  }

  /** A row counts on a date if and only if it is a row of the ledger, not later than the date, neither a reversal nor
      named by one. */
  lemma CountsIff(entries: seq<Entry>, asOf: int, e: Entry)
    ensures e in Counted(entries, ReversedIds(entries), asOf) <==>
            e in entries && e.on <= asOf && !IsCancelled(entries, e.id)
  {
    CountedAre(entries, ReversedIds(entries), asOf, e);
    ReversedIdsAre(entries, e.id);
  }

  function Without(entries: seq<Entry>, i: nat): seq<Entry>
    requires i < |entries|
  {
    entries[..i] + entries[i + 1..]
  }

  lemma {:induction false} CountedInTwoParts(first: seq<Entry>, second: seq<Entry>, reversed: set<int>, asOf: int)
    ensures Counted(first + second, reversed, asOf) == Counted(first, reversed, asOf) + Counted(second, reversed, asOf)
  {
    if second == [] {
      assert first + second == first;
    } else {
      var n := |second| - 1;
      CountedInTwoParts(first, second[..n], reversed, asOf);
      assert (first + second)[..|first + second| - 1] == first + second[..n];
    }
  }

  lemma CountedWithout(entries: seq<Entry>, i: nat, reversed: set<int>, asOf: int)
    requires i < |entries| && entries[i].id in reversed
    ensures Counted(Without(entries, i), reversed, asOf) == Counted(entries, reversed, asOf)
  {
    var x := entries[i];
    assert entries == entries[..i] + [x] + entries[i + 1..];
    CountedInTwoParts(entries[..i] + [x], entries[i + 1..], reversed, asOf);
    CountedInTwoParts(entries[..i], [x], reversed, asOf);
    CountedInTwoParts(entries[..i], entries[i + 1..], reversed, asOf);
    assert Counted([x], reversed, asOf) == [] by { assert [x][..0] == []; }
  }

  lemma {:induction false} CountedDependsOnItsIds(entries: seq<Entry>, r: set<int>, t: set<int>, asOf: int)
    requires forall i :: 0 <= i < |entries| ==> (entries[i].id in r <==> entries[i].id in t)
    ensures Counted(entries, r, asOf) == Counted(entries, t, asOf)
  {
    if entries != [] { CountedDependsOnItsIds(entries[..|entries| - 1], r, t, asOf); }
  }

  predicate DistinctRows(entries: seq<Entry>) {
    forall i, j :: 0 <= i < j < |entries| ==> entries[i].id != entries[j].id
  }

  /** The ledger without a reversal and the row it names, wherever the two stand. */
  function WithoutPair(entries: seq<Entry>, i: nat, j: nat): seq<Entry>
    requires i < |entries| && j < |entries| && i != j
  {
    Without(Without(entries, i), if j < i then j else j - 1)
  }

  /** What is left are the other rows, and they are cancelled as before. */
  lemma OthersStayAsTheyWere(entries: seq<Entry>, i: nat, j: nat)
    requires i < |entries| && j < |entries| && i != j && DistinctRows(entries)
    requires IsReversal(entries[i]) && entries[i].reverses.value == entries[j].id && !IsReversal(entries[j])
    ensures var rest := WithoutPair(entries, i, j);
            forall k :: 0 <= k < |rest| ==> (IsCancelled(rest, rest[k].id) <==> IsCancelled(entries, rest[k].id))
  {
    var rest := WithoutPair(entries, i, j);
    forall k | 0 <= k < |rest| ensures IsCancelled(rest, rest[k].id) <==> IsCancelled(entries, rest[k].id) {
      var m := PlaceBefore(entries, i, j, k);
      if IsCancelled(rest, rest[k].id) {
        var n :| 0 <= n < |rest| && IsReversal(rest[n])
              && (rest[n].id == rest[k].id || rest[n].reverses.value == rest[k].id);
        var l := PlaceBefore(entries, i, j, n);
      }
      if IsCancelled(entries, rest[k].id) {
        var n :| 0 <= n < |entries| && IsReversal(entries[n])
              && (entries[n].id == rest[k].id || entries[n].reverses.value == rest[k].id);
        var l := PlaceAfter(entries, i, j, n);
      }
    }
  }

  lemma PlaceBefore(entries: seq<Entry>, i: nat, j: nat, k: nat) returns (m: nat)
    requires i < |entries| && j < |entries| && i != j && k < |WithoutPair(entries, i, j)|
    ensures m < |entries| && m != i && m != j && entries[m] == WithoutPair(entries, i, j)[k]
  {
    var l := if k < (if j < i then j else j - 1) then k else k + 1;
    m := if l < i then l else l + 1;
  }

  lemma PlaceAfter(entries: seq<Entry>, i: nat, j: nat, m: nat) returns (k: nat)
    requires i < |entries| && j < |entries| && i != j && m < |entries| && m != i && m != j
    ensures k < |WithoutPair(entries, i, j)| && WithoutPair(entries, i, j)[k] == entries[m]
  {
    var l := if m < i then m else m - 1;
    k := if l < (if j < i then j else j - 1) then l else l - 1;
  }

  /** A reversal cancels: on every date, before and after it, the balance is that of the ledger with neither the
      reversal nor the row it names. */
  lemma ReversalCancels(entries: seq<Entry>, i: nat, j: nat, asOf: int)
    requires i < |entries| && j < |entries| && i != j && DistinctRows(entries)
    requires IsReversal(entries[i]) && entries[i].reverses.value == entries[j].id && !IsReversal(entries[j])
    ensures Balance(entries, asOf) == Balance(WithoutPair(entries, i, j), asOf)
  {
    var reversed, fewer := ReversedIds(entries), Without(entries, i);
    var rest := WithoutPair(entries, i, j);
    ReversedIdsAre(entries, entries[i].id);
    ReversedIdsAre(entries, entries[j].id);
    CountedWithout(entries, i, reversed, asOf);
    CountedWithout(fewer, if j < i then j else j - 1, reversed, asOf);
    OthersStayAsTheyWere(entries, i, j);
    forall k | 0 <= k < |rest| ensures rest[k].id in reversed <==> rest[k].id in ReversedIds(rest) {
      ReversedIdsAre(entries, rest[k].id);
      ReversedIdsAre(rest, rest[k].id);
    }
    CountedDependsOnItsIds(rest, reversed, ReversedIds(rest), asOf);
    hide Counted, ReversedIds, Sorted, AppliedAll;
  }

  // ---------------------------------------------------------------------------
  // The register of a period
  // ---------------------------------------------------------------------------

  datatype Register = Register(opening: int, granted: int, consumed: int, expired: int, adjusted: int, closing: int)

  function InPeriod(entries: seq<Entry>, reversed: set<int>, from: int, last: int): seq<Entry> {
    if entries == [] then []
    else
      var e := entries[|entries| - 1];
      InPeriod(entries[..|entries| - 1], reversed, from, last)
      + if e.id !in reversed && from <= e.on <= last then [e] else []
  }

  function SumOf(entries: seq<Entry>, kind: Kind): int {
    if entries == [] then 0
    else
      var last := entries[|entries| - 1];
      SumOf(entries[..|entries| - 1], kind) + if last.kind == kind then last.minutes else 0
  }

  /** `summarizeLeaveRegister` */
  function RegisterOf(entries: seq<Entry>, from: int, last: int): Register {
    var period := InPeriod(entries, ReversedIds(entries), from, last);
    Register(
      Available(entries, from - 1),
      SumOf(period, Grant),
      -SumOf(period, Consume),
      Balance(entries, last).expired - Balance(entries, from - 1).expired,
      SumOf(period, Adjust),
      Available(entries, last))
  }

  lemma {:induction false} WeightsByKind(entries: seq<Entry>)
    ensures Weights(entries) == SumOf(entries, Grant) + SumOf(entries, Consume) + SumOf(entries, Adjust)
  {
    if entries != [] { WeightsByKind(entries[..|entries| - 1]); }
  }

  lemma WeightsOneMore(entries: seq<Entry>, e: Entry)
    ensures Weights(entries + [e]) == Weights(entries) + Weight(e)
    ensures entries + [] == entries
  {
    assert (entries + [e])[..|entries|] == entries;
  }

  lemma {:induction false} PeriodIsTheDifference(entries: seq<Entry>, reversed: set<int>, from: int, last: int)
    requires from <= last + 1
    ensures Weights(Counted(entries, reversed, last)) ==
            Weights(Counted(entries, reversed, from - 1)) + Weights(InPeriod(entries, reversed, from, last))
  {
    if entries != [] {
      var init, e := entries[..|entries| - 1], entries[|entries| - 1];
      PeriodIsTheDifference(init, reversed, from, last);
      hide Weights, Weight;
      WeightsOneMore(Counted(init, reversed, last), e);
      WeightsOneMore(Counted(init, reversed, from - 1), e);
      WeightsOneMore(InPeriod(init, reversed, from, last), e);
    }
  }

  /** The row of the register adds up, whatever expired with or without a row of its own. */
  lemma RegisterAddsUp(entries: seq<Entry>, from: int, last: int)
    requires AllSigned(entries) && from <= last + 1
    ensures var r := RegisterOf(entries, from, last);
            r.opening + r.granted - r.consumed - r.expired + r.adjusted == r.closing
  {
    hide Available, Balance, Counted, Weights, SumOf, InPeriod, ReversedIds;
    BalanceConserves(entries, from - 1);
    BalanceConserves(entries, last);
    PeriodIsTheDifference(entries, ReversedIds(entries), from, last);
    WeightsByKind(InPeriod(entries, ReversedIds(entries), from, last));
  }

  lemma SumsOneMore(entries: seq<Entry>, e: Entry, reversed: set<int>, from: int, last: int, kind: Kind)
    ensures SumOf(InPeriod(entries + [e], reversed, from, last), kind) ==
            SumOf(InPeriod(entries, reversed, from, last), kind)
            + if e.id !in reversed && from <= e.on <= last && e.kind == kind then e.minutes else 0
  {
    var before := InPeriod(entries, reversed, from, last);
    assert (entries + [e])[..|entries|] == entries;
    assert (before + [e])[..|before|] == before;
    assert before + [] == before;
  }

  /** Each column is its own kind of row: one more row that cancels nothing moves the column of its kind, by its minutes
      and when its day lies in the period, and no other; what is opened, closed and expired is that of the two balances.
      Without rows every column is 0. */
  lemma RegisterColumns(entries: seq<Entry>, e: Entry, from: int, last: int)
    requires !IsReversal(e) && !IsCancelled(entries, e.id)
    ensures var r, r' := RegisterOf(entries, from, last), RegisterOf(entries + [e], from, last);
            var minutes := if from <= e.on <= last then e.minutes else 0;
            && r'.granted == r.granted + (if e.kind == Grant then minutes else 0)
            && r'.consumed == r.consumed - (if e.kind == Consume then minutes else 0)
            && r'.adjusted == r.adjusted + (if e.kind == Adjust then minutes else 0)
    ensures var r := RegisterOf(entries, from, last);
            && r.opening == Available(entries, from - 1) && r.closing == Available(entries, last)
            && r.expired == Balance(entries, last).expired - Balance(entries, from - 1).expired
    ensures RegisterOf([], from, last) == Register(0, 0, 0, 0, 0, 0)
  {
    var reversed := ReversedIds(entries);
    assert (entries + [e])[..|entries|] == entries;
    assert ReversedIds(entries + [e]) == reversed;
    ReversedIdsAre(entries, e.id);
    assert e.id !in reversed;
    assert RegisterOf([], from, last) == Register(0, 0, 0, 0, 0, 0) by { RegisterOfNothing(from, last); }
    hide Available, Balance, InPeriod, SumOf, ReversedIds;
    SumsOneMore(entries, e, reversed, from, last, Grant);
    SumsOneMore(entries, e, reversed, from, last, Consume);
    SumsOneMore(entries, e, reversed, from, last, Adjust);
  }

  lemma RegisterOfNothing(from: int, last: int)
    ensures RegisterOf([], from, last) == Register(0, 0, 0, 0, 0, 0)
  {
  }

  // ---------------------------------------------------------------------------
  // What buckets are worth from a day on
  // ---------------------------------------------------------------------------

  predicate IsUsable(b: Bucket, day: int) {
    b.minutes > 0 && !HasLapsed(b, day)
  }

  /** The minutes that can be used on `day`. */
  function Usable(buckets: seq<Bucket>, day: int): nat {
    if buckets == [] then 0
    else (if IsUsable(buckets[0], day) then buckets[0].minutes else 0) + Usable(buckets[1..], day)
  }

  /** The minutes of all buckets that have some. */
  function Held(buckets: seq<Bucket>): nat {
    if buckets == [] then 0 else (if buckets[0].minutes > 0 then buckets[0].minutes else 0) + Held(buckets[1..])
  }

  /** What no grant covered. */
  function Debt(buckets: seq<Bucket>): nat {
    if buckets == [] then 0 else (if buckets[0].minutes < 0 then -buckets[0].minutes else 0) + Debt(buckets[1..])
  }

  lemma {:induction false} TotalIsHeldLessDebt(buckets: seq<Bucket>)
    ensures Total(buckets) == Held(buckets) - Debt(buckets)
  {
    if buckets != [] {
      TotalIsHeldLessDebt(buckets[1..]);
      TotalOfCons(buckets[0], buckets[1..]);
      assert buckets == [buckets[0]] + buckets[1..];
    }
  }

  lemma {:induction false} SnocMeasures(buckets: seq<Bucket>, b: Bucket, day: int)
    ensures Usable(buckets + [b], day) == Usable(buckets, day) + if IsUsable(b, day) then b.minutes else 0
    ensures Held(buckets + [b]) == Held(buckets) + if b.minutes > 0 then b.minutes else 0
    ensures Debt(buckets + [b]) == Debt(buckets) + if b.minutes < 0 then -b.minutes else 0
  {
    if buckets == [] {
      assert buckets + [b] == [b];
    } else {
      SnocMeasures(buckets[1..], b, day);
      assert (buckets + [b])[1..] == buckets[1..] + [b];
    }
  }

  lemma {:induction false} PutMeasures(buckets: seq<Bucket>, b: Bucket, day: int)
    ensures Usable(Put(buckets, b), day) == Usable(buckets, day) + if IsUsable(b, day) then b.minutes else 0
    ensures Held(Put(buckets, b)) == Held(buckets) + if b.minutes > 0 then b.minutes else 0
    ensures Debt(Put(buckets, b)) == Debt(buckets) + if b.minutes < 0 then -b.minutes else 0
  {
    if buckets == [] || !BucketLess(b, buckets[|buckets| - 1]) {
      SnocMeasures(buckets, b, day);
    } else {
      var init, last := buckets[..|buckets| - 1], buckets[|buckets| - 1];
      PutMeasures(init, b, day);
      hide Usable, Held, Debt, IsUsable;
      SnocMeasures(init, last, day);
      SnocMeasures(Put(init, b), last, day);
      assert buckets == init + [last];
    }
  }

  /** The buckets stand in the order in which they expire. */
  predicate ExpireInOrder(buckets: seq<Bucket>) {
    forall i, j :: 0 <= i < j < |buckets| ==> ExpiresNoLater(buckets[i], buckets[j])
  }

  predicate ExpiresNoLater(a: Bucket, b: Bucket) {
    b.expiresOn == None || (a.expiresOn.Some? && a.expiresOn.value <= b.expiresOn.value)
  }

  lemma {:induction false} PutKeepsOrder(buckets: seq<Bucket>, b: Bucket)
    requires ExpireInOrder(buckets)
    ensures ExpireInOrder(Put(buckets, b))
    ensures forall x :: x in Put(buckets, b) <==> x == b || x in buckets
  {
    if buckets == [] || !BucketLess(b, buckets[|buckets| - 1]) {
    } else {
      var init, last := buckets[..|buckets| - 1], buckets[|buckets| - 1];
      PutKeepsOrder(init, b);
      assert buckets == init + [last];
      var put := Put(init, b);
      forall i | 0 <= i < |put| ensures ExpiresNoLater(put[i], last) {
        assert put[i] in put;
      }
    }
  }

  lemma {:induction false} LapsedMeasures(buckets: seq<Bucket>, day: int, x: int)
    ensures Usable(Lapsed(buckets, day), x) == Usable(buckets, if x < day then day else x)
    ensures Held(Lapsed(buckets, day)) == Usable(buckets, day)
    ensures Debt(Lapsed(buckets, day)) == Debt(buckets)
    ensures ExpireInOrder(buckets) ==> ExpireInOrder(Lapsed(buckets, day))
  {
    if buckets != [] {
      LapsedMeasures(buckets[1..], day, x);
      assert Lapsed(buckets, day)[1..] == Lapsed(buckets[1..], day);
      assert ExpireInOrder(buckets) ==> ExpireInOrder(buckets[1..]);
    }
  }

  lemma {:induction false} UsableIsHeld(buckets: seq<Bucket>, day: int)
    ensures Usable(buckets, day) <= Held(buckets)
    ensures (forall i :: 0 <= i < |buckets| ==> !HasLapsed(buckets[i], day)) ==> Usable(buckets, day) == Held(buckets)
  {
    if buckets != [] { UsableIsHeld(buckets[1..], day); }
  }

  function Max(a: int, b: int): int {
    if a < b then b else a
  }

  lemma {:induction false} TakenAmounts(buckets: seq<Bucket>, amount: int)
    requires 0 <= amount
    ensures var (rest, left) := Taken(buckets, amount, None);
            && left == Max(amount - Held(buckets), 0)
            && Held(rest) == Max(Held(buckets) - amount, 0)
            && Debt(rest) == Debt(buckets)
  {
    if buckets == [] || amount <= 0 {
    } else {
      var b := buckets[0];
      var part := if IsOpen(b, None) then Min(b.minutes, amount) else 0;
      TakenAmounts(buckets[1..], amount - part);
      var rest := Taken(buckets[1..], amount - part, None).0;
      assert ([b.(minutes := b.minutes - part)] + rest)[1..] == rest;
    }
  }

  lemma {:induction false} TakenKeepsExpiries(buckets: seq<Bucket>, amount: int, cut: Option<int>)
    ensures var rest := Taken(buckets, amount, cut).0;
            |rest| == |buckets| && forall i :: 0 <= i < |rest| ==> rest[i].expiresOn == buckets[i].expiresOn
  {
    if buckets == [] || amount <= 0 {
    } else {
      var part := if IsOpen(buckets[0], cut) then Min(buckets[0].minutes, amount) else 0;
      TakenKeepsExpiries(buckets[1..], amount - part, cut);
    }
  }

  /** Taking uses what expires soonest: what is left is usable as late as possible. */
  lemma {:induction false} TakenUsable(buckets: seq<Bucket>, amount: int, day: int)
    requires ExpireInOrder(buckets) && 0 <= amount
    ensures Usable(Taken(buckets, amount, None).0, day) == Min(Usable(buckets, day), Max(Held(buckets) - amount, 0))
  {
    UsableIsHeld(buckets, day);
    if buckets == [] || amount <= 0 {
    } else {
      var b := buckets[0];
      var part := if IsOpen(b, None) then Min(b.minutes, amount) else 0;
      TakenUsable(buckets[1..], amount - part, day);
      UsableIsHeld(buckets[1..], day);
      if !HasLapsed(b, day) {
        assert forall i :: 0 < i < |buckets| ==> ExpiresNoLater(b, buckets[i]);
        assert forall i :: 0 <= i < |buckets[1..]| ==> !HasLapsed(buckets[1..][i], day);
      }
      var rest := Taken(buckets[1..], amount - part, None).0;
      assert ([b.(minutes := b.minutes - part)] + rest)[1..] == rest;
    }
  }

  /** What a decrement of `amount` on `day` leaves. */
  lemma DecrementMeasures(buckets: seq<Bucket>, day: int, amount: nat, x: int)
    requires ExpireInOrder(buckets)
    ensures var after := Reduced(Lapsed(buckets, day), amount, None);
            && ExpireInOrder(after)
            && Usable(after, x) == Min(Usable(buckets, Max(x, day)), Max(Usable(buckets, day) - amount, 0))
            && Held(after) == Max(Usable(buckets, day) - amount, 0)
            && Debt(after) == Debt(buckets) + Max(amount - Usable(buckets, day), 0)
  {
    hide Usable, Held, Debt, Lapsed, Taken, Put;
    LapsedMeasures(buckets, day, x);
    var lapsed := Lapsed(buckets, day);
    TakenUsable(lapsed, amount, x);
    TakenAmounts(lapsed, amount);
    TakenKeepsExpiries(lapsed, amount, None);
    var (rest, left) := Taken(lapsed, amount, None);
    assert ExpireInOrder(rest);
    PutMeasures(rest, Bucket(Unallocated, -left, None), x);
    PutKeepsOrder(rest, Bucket(Unallocated, -left, None));
  }

  lemma {:induction false} TakenOfExpired(buckets: seq<Bucket>, amount: int, day: int)
    requires 0 <= amount
    ensures var (rest, left) := Taken(buckets, amount, Some(day));
            var gone := Held(buckets) - Usable(buckets, day);
            && left == Max(amount - gone, 0)
            && Held(rest) == Held(buckets) - Min(amount, gone)
            && Debt(rest) == Debt(buckets)
  {
    UsableIsHeld(buckets, day);
    if buckets == [] || amount <= 0 {
    } else {
      var b := buckets[0];
      var part := if IsOpen(b, Some(day)) then Min(b.minutes, amount) else 0;
      TakenOfExpired(buckets[1..], amount - part, day);
      UsableIsHeld(buckets[1..], day);
      var rest := Taken(buckets[1..], amount - part, Some(day)).0;
      assert ([b.(minutes := b.minutes - part)] + rest)[1..] == rest;
    }
  }

  lemma {:induction false} UsableIsNotTaken(buckets: seq<Bucket>, amount: int, day: int, x: int)
    requires day <= x
    ensures Usable(Taken(buckets, amount, Some(day)).0, x) == Usable(buckets, x)
  {
    if buckets == [] || amount <= 0 {
    } else {
      var b := buckets[0];
      var part := if IsOpen(b, Some(day)) then Min(b.minutes, amount) else 0;
      UsableIsNotTaken(buckets[1..], amount - part, day, x);
      var rest := Taken(buckets[1..], amount - part, Some(day)).0;
      assert ([b.(minutes := b.minutes - part)] + rest)[1..] == rest;
    }
  }

  lemma ExpiryMeasures(buckets: seq<Bucket>, day: int, amount: nat, x: int)
    requires day <= x
    ensures var after, gone := Reduced(buckets, amount, Some(day)), Held(buckets) - Usable(buckets, day);
            && Usable(after, x) == Usable(buckets, x)
            && Held(after) == Held(buckets) - Min(amount, gone)
            && Debt(after) == Debt(buckets) + Max(amount - gone, 0)
  {
    hide Usable, Held, Debt, Taken, Put;
    var (rest, left) := Taken(buckets, amount, Some(day));
    TakenOfExpired(buckets, amount, day);
    UsableIsNotTaken(buckets, amount, day, x);
    PutMeasures(rest, Bucket(Unallocated, -left, None), x);
  }

  /** A row that records an expiry takes from what has expired before its day and from nothing that can still be used;
      what it names beyond that is owed, and all of it counts as expired. */
  lemma ExpireTakesWhatHasExpired(s: State, e: Entry, x: int)
    requires e.kind == Expire && IsSigned(e) && e.on <= x
    ensures var after, gone := Applied(s, e), Held(s.buckets) - Usable(s.buckets, e.on);
            && Usable(after.buckets, x) == Usable(s.buckets, x)
            && Held(after.buckets) == Held(s.buckets) - Min(-e.minutes, gone)
            && Debt(after.buckets) == Debt(s.buckets) + Max(-e.minutes - gone, 0)
            && after.expired == s.expired - e.minutes
  {
    hide Reduced, Usable, Held, Debt, Put, Lapsed, LapsedMinutes;
    ExpiryMeasures(s.buckets, e.on, -e.minutes, x);
  }

  // ---------------------------------------------------------------------------
  // More grants never leave less
  // ---------------------------------------------------------------------------

  predicate IsIncrease(e: Entry) {
    e.kind == Grant || (e.kind == Adjust && e.minutes > 0)
  }

  /** A row the service writes outside of cancelling: a grant, a consumption or an adjustment. */
  predicate IsPlain(e: Entry) {
    IsSigned(e) && (e.kind == Grant || e.kind == Consume || e.kind == Adjust)
  }

  predicate AllPlain(entries: seq<Entry>) {
    forall i :: 0 <= i < |entries| ==> IsPlain(entries[i])
  }

  function BucketOf(e: Entry): Bucket {
    Bucket(OfEntry(e.id), e.minutes, if e.kind == Grant then e.expiresOn else None)
  }

  lemma AppliedIs(s: State, e: Entry)
    requires IsPlain(e)
    ensures Applied(s, e).buckets ==
            if IsIncrease(e) then Put(s.buckets, BucketOf(e)) else Reduced(Lapsed(s.buckets, e.on), -e.minutes, None)
  {
    hide Put, Reduced, Lapsed;
  }

  lemma {:induction false} AppliedAllKeepsOrder(entries: seq<Entry>)
    requires AllPlain(entries)
    ensures ExpireInOrder(AppliedAll(State([], 0), entries).buckets)
  {
    if entries != [] {
      var s, e := AppliedAll(State([], 0), entries[..|entries| - 1]), entries[|entries| - 1];
      AppliedAllKeepsOrder(entries[..|entries| - 1]);
      AppliedIs(s, e);
      hide Applied, Put, Reduced, Lapsed, AppliedAll;
      if IsIncrease(e) {
        PutKeepsOrder(s.buckets, BucketOf(e));
      } else {
        DecrementMeasures(s.buckets, e.on, -e.minutes, 0);
      }
    }
  }

  /** Used before the other: it expires sooner or, on the same day, its row has the smaller id; a debt comes last. */
  predicate IsUsedBefore(a: Bucket, b: Bucket) {
    if a.expiresOn == b.expiresOn then a.origin.OfEntry? && (b.origin.Unallocated? || a.origin.id < b.origin.id)
    else a.expiresOn.Some? && (b.expiresOn == None || a.expiresOn.value < b.expiresOn.value)
  }

  predicate InOrderOfUse(buckets: seq<Bucket>) {
    forall i, j :: 0 <= i < j < |buckets| ==> !IsUsedBefore(buckets[j], buckets[i])
  }

  predicate SameKeys(a: seq<Bucket>, b: seq<Bucket>) {
    |a| == |b| && forall i :: 0 <= i < |a| ==> a[i].origin == b[i].origin && a[i].expiresOn == b[i].expiresOn
  }

  lemma {:induction false} PutKeepsUse(buckets: seq<Bucket>, b: Bucket)
    requires InOrderOfUse(buckets)
    ensures InOrderOfUse(Put(buckets, b))
    ensures forall x :: x in Put(buckets, b) <==> x == b || x in buckets
  {
    if buckets == [] {
    } else if !BucketLess(b, buckets[|buckets| - 1]) {
      forall i | 0 <= i < |buckets| ensures !IsUsedBefore(b, buckets[i]) {
        assert i == |buckets| - 1 || !IsUsedBefore(buckets[|buckets| - 1], buckets[i]);
      }
    } else {
      var init, last := buckets[..|buckets| - 1], buckets[|buckets| - 1];
      PutKeepsUse(init, b);
      assert buckets == init + [last];
      var put := Put(init, b);
      forall i | 0 <= i < |put| ensures !IsUsedBefore(last, put[i]) {
        assert put[i] in put;
        if put[i] != b { assert put[i] in init; }
      }
    }
  }

  lemma {:induction false} TakenKeepsKeys(buckets: seq<Bucket>, amount: int, cut: Option<int>)
    ensures SameKeys(Taken(buckets, amount, cut).0, buckets)
  {
    if buckets == [] || amount <= 0 {
    } else {
      var part := if IsOpen(buckets[0], cut) then Min(buckets[0].minutes, amount) else 0;
      TakenKeepsKeys(buckets[1..], amount - part, cut);
    }
  }

  lemma SameKeysSameUse(a: seq<Bucket>, b: seq<Bucket>)
    requires SameKeys(a, b) && InOrderOfUse(b)
    ensures InOrderOfUse(a)
  {
    forall i, j | 0 <= i < j < |a| ensures !IsUsedBefore(a[j], a[i]) { assert !IsUsedBefore(b[j], b[i]); }
  }

  lemma DecrementKeepsUse(buckets: seq<Bucket>, day: int, amount: int)
    requires InOrderOfUse(buckets)
    ensures InOrderOfUse(Lapsed(buckets, day)) && InOrderOfUse(Reduced(Lapsed(buckets, day), amount, None))
  {
    var lapsed := Lapsed(buckets, day);
    assert SameKeys(lapsed, buckets);
    var (rest, left) := Taken(lapsed, amount, None);
    hide Lapsed, Taken, Put, InOrderOfUse;
    SameKeysSameUse(lapsed, buckets);
    TakenKeepsKeys(lapsed, amount, None);
    SameKeysSameUse(rest, lapsed);
    PutKeepsUse(rest, Bucket(Unallocated, -left, None));
  }

  lemma {:induction false} BucketsAreInOrderOfUse(entries: seq<Entry>)
    requires AllPlain(entries)
    ensures InOrderOfUse(AppliedAll(State([], 0), entries).buckets)
  {
    if entries != [] {
      var s, e := AppliedAll(State([], 0), entries[..|entries| - 1]), entries[|entries| - 1];
      BucketsAreInOrderOfUse(entries[..|entries| - 1]);
      AppliedIs(s, e);
      hide Applied, Put, Reduced, Lapsed, AppliedAll, InOrderOfUse;
      if IsIncrease(e) {
        PutKeepsUse(s.buckets, BucketOf(e));
      } else {
        DecrementKeepsUse(s.buckets, e.on, -e.minutes);
      }
    }
  }

  lemma {:induction false} FrontFirst(buckets: seq<Bucket>, amount: int, i: nat, j: nat)
    requires i < j < |buckets|
    ensures var rest := Taken(buckets, amount, None).0;
            |rest| == |buckets| && (rest[j].minutes < buckets[j].minutes ==> rest[i].minutes <= 0)
  {
    TakenKeepsKeys(buckets, amount, None);
    if amount > 0 {
      var part := if IsOpen(buckets[0], None) then Min(buckets[0].minutes, amount) else 0;
      if i > 0 {
        FrontFirst(buckets[1..], amount - part, i - 1, j - 1);
      } else if buckets[0].minutes > part {
        assert amount - part <= 0;
      }
    }
  }

  /** Leave is taken from what expires soonest and, of grants that expire together, from the row with the smallest id:
      as long as a bucket has something left, none that is used after it is touched. */
  lemma LeaveIsUsedInOrder(sorted: seq<Entry>, day: int, amount: nat, i: nat, j: nat)
    requires AllPlain(sorted)
    ensures var before := Lapsed(Buckets(sorted), day);
            var after := Taken(before, amount, None).0;
            i < |before| && j < |before| && IsUsedBefore(before[i], before[j]) ==>
              |after| == |before| && (after[j].minutes < before[j].minutes ==> after[i].minutes <= 0)
  {
    var before := Lapsed(Buckets(sorted), day);
    BucketsAreInOrderOfUse(sorted);
    DecrementKeepsUse(Buckets(sorted), day, amount);
    hide Taken, AppliedAll, Lapsed;
    if i < |before| && j < |before| && IsUsedBefore(before[i], before[j]) {
      FrontFirst(before, amount, i, j);
    }
  }

  lemma AppliedNone(s: State)
    ensures AppliedAll(s, []) == s
  {
  }

  lemma {:induction false} AppliedInTwoParts(s: State, first: seq<Entry>, second: seq<Entry>)
    ensures AppliedAll(s, first + second) == AppliedAll(AppliedAll(s, first), second)
  {
    hide *;
    if second == [] {
      assert first + second == first;
      AppliedNone(AppliedAll(s, first));
    } else {
      var init, e := second[..|second| - 1], second[|second| - 1];
      AppliedInTwoParts(s, first, init);
      AppliedOneMore(s, first + init, e);
      AppliedOneMore(AppliedAll(s, first), init, e);
      assert first + second == first + init + [e] && second == init + [e];
    }
  }

  lemma {:induction false} InsertedSplits(sorted: seq<Entry>, e: Entry) returns (k: nat)
    ensures k <= |sorted| && Inserted(sorted, e) == sorted[..k] + [e] + sorted[k..]
    ensures k == 0 || !EntryLess(e, sorted[k - 1])
    ensures forall i :: k <= i < |sorted| ==> EntryLess(e, sorted[i])
  {
    if sorted == [] || !EntryLess(e, sorted[|sorted| - 1]) {
      k := |sorted|;
    } else {
      var n := |sorted| - 1;
      k := InsertedSplits(sorted[..n], e);
      assert sorted[..n][..k] == sorted[..k] && sorted[..n][k..] + [sorted[n]] == sorted[k..];
    }
  }

  lemma {:induction false} PlainLedgerHasNoReversals(entries: seq<Entry>)
    requires AllPlain(entries)
    ensures ReversedIds(entries) == {}
  {
    if entries != [] {
      assert IsPlain(entries[|entries| - 1]);
      PlainLedgerHasNoReversals(entries[..|entries| - 1]);
    }
  }

  function Buckets(sorted: seq<Entry>): seq<Bucket> {
    AppliedAll(State([], 0), sorted).buckets
  }

  /** The counted rows, with nothing cancelled. */
  function UpTo(entries: seq<Entry>, day: int): seq<Entry> {
    Counted(entries, {}, day)
  }

  lemma AvailableIsUsableLessDebt(entries: seq<Entry>, asOf: int)
    requires AllPlain(entries)
    ensures var buckets := Buckets(Sorted(UpTo(entries, asOf)));
            Available(entries, asOf) == Usable(buckets, asOf) - Debt(buckets)
  {
    PlainLedgerHasNoReversals(entries);
    var buckets := Buckets(Sorted(UpTo(entries, asOf)));
    TotalIsHeldLessDebt(Lapsed(buckets, asOf));
    LapsedMeasures(buckets, asOf, asOf);
    hide Total, Lapsed, Held, Debt, Usable, LapsedMinutes, Sorted, Counted, AppliedAll, ReversedIds;
  }

  lemma {:induction false} SortedIsPlain(entries: seq<Entry>)
    requires AllPlain(entries)
    ensures AllPlain(Sorted(entries))
  {
    SortingKeepsWeights(entries);
    hide Sorted, IsPlain;
    forall i | 0 <= i < |Sorted(entries)| ensures IsPlain(Sorted(entries)[i]) {
      assert Sorted(entries)[i] in entries;
    }
  }

  lemma {:induction false} UpToIsPlain(entries: seq<Entry>, day: int)
    requires AllPlain(entries)
    ensures AllPlain(UpTo(entries, day))
  {
    hide IsPlain;
    if entries != [] { UpToIsPlain(entries[..|entries| - 1], day); }
  }

  lemma UpToOneMore(entries: seq<Entry>, e: Entry, day: int)
    ensures UpTo(entries + [e], day) == UpTo(entries, day) + if e.on <= day then [e] else []
  {
    assert (entries + [e])[..|entries|] == entries;
  }

  lemma SortedOneMore(entries: seq<Entry>, e: Entry)
    ensures Sorted(entries + [e]) == Inserted(Sorted(entries), e)
  {
    assert (entries + [e])[..|entries|] == entries;
  }

  lemma AppliedOneMore(s: State, entries: seq<Entry>, e: Entry)
    ensures AppliedAll(s, entries + [e]) == Applied(AppliedAll(s, entries), e)
  {
    assert (entries + [e])[..|entries|] == entries;
  }

  /** What is usable on a day less what is owed. */
  function Net(buckets: seq<Bucket>, day: int): int {
    Usable(buckets, day) - Debt(buckets)
  }

  lemma IncreaseNet(buckets: seq<Bucket>, b: Bucket, day: int)
    requires b.minutes > 0
    ensures Net(Put(buckets, b), day) == Net(buckets, day) + if IsUsable(b, day) then b.minutes else 0
  {
    hide Put, Usable, Debt, Held, IsUsable;
    PutMeasures(buckets, b, day);
  }

  lemma DecrementNet(buckets: seq<Bucket>, on: int, amount: nat, day: int)
    requires ExpireInOrder(buckets)
    ensures Net(Reduced(Lapsed(buckets, on), amount, None), day) ==
            Min(Net(buckets, Max(day, on)), Net(buckets, on) - amount)
  {
    hide Usable, Debt, Held, Reduced, Lapsed, ExpireInOrder;
    DecrementMeasures(buckets, on, amount, day);
  }

  /** From day `from` on `b` nets at least as much as `a`. */
  ghost predicate NetsNoLess(a: seq<Bucket>, b: seq<Bucket>, from: int) {
    ExpireInOrder(a) && ExpireInOrder(b) && forall day :: from <= day ==> Net(a, day) <= Net(b, day)
  }

  lemma AppliedNet(s: State, e: Entry, day: int)
    requires IsPlain(e) && ExpireInOrder(s.buckets)
    ensures ExpireInOrder(Applied(s, e).buckets)
    ensures Net(Applied(s, e).buckets, day) ==
            if IsIncrease(e) then Net(s.buckets, day) + if IsUsable(BucketOf(e), day) then e.minutes else 0
            else Min(Net(s.buckets, Max(day, e.on)), Net(s.buckets, e.on) + e.minutes)
  {
    AppliedIs(s, e);
    hide Applied, Net, Put, Reduced, Lapsed, Usable, Held, Debt, ExpireInOrder, IsUsable;
    if IsIncrease(e) {
      PutKeepsOrder(s.buckets, BucketOf(e));
      IncreaseNet(s.buckets, BucketOf(e), day);
    } else {
      DecrementMeasures(s.buckets, e.on, -e.minutes, day);
      DecrementNet(s.buckets, e.on, -e.minutes, day);
    }
  }

  lemma AppliedKeepsNets(s: State, t: State, e: Entry, from: int)
    requires IsPlain(e) && from <= e.on && NetsNoLess(s.buckets, t.buckets, from)
    ensures NetsNoLess(Applied(s, e).buckets, Applied(t, e).buckets, from)
  {
    hide Applied, Net, ExpireInOrder, IsUsable, IsPlain, IsIncrease;
    AppliedNet(s, e, from);
    AppliedNet(t, e, from);
    forall day | from <= day ensures Net(Applied(s, e).buckets, day) <= Net(Applied(t, e).buckets, day) {
      AppliedNet(s, e, day);
      AppliedNet(t, e, day);
      assert Net(s.buckets, day) <= Net(t.buckets, day);
      assert Net(s.buckets, Max(day, e.on)) <= Net(t.buckets, Max(day, e.on));
      assert Net(s.buckets, e.on) <= Net(t.buckets, e.on);
    }
  }

  lemma {:induction false} AppliedAllKeepsNets(s: State, t: State, entries: seq<Entry>, from: int)
    requires AllPlain(entries) && NetsNoLess(s.buckets, t.buckets, from)
    requires forall i :: 0 <= i < |entries| ==> from <= entries[i].on
    ensures NetsNoLess(AppliedAll(s, entries).buckets, AppliedAll(t, entries).buckets, from)
  {
    hide NetsNoLess, Applied, IsPlain;
    if entries != [] {
      var init := entries[..|entries| - 1];
      AppliedAllKeepsNets(s, t, init, from);
      AppliedKeepsNets(AppliedAll(s, init), AppliedAll(t, init), entries[|entries| - 1], from);
    }
  }

  /** Adding a grant, at whatever date, never lowers the balance of any date. */
  lemma AddingAGrantNeverLowersABalance(entries: seq<Entry>, g: Entry, asOf: int)
    requires AllPlain(entries) && IsPlain(g) && IsIncrease(g)
    ensures Available(entries, asOf) <= Available(entries + [g], asOf)
  {
    var counted := UpTo(entries, asOf);
    var sorted := Sorted(counted);
    assert AllPlain(entries + [g]);
    hide Available, Sorted, Inserted, UpTo, Buckets, Usable, Debt, IsPlain, IsIncrease;
    AvailableIsUsableLessDebt(entries, asOf);
    AvailableIsUsableLessDebt(entries + [g], asOf);
    UpToOneMore(entries, g, asOf);
    if g.on <= asOf {
      UpToIsPlain(entries, asOf);
      SortedIsPlain(counted);
      SortedOneMore(counted, g);
      GrantInsertedNetsNoLess(sorted, g);
      assert Net(Buckets(sorted), asOf) <= Net(Buckets(Inserted(sorted, g)), asOf);
    } else {
      assert counted + [] == counted;
    }
  }

  lemma GrantInsertedNetsNoLess(sorted: seq<Entry>, g: Entry)
    requires AllPlain(sorted) && IsPlain(g) && IsIncrease(g)
    ensures NetsNoLess(Buckets(sorted), Buckets(Inserted(sorted, g)), g.on)
  {
    hide Applied, AppliedAll, Inserted, NetsNoLess, IsPlain, IsIncrease, ExpireInOrder;
    var start := State([], 0);
    var k := InsertedSplits(sorted, g);
    var first, rest := sorted[..k], sorted[k..];
    AppliedAllKeepsOrder(first);
    var s := AppliedAll(start, first);
    AppliedOneMore(start, first, g);
    IncreaseNetsNoLess(s, g, g.on);
    AppliedAllKeepsNets(s, Applied(s, g), rest, g.on);
    AppliedInTwoParts(start, first, rest);
    AppliedInTwoParts(start, first + [g], rest);
    assert first + rest == sorted;
  }

  lemma IncreaseNetsNoLess(s: State, e: Entry, from: int)
    requires IsPlain(e) && IsIncrease(e) && ExpireInOrder(s.buckets)
    ensures NetsNoLess(s.buckets, Applied(s, e).buckets, from)
  {
    assert e.minutes > 0;
    hide Applied, Net, IsPlain, IsIncrease, ExpireInOrder;
    AppliedNet(s, e, from);
    forall day ensures Net(s.buckets, day) <= Net(Applied(s, e).buckets, day) { AppliedNet(s, e, day); }
  }

  // ---------------------------------------------------------------------------
  // The check before leave is taken
  // ---------------------------------------------------------------------------

  /** The dates the check looks at: those of the ledger's rows from `earliest` on. */
  ghost predicate PassesTheCheck(entries: seq<Entry>, earliest: int) {
    forall i :: 0 <= i < |entries| && earliest <= entries[i].on ==> 0 <= Available(entries, entries[i].on)
  }

  datatype Problem = Insufficient | NotAMultiple

  datatype Consumption = Consumption(minutes: int, on: int)

  function Earliest(consumptions: seq<Consumption>): int
    requires consumptions != []
  {
    if |consumptions| == 1 then consumptions[0].on
    else Min(Earliest(consumptions[..|consumptions| - 1]), consumptions[|consumptions| - 1].on)
  }

  /** The proposed rows, as long as they have no identifiers of their own. */
  function Placeholders(consumptions: seq<Consumption>): seq<Entry> {
    seq(|consumptions|, i requires 0 <= i < |consumptions| =>
      Entry(i - |consumptions|, Consume, -consumptions[i].minutes, consumptions[i].on, None, None, None))
  }

  /** `validateLeaveConsumptions`: all of the proposed rows together, looked at on the ledger's dates. */
  method ValidateConsumptions(entries: seq<Entry>, consumptions: seq<Consumption>, unitMinutes: Option<nat>)
    returns (problems: set<Problem>)
    requires unitMinutes.Some? ==> unitMinutes.value > 0
    ensures consumptions == [] ==> problems == {}
    ensures consumptions != [] ==>
              (Insufficient in problems <==>
               !PassesTheCheck(entries + Placeholders(consumptions), Earliest(consumptions)))
    ensures NotAMultiple in problems <==>
            unitMinutes.Some?
            && exists i :: 0 <= i < |consumptions| && consumptions[i].minutes % unitMinutes.value != 0
  {
    problems := {};
    if consumptions == [] { return; }
    hide Available, Earliest, Placeholders;
    var earliest := EarliestOf(consumptions);
    var negative := IsNegativeFrom(entries + Placeholders(consumptions), earliest);
    if negative { problems := problems + {Insufficient}; }
    var uneven := unitMinutes.Some? && HasUneven(consumptions, unitMinutes.value);
    if uneven { problems := problems + {NotAMultiple}; }
  }

  predicate HasUneven(consumptions: seq<Consumption>, unit: nat)
    requires unit > 0
  {
    exists i :: 0 <= i < |consumptions| && consumptions[i].minutes % unit != 0
  }

  method EarliestOf(consumptions: seq<Consumption>) returns (earliest: int)
    requires consumptions != []
    ensures earliest == Earliest(consumptions)
  {
    earliest := consumptions[0].on;
    for i := 1 to |consumptions|
      invariant earliest == Earliest(consumptions[..i])
    {
      assert consumptions[..i + 1][..i] == consumptions[..i];
      earliest := if consumptions[i].on < earliest then consumptions[i].on else earliest;
    }
    assert consumptions[..|consumptions|] == consumptions;
  }

  method IsNegativeFrom(entries: seq<Entry>, earliest: int) returns (negative: bool)
    ensures negative <==> !PassesTheCheck(entries, earliest)
  {
    hide Available;
    for i := 0 to |entries|
      invariant forall k :: 0 <= k < i && earliest <= entries[k].on ==> 0 <= Available(entries, entries[k].on)
    {
      if earliest <= entries[i].on {
        var available, remaining, expired := BuildLeaveBalance(entries, entries[i].on);
        if available < 0 { return true; }
      }
    }
    return false;
  }

  /** No date, with or without a row, shows a negative balance. */
  ghost predicate NeverNegative(entries: seq<Entry>) {
    forall asOf :: 0 <= Available(entries, asOf)
  }

  /** No row was ever taken without a grant to take it from. */
  ghost predicate IsSolvent(entries: seq<Entry>) {
    forall asOf :: Debt(Buckets(Sorted(UpTo(entries, asOf)))) == 0
  }

  /** A solvent ledger shows no negative balance on any date, whether a row falls on it or not. */
  lemma SolventMeansNeverNegative(entries: seq<Entry>)
    requires AllPlain(entries) && IsSolvent(entries)
    ensures NeverNegative(entries)
  {
    hide Available, Buckets, Sorted, UpTo, Usable, Debt, IsPlain;
    forall asOf ensures 0 <= Available(entries, asOf) { AvailableIsUsableLessDebt(entries, asOf); }
  }

  /** Among the rows of one day, those that add come before those that take. */
  predicate IncreasesComeFirst(sorted: seq<Entry>) {
    forall i, j :: 0 <= i < j < |sorted| && sorted[i].on == sorted[j].on && IsIncrease(sorted[j]) ==>
      IsIncrease(sorted[i])
  }

  predicate InDayOrder(sorted: seq<Entry>) {
    forall i, j :: 0 <= i < j < |sorted| ==> sorted[i].on <= sorted[j].on
  }

  lemma {:induction false} InsertedStaysUpTo(sorted: seq<Entry>, e: Entry, day: int)
    requires e.on <= day && forall i :: 0 <= i < |sorted| ==> sorted[i].on <= day
    ensures forall i :: 0 <= i < |Inserted(sorted, e)| ==> Inserted(sorted, e)[i].on <= day
  {
    if sorted == [] || !EntryLess(e, sorted[|sorted| - 1]) {
    } else {
      InsertedStaysUpTo(sorted[..|sorted| - 1], e, day);
    }
  }

  lemma {:induction false} InsertedKeepsDayOrder(sorted: seq<Entry>, e: Entry)
    requires InDayOrder(sorted)
    ensures InDayOrder(Inserted(sorted, e))
  {
    if sorted == [] || !EntryLess(e, sorted[|sorted| - 1]) {
    } else {
      var init, last := sorted[..|sorted| - 1], sorted[|sorted| - 1];
      InsertedKeepsDayOrder(init, e);
      InsertedStaysUpTo(init, e, last.on);
    }
  }

  lemma {:induction false} SortedIsInDayOrder(entries: seq<Entry>)
    ensures InDayOrder(Sorted(entries))
  {
    if entries != [] {
      SortedIsInDayOrder(entries[..|entries| - 1]);
      InsertedKeepsDayOrder(Sorted(entries[..|entries| - 1]), entries[|entries| - 1]);
    }
  }

  /** How many rows of an ordered list fall on `day` or before. */
  function CountUpTo(sorted: seq<Entry>, day: int): (m: nat)
    ensures m <= |sorted|
  {
    if sorted == [] then 0
    else if sorted[|sorted| - 1].on <= day then |sorted| else CountUpTo(sorted[..|sorted| - 1], day)
  }

  lemma {:induction false} UpToIsAPrefix(sorted: seq<Entry>, day: int)
    requires InDayOrder(sorted)
    ensures UpTo(sorted, day) == sorted[..CountUpTo(sorted, day)]
    ensures forall i :: 0 <= i < |sorted| ==> (i < CountUpTo(sorted, day) <==> sorted[i].on <= day)
  {
    if sorted == [] {
    } else {
      var init := sorted[..|sorted| - 1];
      UpToIsAPrefix(init, day);
      if sorted[|sorted| - 1].on <= day {
        AllUpTo(init, day);
        assert sorted == init + [sorted[|sorted| - 1]];
      } else {
        assert init[..CountUpTo(init, day)] == sorted[..CountUpTo(init, day)];
      }
    }
  }

  lemma {:induction false} AllUpTo(entries: seq<Entry>, day: int)
    requires forall i :: 0 <= i < |entries| ==> entries[i].on <= day
    ensures UpTo(entries, day) == entries
  {
    if entries != [] { AllUpTo(entries[..|entries| - 1], day); }
  }

  lemma InsertedBehind(entries: seq<Entry>, last: Entry, e: Entry)
    requires !EntryLess(e, last)
    ensures Inserted(entries + [last], e) == entries + [last] + [e]
  {
  }

  lemma InsertedBefore(entries: seq<Entry>, last: Entry, e: Entry)
    requires EntryLess(e, last)
    ensures Inserted(entries + [last], e) == Inserted(entries, e) + [last]
  {
    assert (entries + [last])[..|entries|] == entries;
  }

  lemma {:induction false} UpToOfInserted(sorted: seq<Entry>, e: Entry, day: int)
    requires InDayOrder(sorted)
    ensures UpTo(Inserted(sorted, e), day) == if e.on <= day then Inserted(UpTo(sorted, day), e) else UpTo(sorted, day)
  {
    if sorted == [] {
      UpToOneMore([], e, day);
    } else {
      var init, last := sorted[..|sorted| - 1], sorted[|sorted| - 1];
      assert sorted == init + [last];
      if EntryLess(e, last) { UpToOfInserted(init, e, day); }
      hide Inserted, UpTo;
      UpToOneMore(init, last, day);
      if !EntryLess(e, last) {
        InsertedBehind(init, last, e);
        UpToOneMore(sorted, e, day);
        InsertedBehind(UpTo(init, day), last, e);
        assert UpTo(sorted, day) + [] == UpTo(sorted, day);
      } else {
        InsertedBefore(init, last, e);
        UpToOneMore(Inserted(init, e), last, day);
        InsertedBefore(UpTo(init, day), last, e);
        assert UpTo(init, day) + [] == UpTo(init, day);
        assert UpTo(Inserted(init, e), day) + [] == UpTo(Inserted(init, e), day);
      }
    }
  }

  /** Looking at a date and sorting may be done in either order. */
  lemma {:induction false} SortingCommutes(entries: seq<Entry>, day: int)
    ensures Sorted(UpTo(entries, day)) == UpTo(Sorted(entries), day)
  {
    if entries != [] {
      var init, e := entries[..|entries| - 1], entries[|entries| - 1];
      assert entries == init + [e];
      SortingCommutes(init, day);
      hide Sorted, Inserted, UpTo;
      SortedIsInDayOrder(init);
      UpToOneMore(init, e, day);
      SortedOneMore(init, e);
      UpToOfInserted(Sorted(init), e, day);
      SortedOneMore(UpTo(init, day), e);
      assert UpTo(init, day) + [] == UpTo(init, day);
    }
  }

  // ---------------------------------------------------------------------------
  // Rows arrive in any order
  // ---------------------------------------------------------------------------

  lemma {:induction false} InsertionsCommute(sorted: seq<Entry>, x: Entry, y: Entry)
    requires x.id != y.id
    ensures Inserted(Inserted(sorted, x), y) == Inserted(Inserted(sorted, y), x)
  {
    hide Inserted;
    if sorted == [] {
      InsertedIntoNothing(x);
      InsertedIntoNothing(y);
      if EntryLess(x, y) {
        InsertedBefore([], y, x);
        InsertedBehind([], x, y);
      } else {
        InsertedBefore([], x, y);
        InsertedBehind([], y, x);
      }
    } else {
      var init, last := sorted[..|sorted| - 1], sorted[|sorted| - 1];
      assert sorted == init + [last];
      InsertionsCommute(init, x, y);
      if EntryLess(x, last) { InsertedBefore(init, last, x); } else { InsertedBehind(init, last, x); }
      if EntryLess(y, last) { InsertedBefore(init, last, y); } else { InsertedBehind(init, last, y); }
      if EntryLess(x, last) {
        if EntryLess(y, last) {
          InsertedBefore(Inserted(init, x), last, y);
        } else {
          InsertedBehind(Inserted(init, x), last, y);
        }
      } else {
        if EntryLess(y, x) { InsertedBefore(init + [last], x, y); } else { InsertedBehind(init + [last], x, y); }
      }
      if EntryLess(y, last) {
        if EntryLess(x, last) {
          InsertedBefore(Inserted(init, y), last, x);
        } else {
          InsertedBehind(Inserted(init, y), last, x);
        }
      } else {
        if EntryLess(x, y) { InsertedBefore(init + [last], y, x); } else { InsertedBehind(init + [last], y, x); }
      }
    }
  }

  lemma InsertedIntoNothing(x: Entry)
    ensures Inserted([], x) == [x] && [] + [x] == [x]
  {
  }

  /** A row appended before or after a batch of others sorts to the same list. */
  lemma {:induction false} RowMovesThroughABatch(entries: seq<Entry>, batch: seq<Entry>, g: Entry)
    requires forall i :: 0 <= i < |batch| ==> batch[i].id != g.id
    ensures Sorted(entries + batch + [g]) == Sorted(entries + [g] + batch)
  {
    if batch == [] {
      assert entries + [] + [g] == entries + [g] + [];
    } else {
      var n := |batch| - 1;
      var init, p := batch[..n], batch[n];
      RowMovesThroughABatch(entries, init, g);
      hide Sorted, Inserted;
      assert entries + batch == entries + init + [p] && entries + [g] + batch == entries + [g] + init + [p];
      SortedOneMore(entries + init + [p], g);
      SortedOneMore(entries + init, p);
      SortedOneMore(entries + init, g);
      SortedOneMore(entries + [g] + init, p);
      InsertionsCommute(Sorted(entries + init), p, g);
    }
  }

  predicate AreGrants(rows: seq<Entry>) {
    forall i :: 0 <= i < |rows| ==> IsPlain(rows[i]) && IsIncrease(rows[i])
  }

  /** Grants that came in since the reading lower no balance of the ledger with a batch. */
  lemma {:induction false} GrantsMayComeBetween(read: seq<Entry>, grants: seq<Entry>, batch: seq<Entry>, asOf: int)
    requires AllPlain(read) && AllPlain(batch) && AreGrants(grants) && DistinctRows(read + grants + batch)
    ensures Available(read + batch, asOf) <= Available(read + grants + batch, asOf)
  {
    hide Sorted, UpTo, Buckets, Usable, Debt, Available, IsPlain, IsIncrease;
    if grants == [] {
      assert read + [] + batch == read + batch;
    } else {
      var n := |grants| - 1;
      var init, g := grants[..n], grants[n];
      var all, older := read + grants + batch, read + init + batch;
      assert all == read + init + [g] + batch;
      assert forall i :: 0 <= i < |read + init| ==> older[i] == all[i];
      assert forall i :: |read + init| <= i < |older| ==> older[i] == all[i + 1];
      GrantsMayComeBetween(read, init, batch, asOf);
      AddingAGrantNeverLowersABalance(older, g, asOf);
      forall i | 0 <= i < |batch| ensures batch[i].id != g.id {
        assert all[|read| + n] == g && all[|read| + |grants| + i] == batch[i];
      }
      RowMovesThroughABatch(read + init, batch, g);
      SortingCommutes(older + [g], asOf);
      SortingCommutes(all, asOf);
      AvailableIsUsableLessDebt(older + [g], asOf);
      AvailableIsUsableLessDebt(all, asOf);
    }
  }

  // ---------------------------------------------------------------------------
  // Taking later in a day
  // ---------------------------------------------------------------------------

  /** A row that takes may stand behind a row of the same day: from that day on nothing nets less. */
  lemma TakingBehindOne(s: State, p: Entry, x: Entry)
    requires IsPlain(p) && !IsIncrease(p) && IsPlain(x) && x.on == p.on && ExpireInOrder(s.buckets)
    ensures NetsNoLess(Applied(Applied(s, p), x).buckets, Applied(Applied(s, x), p).buckets, p.on)
  {
    hide Applied, Net, ExpireInOrder;
    TakingBehindOneOn(s, p, x, p.on);
    forall day | p.on <= day
      ensures Net(Applied(Applied(s, p), x).buckets, day) <= Net(Applied(Applied(s, x), p).buckets, day)
    {
      TakingBehindOneOn(s, p, x, day);
    }
  }

  lemma TakingBehindOneOn(s: State, p: Entry, x: Entry, day: int)
    requires IsPlain(p) && !IsIncrease(p) && IsPlain(x) && x.on == p.on <= day && ExpireInOrder(s.buckets)
    ensures ExpireInOrder(Applied(Applied(s, p), x).buckets) && ExpireInOrder(Applied(Applied(s, x), p).buckets)
    ensures Net(Applied(Applied(s, p), x).buckets, day) <= Net(Applied(Applied(s, x), p).buckets, day)
  {
    assert p.minutes < 0 && (!IsIncrease(x) ==> x.minutes < 0);
    hide Applied, Net, ExpireInOrder, IsPlain, IsIncrease;
    AppliedNet(s, p, day);
    AppliedNet(s, p, p.on);
    AppliedNet(Applied(s, p), x, day);
    AppliedNet(s, x, day);
    AppliedNet(s, x, p.on);
    AppliedNet(Applied(s, x), p, day);
  }

  lemma NetsNoLessIsTransitive(a: seq<Bucket>, b: seq<Bucket>, c: seq<Bucket>, from: int)
    requires NetsNoLess(a, b, from) && NetsNoLess(b, c, from)
    ensures NetsNoLess(a, c, from)
  {
    hide Net, ExpireInOrder;
    forall day | from <= day ensures Net(a, day) <= Net(c, day) { assert Net(a, day) <= Net(b, day); }
  }

  lemma {:induction false} TakingBehindABlock(s: State, p: Entry, block: seq<Entry>)
    requires IsPlain(p) && !IsIncrease(p) && AllPlain(block) && ExpireInOrder(s.buckets)
    requires forall i :: 0 <= i < |block| ==> block[i].on == p.on
    ensures ExpireInOrder(AppliedAll(s, block).buckets)
    ensures NetsNoLess(AppliedAll(Applied(s, p), block).buckets, Applied(AppliedAll(s, block), p).buckets, p.on)
  {
    hide Applied, Net, IsPlain, IsIncrease, ExpireInOrder;
    if block == [] {
      AppliedNet(s, p, p.on);
    } else {
      var init, x := block[..|block| - 1], block[|block| - 1];
      TakingBehindABlock(s, p, init);
      hide NetsNoLess;
      var ahead, behind := AppliedAll(Applied(s, p), init), Applied(AppliedAll(s, init), p);
      AppliedKeepsNets(ahead, behind, x, p.on);
      AppliedNet(AppliedAll(s, init), x, p.on);
      TakingBehindOne(AppliedAll(s, init), p, x);
      NetsNoLessIsTransitive(
        Applied(ahead, x).buckets, Applied(behind, x).buckets, Applied(AppliedAll(s, block), p).buckets, p.on);
    }
  }

  /** Of two rows that take the same on the same day, the one with the smaller id. */
  predicate ComesAhead(p: Entry, r: Entry) {
    && IsPlain(p) && IsPlain(r) && !IsIncrease(p) && !IsIncrease(r)
    && p.on == r.on && p.minutes == r.minutes && p.id < r.id
  }

  lemma TakenAlike(s: State, p: Entry, r: Entry)
    requires ComesAhead(p, r)
    ensures Applied(s, p) == Applied(s, r)
  {
    hide Reduced, Lapsed, LapsedMinutes;
  }

  lemma PlacesOfTheTwo(sorted: seq<Entry>, p: Entry, r: Entry) returns (k: nat, m: nat)
    requires InDayOrder(sorted) && ComesAhead(p, r)
    ensures k <= m <= |sorted|
    ensures Inserted(sorted, p) == sorted[..k] + ([p] + sorted[k..m]) + sorted[m..]
    ensures Inserted(sorted, r) == sorted[..k] + (sorted[k..m] + [r]) + sorted[m..]
    ensures forall i :: k <= i < m ==> sorted[i].on == p.on
    ensures forall i :: m <= i < |sorted| ==> p.on <= sorted[i].on
  {
    hide Inserted, IsPlain, IsIncrease;
    k := InsertedSplits(sorted, p);
    m := InsertedSplits(sorted, r);
    SplitsAgain(sorted, p, k, m);
    SplitsAgain(sorted, r, k, m);
    if k < m { assert !EntryLess(r, sorted[m - 1]); }
  }

  lemma SplitsAgain(sorted: seq<Entry>, e: Entry, k: nat, m: nat)
    requires k <= m <= |sorted|
    ensures sorted[..k] + [e] + sorted[k..] == sorted[..k] + ([e] + sorted[k..m]) + sorted[m..]
    ensures sorted[..m] + [e] + sorted[m..] == sorted[..k] + (sorted[k..m] + [e]) + sorted[m..]
  {
    assert sorted[k..] == sorted[k..m] + sorted[m..];
    assert sorted[..m] == sorted[..k] + sorted[k..m];
  }

  /** The same row inserted with a greater id nets no less on any date from its day on. */
  lemma InsertedLaterNetsNoLess(sorted: seq<Entry>, p: Entry, r: Entry)
    requires AllPlain(sorted) && InDayOrder(sorted) && ComesAhead(p, r)
    ensures NetsNoLess(Buckets(Inserted(sorted, p)), Buckets(Inserted(sorted, r)), p.on)
  {
    assert IsPlain(p) && !IsIncrease(p);
    hide Inserted, Applied, NetsNoLess, IsPlain, IsIncrease, ExpireInOrder, AppliedAll, InDayOrder, ComesAhead,
      EntryLess;
    var k, m := PlacesOfTheTwo(sorted, p, r);
    var first, block, rest := sorted[..k], sorted[k..m], sorted[m..];
    var start := State([], 0);
    var s := AppliedAll(start, first);
    AppliedAllKeepsOrder(first);
    TakingBehindABlock(s, p, block);
    var ahead, behind := AppliedAll(Applied(s, p), block), Applied(AppliedAll(s, block), p);
    AppliedAllKeepsNets(ahead, behind, rest, p.on);
    TakenAlike(AppliedAll(s, block), p, r);
    AppliedInThreeParts(start, first, [p] + block, rest);
    AppliedInThreeParts(start, first, block + [r], rest);
    AppliedInTwoParts(s, [p], block);
    AppliedInTwoParts(s, block, [r]);
    AppliedOne(s, p);
    AppliedOne(AppliedAll(s, block), r);
  }

  lemma AppliedOne(s: State, e: Entry)
    ensures AppliedAll(s, [e]) == Applied(s, e)
  {
    hide Applied;
    AppliedOneMore(s, [], e);
    assert [] + [e] == [e];
  }

  lemma AppliedInThreeParts(s: State, first: seq<Entry>, second: seq<Entry>, third: seq<Entry>)
    ensures AppliedAll(s, first + second + third) == AppliedAll(AppliedAll(AppliedAll(s, first), second), third)
  {
    hide AppliedAll;
    AppliedInTwoParts(s, first + second, third);
    AppliedInTwoParts(s, first, second);
  }

  /** A row that takes gives every date at least the balance that it gives with a smaller id. */
  lemma GreaterIdsLeaveNoLess(before: seq<Entry>, after: seq<Entry>, p: Entry, r: Entry, asOf: int)
    requires AllPlain(before) && AllPlain(after) && ComesAhead(p, r)
    requires forall i :: 0 <= i < |after| ==> after[i].id != p.id && after[i].id != r.id
    ensures Available(before + [p] + after, asOf) <= Available(before + [r] + after, asOf)
  {
    hide Available, Sorted, Inserted, UpTo, Buckets, Usable, Debt, IsPlain, IsIncrease, InDayOrder;
    AvailableIsUsableLessDebt(before + [p] + after, asOf);
    AvailableIsUsableLessDebt(before + [r] + after, asOf);
    SortedWith(before, after, p, asOf);
    SortedWith(before, after, r, asOf);
    if p.on <= asOf {
      var others := UpTo(Sorted(before + after), asOf);
      SortedIsPlain(before + after);
      UpToIsPlain(Sorted(before + after), asOf);
      SortedIsInDayOrder(before + after);
      UpToKeepsDayOrder(Sorted(before + after), asOf);
      InsertedLaterNetsNoLess(others, p, r);
      assert Net(Buckets(Inserted(others, p)), asOf) <= Net(Buckets(Inserted(others, r)), asOf);
    }
  }

  lemma SortedWith(before: seq<Entry>, after: seq<Entry>, e: Entry, asOf: int)
    requires forall i :: 0 <= i < |after| ==> after[i].id != e.id
    ensures var others := UpTo(Sorted(before + after), asOf);
            Sorted(UpTo(before + [e] + after, asOf)) == if e.on <= asOf then Inserted(others, e) else others
  {
    hide Sorted, Inserted, UpTo, InDayOrder;
    SortingCommutes(before + [e] + after, asOf);
    RowMovesThroughABatch(before, after, e);
    SortedOneMore(before + after, e);
    SortedIsInDayOrder(before + after);
    UpToOfInserted(Sorted(before + after), e, asOf);
  }

  lemma UpToKeepsDayOrder(sorted: seq<Entry>, day: int)
    requires InDayOrder(sorted)
    ensures InDayOrder(UpTo(sorted, day))
  {
    hide UpTo, CountUpTo;
    UpToIsAPrefix(sorted, day);
  }

  /** The rows that are appended for what was checked: real ids, and the same minutes on the same days. */
  predicate AreRowsFor(rows: seq<Entry>, consumptions: seq<Consumption>) {
    |rows| == |consumptions| && forall i :: 0 <= i < |rows| ==>
      && IsPlain(rows[i]) && !IsIncrease(rows[i]) && 0 <= rows[i].id
      && rows[i].minutes == -consumptions[i].minutes && rows[i].on == consumptions[i].on
  }

  lemma PlaceholdersArePlain(rows: seq<Entry>, consumptions: seq<Consumption>)
    requires AreRowsFor(rows, consumptions)
    ensures AllPlain(Placeholders(consumptions)) && AllPlain(rows)
  {
    forall i | 0 <= i < |rows| ensures IsPlain(Placeholders(consumptions)[i]) { assert IsPlain(rows[i]); }
  }

  lemma PlaceholderComesAhead(rows: seq<Entry>, consumptions: seq<Consumption>, i: nat)
    requires AreRowsFor(rows, consumptions) && i < |rows|
    ensures var checked := Placeholders(consumptions);
            && ComesAhead(checked[i], rows[i])
            && forall j :: i < j < |checked| ==> checked[j].id != checked[i].id && checked[j].id != rows[i].id
  {
    assert IsPlain(rows[i]);
  }

  lemma OneReplaced(read: seq<Entry>, rows: seq<Entry>, checked: seq<Entry>, m: nat)
    requires m < |rows| == |checked|
    ensures read + rows[..m] + [checked[m]] + checked[m + 1..] == read + rows[..m] + checked[m..]
    ensures read + rows[..m] + [rows[m]] + checked[m + 1..] == read + rows[..m + 1] + checked[m + 1..]
  {
    assert [checked[m]] + checked[m + 1..] == checked[m..];
    assert rows[..m + 1] == rows[..m] + [rows[m]];
  }

  lemma {:induction false} FirstRowsReplaced(
      read: seq<Entry>, rows: seq<Entry>, consumptions: seq<Consumption>, n: nat, asOf: int)
    requires AllPlain(read) && AreRowsFor(rows, consumptions) && n <= |rows|
    ensures Available(read + Placeholders(consumptions), asOf) <=
            Available(read + rows[..n] + Placeholders(consumptions)[n..], asOf)
  {
    var checked := Placeholders(consumptions);
    if n == 0 {
      assert read + rows[..0] + checked[0..] == read + checked;
    } else {
      var m := n - 1;
      FirstRowsReplaced(read, rows, consumptions, m, asOf);
      PlaceholdersArePlain(rows, consumptions);
      PlaceholderComesAhead(rows, consumptions, m);
      hide Available, IsPlain, IsIncrease, Placeholders, ComesAhead, AreRowsFor;
      assert AllPlain(read + rows[..m]) && AllPlain(checked[n..]);
      GreaterIdsLeaveNoLess(read + rows[..m], checked[n..], checked[m], rows[m], asOf);
      OneReplaced(read, rows, checked, m);
    }
  }

  /** What the check sees is the worst case: no date has less once the rows are appended, whatever their ids. */
  lemma PlaceholdersAreTheWorstCase(read: seq<Entry>, rows: seq<Entry>, consumptions: seq<Consumption>, asOf: int)
    requires AllPlain(read) && AreRowsFor(rows, consumptions)
    ensures Available(read + Placeholders(consumptions), asOf) <= Available(read + rows, asOf)
  {
    hide Available, IsPlain, IsIncrease;
    FirstRowsReplaced(read, rows, consumptions, |rows|, asOf);
    assert read + rows[..|rows|] + Placeholders(consumptions)[|rows|..] == read + rows;
  }

  // ---------------------------------------------------------------------------
  // On which days a balance can fall
  // ---------------------------------------------------------------------------

  /** A row takes on `day`. */
  predicate TakesOn(entries: seq<Entry>, day: int) {
    exists i :: 0 <= i < |entries| && !IsIncrease(entries[i]) && entries[i].on == day
  }

  /** `day` is the one after some row's expiry. */
  predicate ExpiresBefore(entries: seq<Entry>, day: int) {
    exists i :: 0 <= i < |entries| && entries[i].expiresOn == Some(day - 1)
  }

  predicate NoneExpiresOn(buckets: seq<Bucket>, day: int) {
    forall i :: 0 <= i < |buckets| ==> buckets[i].expiresOn != Some(day)
  }

  lemma {:induction false} PutExpires(buckets: seq<Bucket>, b: Bucket, day: int)
    requires NoneExpiresOn(buckets, day) && b.expiresOn != Some(day)
    ensures NoneExpiresOn(Put(buckets, b), day)
  {
    if buckets == [] || !BucketLess(b, buckets[|buckets| - 1]) {
    } else {
      PutExpires(buckets[..|buckets| - 1], b, day);
    }
  }

  lemma AppliedExpires(s: State, e: Entry, day: int)
    requires IsPlain(e) && e.expiresOn != Some(day) && NoneExpiresOn(s.buckets, day)
    ensures NoneExpiresOn(Applied(s, e).buckets, day)
  {
    hide Put, Reduced, Lapsed, NoneExpiresOn;
    AppliedIs(s, e);
    hide Applied;
    if IsIncrease(e) {
      PutExpires(s.buckets, BucketOf(e), day);
    } else {
      LapsedExpires(s.buckets, e.on, day);
      ReducedExpires(Lapsed(s.buckets, e.on), -e.minutes, day);
    }
  }

  lemma LapsedExpires(buckets: seq<Bucket>, on: int, day: int)
    requires NoneExpiresOn(buckets, day)
    ensures NoneExpiresOn(Lapsed(buckets, on), day)
  {
  }

  lemma ReducedExpires(buckets: seq<Bucket>, amount: int, day: int)
    requires NoneExpiresOn(buckets, day)
    ensures NoneExpiresOn(Reduced(buckets, amount, None), day)
  {
    hide Put, Taken;
    var (rest, left) := Taken(buckets, amount, None);
    TakenKeepsExpiries(buckets, amount, None);
    PutExpires(rest, Bucket(Unallocated, -left, None), day);
  }

  lemma {:induction false} BucketsExpireWithTheirRows(entries: seq<Entry>, day: int)
    requires AllPlain(entries) && forall i :: 0 <= i < |entries| ==> entries[i].expiresOn != Some(day)
    ensures NoneExpiresOn(Buckets(entries), day)
  {
    hide Applied, IsPlain;
    if entries != [] {
      BucketsExpireWithTheirRows(entries[..|entries| - 1], day);
      AppliedExpires(AppliedAll(State([], 0), entries[..|entries| - 1]), entries[|entries| - 1], day);
    }
  }

  lemma {:induction false} NothingLapses(buckets: seq<Bucket>, day: int)
    requires NoneExpiresOn(buckets, day - 1)
    ensures Usable(buckets, day - 1) == Usable(buckets, day)
  {
    if buckets != [] {
      assert forall i :: 0 <= i < |buckets[1..]| ==> buckets[1..][i] == buckets[i + 1];
      NothingLapses(buckets[1..], day);
    }
  }

  lemma {:induction false} IncreasesNetNoLess(s: State, rows: seq<Entry>, day: int)
    requires AllPlain(rows) && ExpireInOrder(s.buckets)
    requires forall i :: 0 <= i < |rows| ==> IsIncrease(rows[i])
    ensures ExpireInOrder(AppliedAll(s, rows).buckets)
    ensures Net(s.buckets, day) <= Net(AppliedAll(s, rows).buckets, day)
  {
    assert rows != [] ==> IsPlain(rows[|rows| - 1]) && rows[|rows| - 1].minutes > 0;
    hide Applied, Net, IsPlain, ExpireInOrder;
    if rows != [] {
      var init := rows[..|rows| - 1];
      IncreasesNetNoLess(s, init, day);
      AppliedNet(AppliedAll(s, init), rows[|rows| - 1], day);
    }
  }

  /** A day on which nothing is taken and before which nothing expires shows no less than the day before. */
  lemma QuietDay(entries: seq<Entry>, day: int)
    requires AllPlain(entries) && !TakesOn(entries, day) && !ExpiresBefore(entries, day)
    ensures Available(entries, day - 1) <= Available(entries, day)
  {
    var sorted := Sorted(entries);
    hide Sorted, UpTo, Available, IsPlain, IsIncrease, Usable, Debt, AppliedAll, ExpireInOrder;
    SortingKeepsWeights(entries);
    SortedIsPlain(entries);
    AvailableIsUsableLessDebt(entries, day - 1);
    AvailableIsUsableLessDebt(entries, day);
    var m := StateAt(entries, day - 1);
    var n := StateAt(entries, day);
    assert n < |sorted| ==> day < sorted[n].on;
    var earlier, today := sorted[..m], sorted[m..n];
    assert sorted[..n] == earlier + today;
    var s := AppliedAll(State([], 0), earlier);
    AppliedInTwoParts(State([], 0), earlier, today);
    forall i | 0 <= i < |today| ensures IsIncrease(today[i]) {
      assert today[i] == sorted[m + i] && sorted[m + i] in entries;
    }
    AppliedAllKeepsOrder(earlier);
    IncreasesNetNoLess(s, today, day);
    forall i | 0 <= i < |earlier| ensures earlier[i].expiresOn != Some(day - 1) { assert sorted[i] in entries; }
    BucketsExpireWithTheirRows(earlier, day - 1);
    NothingLapses(s.buckets, day);
  }

  /** Looking at every day from `earliest` on after which the balance may be lower than before. */
  ghost predicate PassesOnEveryMove(entries: seq<Entry>, earliest: int) {
    forall day :: earliest <= day && (TakesOn(entries, day) || ExpiresBefore(entries, day)) ==>
      0 <= Available(entries, day)
  }

  lemma EarlierDaysStay(read: seq<Entry>, rows: seq<Entry>, day: int)
    requires AllPlain(read) && AllPlain(rows) && forall i :: 0 <= i < |rows| ==> day < rows[i].on
    ensures Available(read + rows, day) == Available(read, day)
  {
    hide Available, Sorted, UpTo, Buckets, Usable, Debt, IsPlain;
    AvailableIsUsableLessDebt(read, day);
    AvailableIsUsableLessDebt(read + rows, day);
    LaterRowsDoNotCount(read, rows, day);
  }

  lemma {:induction false} EveryDayStaysUp(read: seq<Entry>, rows: seq<Entry>, earliest: int, day: int)
    requires AllPlain(read) && AllPlain(rows) && NeverNegative(read)
    requires forall i :: 0 <= i < |rows| ==> earliest <= rows[i].on
    requires PassesOnEveryMove(read + rows, earliest)
    ensures 0 <= Available(read + rows, day)
    decreases if day < earliest then 0 else day - earliest + 1
  {
    hide Available, TakesOn, ExpiresBefore, IsPlain;
    if day < earliest {
      EarlierDaysStay(read, rows, day);
    } else if !TakesOn(read + rows, day) && !ExpiresBefore(read + rows, day) {
      EveryDayStaysUp(read, rows, earliest, day - 1);
      QuietDay(read + rows, day);
    }
  }

  /** Exactly when rows leave a balance negative on no date: it is enough, and needed, to look from the earliest of them
      on at the days on which something is taken and the days after something expires. */
  lemma NeverNegativeIff(read: seq<Entry>, rows: seq<Entry>, earliest: int)
    requires AllPlain(read) && AllPlain(rows) && NeverNegative(read)
    requires forall i :: 0 <= i < |rows| ==> earliest <= rows[i].on
    ensures NeverNegative(read + rows) <==> PassesOnEveryMove(read + rows, earliest)
  {
    hide Available, TakesOn, ExpiresBefore, AllPlain;
    if PassesOnEveryMove(read + rows, earliest) {
      forall day ensures 0 <= Available(read + rows, day) { EveryDayStaysUp(read, rows, earliest, day); }
    }
  }

  // ---------------------------------------------------------------------------
  // What passes the check stays solvent
  // ---------------------------------------------------------------------------

  /** What a row makes of what is held and owed. */
  lemma AppliedDebt(s: State, e: Entry)
    requires IsPlain(e) && ExpireInOrder(s.buckets)
    ensures var after := Applied(s, e).buckets;
            if IsIncrease(e) then Debt(after) == Debt(s.buckets)
            else
              && Held(after) == Max(Usable(s.buckets, e.on) + e.minutes, 0)
              && Debt(after) == Debt(s.buckets) + Max(-e.minutes - Usable(s.buckets, e.on), 0)
  {
    hide Put, Reduced, Lapsed, Usable, Debt, Held, ExpireInOrder;
    AppliedIs(s, e);
    hide Applied;
    if IsIncrease(e) {
      PutMeasures(s.buckets, BucketOf(e), 0);
    } else {
      DecrementMeasures(s.buckets, e.on, -e.minutes, 0);
    }
  }

  lemma DebtComesFromADecrement(sorted: seq<Entry>, e: Entry)
    requires AllPlain(sorted) && IsPlain(e)
    requires Debt(Buckets(sorted)) == 0 && Debt(Buckets(sorted + [e])) > 0
    ensures !IsIncrease(e) && Held(Buckets(sorted + [e])) == 0
  {
    hide Applied, AppliedAll, Usable, Debt, Held, ExpireInOrder, IsPlain, IsIncrease;
    AppliedAllKeepsOrder(sorted);
    AppliedOneMore(State([], 0), sorted, e);
    AppliedDebt(AppliedAll(State([], 0), sorted), e);
  }

  lemma NoDebtWithoutRows()
    ensures Debt(Buckets([])) == 0
  {
  }

  lemma AllButTheLastArePlain(entries: seq<Entry>)
    requires AllPlain(entries) && entries != []
    ensures AllPlain(entries[..|entries| - 1]) && IsPlain(entries[|entries| - 1])
  {
    hide IsPlain;
  }

  /** The first row that leaves a debt is one that takes, and it leaves nothing to take. */
  lemma {:induction false} FirstDebt(sorted: seq<Entry>) returns (k: nat)
    requires AllPlain(sorted) && Debt(Buckets(sorted)) > 0
    ensures k < |sorted| && !IsIncrease(sorted[k])
    ensures Held(Buckets(sorted[..k + 1])) == 0 && Debt(Buckets(sorted[..k + 1])) > 0
  {
    hide *;
    NoDebtWithoutRows();
    var init, last := sorted[..|sorted| - 1], sorted[|sorted| - 1];
    assert sorted == init + [last];
    AllButTheLastArePlain(sorted);
    if Debt(Buckets(init)) > 0 {
      k := FirstDebt(init);
      assert init[..k + 1] == sorted[..k + 1];
    } else {
      DebtComesFromADecrement(init, last);
      k := |sorted| - 1;
      assert sorted[..k + 1] == sorted;
    }
  }

  lemma DebtStaysInState(s: State, e: Entry)
    requires IsPlain(e) && !IsIncrease(e) && ExpireInOrder(s.buckets)
    requires Held(s.buckets) == 0 && Debt(s.buckets) > 0
    ensures Held(Applied(s, e).buckets) == 0 && Debt(Applied(s, e).buckets) > 0
  {
    assert e.minutes < 0;
    hide Applied, Usable, Debt, Held, ExpireInOrder, HasLapsed;
    UsableIsHeld(s.buckets, e.on);
    AppliedDebt(s, e);
  }

  lemma DebtStaysAfterOne(sorted: seq<Entry>, e: Entry)
    requires AllPlain(sorted) && IsPlain(e) && !IsIncrease(e)
    requires Held(Buckets(sorted)) == 0 && Debt(Buckets(sorted)) > 0
    ensures Held(Buckets(sorted + [e])) == 0 && Debt(Buckets(sorted + [e])) > 0
  {
    hide Applied, AppliedAll, Debt, Held, ExpireInOrder, IsPlain, IsIncrease, AllPlain;
    AppliedAllKeepsOrder(sorted);
    AppliedOneMore(State([], 0), sorted, e);
    DebtStaysInState(AppliedAll(State([], 0), sorted), e);
  }

  lemma {:induction false} DebtStays(sorted: seq<Entry>, k: nat, m: nat)
    requires AllPlain(sorted) && k <= m <= |sorted|
    requires forall i :: k <= i < m ==> !IsIncrease(sorted[i])
    requires Held(Buckets(sorted[..k])) == 0 && Debt(Buckets(sorted[..k])) > 0
    ensures Held(Buckets(sorted[..m])) == 0 && Debt(Buckets(sorted[..m])) > 0
    decreases m
  {
    hide Buckets, IsPlain, Debt, Held, IsIncrease;
    if k < m {
      DebtStays(sorted, k, m - 1);
      DebtStaysAfterOne(sorted[..m - 1], sorted[m - 1]);
      assert sorted[..m] == sorted[..m - 1] + [sorted[m - 1]];
    }
  }

  lemma StateAt(entries: seq<Entry>, day: int) returns (m: nat)
    ensures m <= |Sorted(entries)| && Sorted(UpTo(entries, day)) == Sorted(entries)[..m]
    ensures forall i :: 0 <= i < |Sorted(entries)| ==> (i < m <==> Sorted(entries)[i].on <= day)
  {
    hide Sorted, UpTo, CountUpTo;
    SortingCommutes(entries, day);
    SortedIsInDayOrder(entries);
    UpToIsAPrefix(Sorted(entries), day);
    m := CountUpTo(Sorted(entries), day);
  }

  /** On `day` nothing can be used and something is owed. */
  predicate ShowsDebt(entries: seq<Entry>, day: int) {
    var buckets := Buckets(Sorted(UpTo(entries, day)));
    Usable(buckets, day) == 0 && Debt(buckets) > 0
  }

  /** The row that left the first debt is a row of the ledger, and nothing of its day comes to help. */
  lemma DebtShowsAt(entries: seq<Entry>, k: nat)
    requires AllPlain(entries) && IncreasesComeFirst(Sorted(entries))
    requires k < |Sorted(entries)| && !IsIncrease(Sorted(entries)[k])
    requires Held(Buckets(Sorted(entries)[..k + 1])) == 0 && Debt(Buckets(Sorted(entries)[..k + 1])) > 0
    ensures ShowsDebt(entries, Sorted(entries)[k].on)
  {
    var sorted := Sorted(entries);
    var d := sorted[k].on;
    hide Sorted, UpTo, Buckets, Available, IsPlain, IsIncrease, Debt, Held, Usable;
    SortedIsPlain(entries);
    SortedIsInDayOrder(entries);
    var m := StateAt(entries, d);
    DebtStays(sorted, k + 1, m);
    UsableIsHeld(Buckets(sorted[..m]), d);
  }

  /** A debt of any date shows on the date of a row. */
  lemma DebtShowsOnARowsDate(entries: seq<Entry>, asOf: int) returns (i: nat)
    requires AllPlain(entries) && IncreasesComeFirst(Sorted(entries))
    requires Debt(Buckets(Sorted(UpTo(entries, asOf)))) > 0
    ensures i < |entries| && ShowsDebt(entries, entries[i].on)
  {
    var sorted := Sorted(entries);
    hide Sorted, UpTo, Buckets, Available, IsPlain, IsIncrease, Debt, Held, Usable, IncreasesComeFirst;
    SortedIsPlain(entries);
    var m0 := StateAt(entries, asOf);
    var k := FirstDebt(sorted[..m0]);
    assert sorted[..m0][..k + 1] == sorted[..k + 1] && sorted[..m0][k] == sorted[k];
    DebtShowsAt(entries, k);
    SortingKeepsWeights(entries);
    assert sorted[k] in entries;
    i :| 0 <= i < |entries| && entries[i] == sorted[k];
  }

  lemma {:induction false} LaterRowsDoNotCount(entries: seq<Entry>, later: seq<Entry>, day: int)
    requires forall i :: 0 <= i < |later| ==> day < later[i].on
    ensures UpTo(entries + later, day) == UpTo(entries, day)
  {
    if later == [] {
      assert entries + later == entries;
    } else {
      var n := |later| - 1;
      LaterRowsDoNotCount(entries, later[..n], day);
      assert entries + later == (entries + later[..n]) + [later[n]];
      UpToOneMore(entries + later[..n], later[n], day);
      assert UpTo(entries, day) + [] == UpTo(entries, day);
    }
  }

  /** Rows that pass the check leave no debt on any date, as long as the rows of a day that add come first. */
  lemma AcceptedRowsStaySolvent(entries: seq<Entry>, proposed: seq<Entry>, earliest: int)
    requires AllPlain(entries) && AllPlain(proposed) && NeverNegative(entries)
    requires forall i :: 0 <= i < |proposed| ==> earliest <= proposed[i].on
    requires IncreasesComeFirst(Sorted(entries + proposed)) && PassesTheCheck(entries + proposed, earliest)
    ensures IsSolvent(entries + proposed)
  {
    var all := entries + proposed;
    hide Sorted, UpTo, Buckets, Available, IsPlain, Debt, IncreasesComeFirst;
    forall asOf ensures Debt(Buckets(Sorted(UpTo(all, asOf)))) == 0 {
      if Debt(Buckets(Sorted(UpTo(all, asOf)))) > 0 {
        var i := DebtShowsOnARowsDate(all, asOf);
        AvailableIsUsableLessDebt(all, all[i].on);
        if all[i].on < earliest { EarlierDaysStay(entries, proposed, all[i].on); }
      }
    }
  }

  /** Days from `earliest` on that the check does not look at and on which it matters: the days after an expiry. */
  ghost predicate StaysUpAfterExpiries(entries: seq<Entry>, earliest: int) {
    forall day :: earliest <= day && ExpiresBefore(entries, day) ==> 0 <= Available(entries, day)
  }

  /** The check is not enough: it looks only at the dates of rows, and a balance also moves when a grant expires. Leave
      taken on the day of a grant passes; when its row gets an id before the grant's, the balance turns negative the day
      after the grant expires. */
  lemma AcceptedMayTurnNegative(grant: Entry, taken: Entry)
    requires IsPlain(grant) && grant.kind == Grant && grant.expiresOn.Some? && grant.on <= grant.expiresOn.value
    requires IsPlain(taken) && taken.kind == Consume && 0 <= grant.minutes + taken.minutes
    requires taken.on == grant.on && 0 <= taken.id < grant.id
    ensures NeverNegative([grant])
    ensures PassesTheCheck([grant] + Placeholders([Consumption(-taken.minutes, taken.on)]), taken.on)
    ensures Available([grant] + [taken], grant.expiresOn.value + 1) == taken.minutes < 0
  {
    var placeholder := Entry(-1, Consume, taken.minutes, taken.on, None, None, None);
    assert Placeholders([Consumption(-taken.minutes, taken.on)]) == [placeholder];
    OneGrantIsNeverNegative(grant);
    TakenThenGranted(grant, placeholder, grant.on);
    TakenThenGranted(grant, taken, grant.expiresOn.value + 1);
    hide Available, NeverNegative, Placeholders;
  }

  lemma OneGrantIsNeverNegative(grant: Entry)
    requires IsPlain(grant) && IsIncrease(grant)
    ensures NeverNegative([grant])
  {
    hide Available;
    forall asOf ensures 0 <= Available([grant], asOf) {
      AvailableIsUsableLessDebt([], asOf);
      AddingAGrantNeverLowersABalance([], grant, asOf);
      assert [] + [grant] == [grant];
    }
  }

  lemma TakenThenGranted(grant: Entry, taken: Entry, day: int)
    requires IsPlain(grant) && grant.kind == Grant && IsPlain(taken) && taken.kind == Consume
    requires taken.on == grant.on <= day && taken.id < grant.id
    ensures Available([grant] + [taken], day) ==
            taken.minutes + if IsUsable(BucketOf(grant), day) then grant.minutes else 0
  {
    var all := [grant] + [taken];
    hide Available, Buckets, UpTo, Sorted, Usable, Debt;
    AvailableIsUsableLessDebt(all, day);
    AllUpTo(all, day);
    TakenSortsFirst(grant, taken);
    TakenLeavesADebt(taken, day);
    GrantedAfterwards(grant, taken, day);
  }

  lemma TakenSortsFirst(grant: Entry, taken: Entry)
    requires EntryLess(taken, grant)
    ensures Sorted([grant] + [taken]) == [taken, grant]
  {
    SortedOneMore([grant], taken);
    SortedOneMore([], grant);
    assert [] + [grant] == [grant];
    InsertedBefore([], grant, taken);
  }

  lemma TakenLeavesADebt(taken: Entry, day: int)
    requires IsPlain(taken) && taken.kind == Consume
    ensures Usable(Buckets([taken]), day) == 0 && Debt(Buckets([taken])) == -taken.minutes
  {
    var start := State([], 0);
    AppliedOneMore(start, [], taken);
    assert [] + [taken] == [taken];
    assert AppliedAll(start, []) == start;
    AppliedIs(start, taken);
    DecrementMeasures([], taken.on, -taken.minutes, day);
    hide AppliedAll, Applied, Reduced, Lapsed;
  }

  lemma GrantedAfterwards(grant: Entry, taken: Entry, day: int)
    requires IsPlain(grant) && IsIncrease(grant)
    ensures var bucket := BucketOf(grant);
            && Usable(Buckets([taken, grant]), day) ==
               Usable(Buckets([taken]), day) + (if IsUsable(bucket, day) then bucket.minutes else 0)
            && Debt(Buckets([taken, grant])) == Debt(Buckets([taken]))
  {
    AppliedOneMore(State([], 0), [taken], grant);
    assert [taken] + [grant] == [taken, grant];
    AppliedIs(AppliedAll(State([], 0), [taken]), grant);
    PutMeasures(Buckets([taken]), BucketOf(grant), day);
    hide AppliedAll, Applied, Put;
  }

  /** The order of two rows of one day that take makes no difference to any balance. */
  lemma DecrementsOfADayCommute(buckets: seq<Bucket>, on: int, a: nat, b: nat, day: int)
    requires ExpireInOrder(buckets)
    ensures var ab := Reduced(Lapsed(Reduced(Lapsed(buckets, on), a, None), on), b, None);
            var ba := Reduced(Lapsed(Reduced(Lapsed(buckets, on), b, None), on), a, None);
            Usable(ab, day) == Usable(ba, day) && Debt(ab) == Debt(ba)
  {
    var first, second := Reduced(Lapsed(buckets, on), a, None), Reduced(Lapsed(buckets, on), b, None);
    hide Usable, Debt, Held, Reduced, Lapsed, ExpireInOrder;
    DecrementMeasures(buckets, on, a, on);
    DecrementMeasures(buckets, on, a, Max(day, on));
    DecrementMeasures(buckets, on, b, on);
    DecrementMeasures(buckets, on, b, Max(day, on));
    DecrementMeasures(first, on, b, day);
    DecrementMeasures(second, on, a, day);
  }

  // ---------------------------------------------------------------------------
  // The days a leave takes
  // ---------------------------------------------------------------------------

  datatype DayType = WorkingDay | NonWorkingDay | LegalHoliday | PublicHoliday | LeaveDay | Absence

  datatype Schedule = Schedule(on: int, dayType: DayType)

  /** The period of a request and the schedules stored for it. */
  datatype Leave = Leave(first: int, last: int, schedules: seq<Schedule>)

  predicate IsNonWorking(t: DayType) {
    t == NonWorkingDay || t == LegalHoliday || t == PublicHoliday
  }

  /** A day without a schedule counts: nothing says that it is free. */
  predicate IsFree(schedules: seq<Schedule>, day: int) {
    exists i :: 0 <= i < |schedules| && schedules[i].on == day && IsNonWorking(schedules[i].dayType)
  }

  function DaysTaken(leave: Leave, n: nat): seq<int> {
    if n == 0 then []
    else
      var day := leave.first + n - 1;
      DaysTaken(leave, n - 1) + if IsFree(leave.schedules, day) then [] else [day]
  }

  function Length(leave: Leave): nat {
    if leave.last < leave.first then 0 else leave.last - leave.first + 1
  }

  /** `leaveDatesOf` */
  function LeaveDates(leave: Leave): seq<int> {
    DaysTaken(leave, Length(leave))
  }

  predicate IsAscending(days: seq<int>) {
    forall i, j :: 0 <= i < j < |days| ==> days[i] < days[j]
  }

  lemma {:induction false} DaysTakenAre(leave: Leave, n: nat)
    ensures IsAscending(DaysTaken(leave, n))
    ensures forall day :: day in DaysTaken(leave, n) <==>
              leave.first <= day < leave.first + n && !IsFree(leave.schedules, day)
  {
    hide IsFree;
    if n > 0 {
      DaysTakenAre(leave, n - 1);
      var init := DaysTaken(leave, n - 1);
      assert forall i :: 0 <= i < |init| ==> init[i] in init;
    }
  }

  /** A leave takes the days of its period that no schedule calls free, each once and in order. */
  lemma LeaveDatesAre(leave: Leave)
    ensures IsAscending(LeaveDates(leave))
    ensures forall day :: day in LeaveDates(leave) <==>
              leave.first <= day <= leave.last && !IsFree(leave.schedules, day)
    ensures forall day :: IsFree(leave.schedules, day) <==>
              exists i :: 0 <= i < |leave.schedules| && leave.schedules[i].on == day
                          && leave.schedules[i].dayType in {NonWorkingDay, LegalHoliday, PublicHoliday}
  {
    assert forall day :: IsFree(leave.schedules, day) <==>
        exists i :: 0 <= i < |leave.schedules| && leave.schedules[i].on == day
                    && leave.schedules[i].dayType in {NonWorkingDay, LegalHoliday, PublicHoliday};
    hide IsFree;
    DaysTakenAre(leave, Length(leave));
  }

  method LeaveDatesOf(leave: Leave) returns (dates: seq<int>)
    ensures dates == LeaveDates(leave)
  {
    var nonWorking: set<int> := {};
    for i := 0 to |leave.schedules|
      invariant forall day :: day in nonWorking <==> IsFree(leave.schedules[..i], day)
    {
      if IsNonWorking(leave.schedules[i].dayType) { nonWorking := nonWorking + {leave.schedules[i].on}; }
      forall day
        ensures IsFree(leave.schedules[..i + 1], day) <==>
                || IsFree(leave.schedules[..i], day)
                || (leave.schedules[i].on == day && IsNonWorking(leave.schedules[i].dayType))
      {
        FreeOneMore(leave.schedules, i, day);
      }
    }
    assert leave.schedules[..|leave.schedules|] == leave.schedules;
    dates := [];
    hide IsFree;
    for n := 0 to Length(leave)
      invariant dates == DaysTaken(leave, n)
    {
      if leave.first + n !in nonWorking { dates := dates + [leave.first + n]; }
    }
  }

  lemma FreeOneMore(schedules: seq<Schedule>, i: nat, day: int)
    requires i < |schedules|
    ensures IsFree(schedules[..i + 1], day) <==>
            IsFree(schedules[..i], day) || (schedules[i].on == day && IsNonWorking(schedules[i].dayType))
  {
    var longer, shorter := schedules[..i + 1], schedules[..i];
    assert forall k :: 0 <= k < i ==> longer[k] == shorter[k];
    assert longer[i] == schedules[i];
  }

  function ConsumptionsOn(dates: seq<int>, minutes: int): seq<Consumption> {
    seq(|dates|, i requires 0 <= i < |dates| => Consumption(minutes, dates[i]))
  }

  // ---------------------------------------------------------------------------
  // Reading, checking and appending under the employee's lock
  // ---------------------------------------------------------------------------

  datatype Request = Request(id: nat, leave: Leave)

  /** A transaction that holds the lock: what it read, what it means to take, the rows that will say so, and the request
      they belong to, if they do. */
  datatype Work = Work(read: seq<Entry>, consumptions: seq<Consumption>, rows: seq<Entry>, request: Option<Request>)

  /** One employee's rows of one leave type and the approved leave requests. */
  datatype System = System(entries: seq<Entry>, holder: Option<Work>, approved: map<nat, Leave>)

  datatype Step =
    | AddGrant(e: Entry)
    | BeginApproval(request: Request, minutes: int, rows: seq<Entry>)
    | BeginAdjustment(row: Entry)
    | Commit
    | Abort

  /** The check as it is written, or one that looks at every day on which the balance can fall. */
  datatype Check = AsWritten | OnEveryMove

  predicate AreOf(rows: seq<Entry>, owner: Option<Request>) {
    forall i :: 0 <= i < |rows| ==> rows[i].request == match owner case Some(r) => Some(r.id) case None => None
  }

  ghost predicate Passes(check: Check, w: Work) {
    w.consumptions == [] ||
    match check
    case AsWritten => PassesTheCheck(w.read + Placeholders(w.consumptions), Earliest(w.consumptions))
    case OnEveryMove => PassesOnEveryMove(w.read + Placeholders(w.consumptions), Earliest(w.consumptions))
  }

  /** Grants and adjustments upwards take no lock; approvals and adjustments downwards lock, read and then decide.
      A transaction that does not commit leaves nothing. */
  ghost predicate Enabled(check: Check, s: System, step: Step) {
    match step
    case AddGrant(e) => IsPlain(e) && IsIncrease(e) && e.request == None && DistinctRows(s.entries + [e])
    case BeginApproval(request, minutes, rows) =>
      && s.holder == None && request.id !in s.approved && AreOf(rows, Some(request))
      && AreRowsFor(rows, ConsumptionsOn(LeaveDates(request.leave), minutes))
    case BeginAdjustment(row) =>
      s.holder == None && AreOf([row], None) && AreRowsFor([row], [Consumption(-row.minutes, row.on)])
    case Commit => s.holder.Some? && Passes(check, s.holder.value) && DistinctRows(s.entries + s.holder.value.rows)
    case Abort => s.holder.Some?
  }

  function Begun(s: System, step: Step): Work
    requires step.BeginApproval? || step.BeginAdjustment?
  {
    match step
    case BeginApproval(request, minutes, rows) =>
      Work(s.entries, ConsumptionsOn(LeaveDates(request.leave), minutes), rows, Some(request))
    case BeginAdjustment(row) => Work(s.entries, [Consumption(-row.minutes, row.on)], [row], None)
  }

  function Next(s: System, step: Step): System
    requires step.Commit? ==> s.holder.Some?
  {
    match step
    case AddGrant(e) => s.(entries := s.entries + [e])
    case BeginApproval(_, _, _) => s.(holder := Some(Begun(s, step)))
    case BeginAdjustment(_) => s.(holder := Some(Begun(s, step)))
    case Commit =>
      var w := s.holder.value;
      System(
        s.entries + w.rows, None,
        if w.request == None then s.approved else s.approved[w.request.value.id := w.request.value.leave])
    case Abort => s.(holder := None)
  }

  /** The days an approved request took, in the order of its rows. */
  function DatesTaken(entries: seq<Entry>, request: nat): seq<int> {
    if entries == [] then []
    else
      DatesTaken(entries[..|entries| - 1], request)
      + if entries[|entries| - 1].request == Some(request) then [entries[|entries| - 1].on] else []
  }

  predicate TakesTheDaysOf(rows: seq<Entry>, owner: Option<Request>) {
    owner.Some? ==>
      var days := LeaveDates(owner.value.leave);
      |rows| == |days| && forall i :: 0 <= i < |rows| ==> rows[i].on == days[i]
  }

  /** The holder's reading is the ledger but for grants that came in since. */
  ghost predicate ReadingIsRecent(s: System) {
    s.holder.Some? ==>
      var w := s.holder.value;
      && w.read <= s.entries
      && AreGrants(s.entries[|w.read|..])
      && AreRowsFor(w.rows, w.consumptions)
      && AreOf(w.rows, w.request) && TakesTheDaysOf(w.rows, w.request)
      && (w.request.Some? ==> w.request.value.id !in s.approved)
  }

  ghost predicate RequestsFollowTheLedger(s: System) {
    forall r :: DatesTaken(s.entries, r) == if r in s.approved then LeaveDates(s.approved[r]) else []
  }

  ghost predicate Inv(s: System) {
    AllPlain(s.entries) && ReadingIsRecent(s) && RequestsFollowTheLedger(s)
  }

  /** Neither the ledger nor the holder's reading is negative on any date. */
  ghost predicate IsUp(s: System) {
    NeverNegative(s.entries) && (s.holder.Some? ==> NeverNegative(s.holder.value.read))
  }

  /** What the holder's commit leaves is not negative on the days after an expiry, from the earliest day it takes on. */
  ghost predicate CommitStaysUp(s: System)
    requires s.holder.Some?
  {
    var w := s.holder.value;
    w.consumptions != [] ==> StaysUpAfterExpiries(s.entries + w.rows, Earliest(w.consumptions))
  }

  /** Among the rows the holder would leave, those of a day that add come first. */
  ghost predicate OrderIsKind(s: System)
    requires s.holder.Some?
  {
    IncreasesComeFirst(Sorted(s.holder.value.read + s.holder.value.rows))
  }

  lemma {:induction false} EarliestIsEarliest(consumptions: seq<Consumption>)
    requires consumptions != []
    ensures forall i :: 0 <= i < |consumptions| ==> Earliest(consumptions) <= consumptions[i].on
  {
    if |consumptions| > 1 { EarliestIsEarliest(consumptions[..|consumptions| - 1]); }
  }

  /** The reading, what came in since, and the rows that were checked against the reading. */
  predicate IsRecent(read: seq<Entry>, entries: seq<Entry>, rows: seq<Entry>, consumptions: seq<Consumption>) {
    && AllPlain(entries) && read <= entries && AreGrants(entries[|read|..])
    && AreRowsFor(rows, consumptions) && DistinctRows(entries + rows)
  }

  lemma RecentIsPlain(read: seq<Entry>, entries: seq<Entry>, rows: seq<Entry>, consumptions: seq<Consumption>)
    requires IsRecent(read, entries, rows, consumptions)
    ensures AllPlain(read) && AllPlain(rows) && AllPlain(Placeholders(consumptions))
    ensures read + entries[|read|..] == entries
  {
    PlaceholdersArePlain(rows, consumptions);
    hide IsPlain, IsIncrease, DistinctRows, AreRowsFor, Placeholders;
    forall i | 0 <= i < |read| ensures IsPlain(read[i]) { assert read[i] == entries[i]; }
  }

  /** No date has less than the check saw, nor less than the reading with the rows. */
  lemma RecentIsNoLess(
      read: seq<Entry>, entries: seq<Entry>, rows: seq<Entry>, consumptions: seq<Consumption>, asOf: int)
    requires IsRecent(read, entries, rows, consumptions)
    ensures Available(read + Placeholders(consumptions), asOf) <= Available(read + rows, asOf)
    ensures Available(read + rows, asOf) <= Available(entries + rows, asOf)
  {
    RecentIsPlain(read, entries, rows, consumptions);
    hide Available, IsPlain, IsIncrease, Placeholders, AreRowsFor, DistinctRows, AllPlain, AreGrants;
    GrantsMayComeBetween(read, entries[|read|..], rows, asOf);
    PlaceholdersAreTheWorstCase(read, rows, consumptions, asOf);
  }

  /** What passed on every move is negative on no date, whatever ids its rows get. */
  lemma PassedOnEveryMoveStaysUp(
      read: seq<Entry>, entries: seq<Entry>, rows: seq<Entry>, consumptions: seq<Consumption>)
    requires IsRecent(read, entries, rows, consumptions) && NeverNegative(read) && consumptions != []
    requires PassesOnEveryMove(read + Placeholders(consumptions), Earliest(consumptions))
    ensures NeverNegative(entries + rows)
  {
    EarliestIsEarliest(consumptions);
    RecentIsPlain(read, entries, rows, consumptions);
    var checked := Placeholders(consumptions);
    assert forall i :: 0 <= i < |checked| ==> Earliest(consumptions) <= checked[i].on;
    hide Available, IsRecent, AllPlain, PassesOnEveryMove, Earliest, Placeholders;
    NeverNegativeIff(read, checked, Earliest(consumptions));
    forall asOf ensures 0 <= Available(entries + rows, asOf) {
      RecentIsNoLess(read, entries, rows, consumptions, asOf);
      assert 0 <= Available(read + checked, asOf);
    }
  }

  /** When the rows of a day that add come first, the dates of rows are enough. */
  lemma InOrderTheCheckIsEnough(
      read: seq<Entry>, entries: seq<Entry>, rows: seq<Entry>, consumptions: seq<Consumption>)
    requires IsRecent(read, entries, rows, consumptions) && NeverNegative(read) && consumptions != []
    requires PassesTheCheck(read + Placeholders(consumptions), Earliest(consumptions))
    requires IncreasesComeFirst(Sorted(read + rows))
    ensures NeverNegative(entries + rows)
  {
    EarliestIsEarliest(consumptions);
    RecentIsPlain(read, entries, rows, consumptions);
    RowsPassToo(read, entries, rows, consumptions);
    var earliest := Earliest(consumptions);
    assert forall i :: 0 <= i < |rows| ==> earliest <= rows[i].on;
    hide Available, IsRecent, AllPlain, PassesTheCheck, Earliest, Placeholders, IncreasesComeFirst, Sorted, IsSolvent;
    AcceptedRowsStaySolvent(read, rows, earliest);
    assert AllPlain(read + rows) by { BothArePlain(read, rows); }
    SolventMeansNeverNegative(read + rows);
    forall asOf ensures 0 <= Available(entries + rows, asOf) {
      RecentIsNoLess(read, entries, rows, consumptions, asOf);
      assert 0 <= Available(read + rows, asOf);
    }
  }

  lemma BothArePlain(a: seq<Entry>, b: seq<Entry>)
    requires AllPlain(a) && AllPlain(b)
    ensures AllPlain(a + b)
  {
    hide IsPlain;
  }

  /** The rows pass where their placeholders did. */
  lemma RowsPassToo(read: seq<Entry>, entries: seq<Entry>, rows: seq<Entry>, consumptions: seq<Consumption>)
    requires IsRecent(read, entries, rows, consumptions) && consumptions != []
    requires PassesTheCheck(read + Placeholders(consumptions), Earliest(consumptions))
    ensures PassesTheCheck(read + rows, Earliest(consumptions))
  {
    var earliest, checked, all := Earliest(consumptions), read + Placeholders(consumptions), read + rows;
    hide Available, IsPlain, IsIncrease, Earliest, DistinctRows, AllPlain;
    forall i | 0 <= i < |all| && earliest <= all[i].on ensures 0 <= Available(all, all[i].on) {
      assert checked[i].on == all[i].on;
      RecentIsNoLess(read, entries, rows, consumptions, all[i].on);
    }
  }

  lemma GrantsDoNotTake(entries: seq<Entry>, n: nat)
    requires n <= |entries| && AreGrants(entries[n..])
    ensures forall i :: n <= i < |entries| ==> IsIncrease(entries[i])
  {
    forall i | n <= i < |entries| ensures IsIncrease(entries[i]) { assert entries[i] == entries[n..][i - n]; }
  }

  /** A day on which something is taken is a date the check looked at. */
  lemma TakingDaysWereChecked(
      read: seq<Entry>, entries: seq<Entry>, rows: seq<Entry>, consumptions: seq<Consumption>, day: int)
    requires IsRecent(read, entries, rows, consumptions) && consumptions != []
    requires PassesTheCheck(read + Placeholders(consumptions), Earliest(consumptions))
    requires Earliest(consumptions) <= day && TakesOn(entries + rows, day)
    ensures 0 <= Available(entries + rows, day)
  {
    var checked, all := read + Placeholders(consumptions), entries + rows;
    GrantsDoNotTake(entries, |read|);
    var i :| 0 <= i < |all| && !IsIncrease(all[i]) && all[i].on == day;
    hide Available, IsPlain, IsIncrease, Earliest, TakesOn, DistinctRows, AllPlain, AreGrants;
    if i < |read| {
      assert checked[i] == entries[i];
    } else {
      assert |entries| <= i;
      assert checked[|read| + i - |entries|].on == day;
    }
    RecentIsNoLess(read, entries, rows, consumptions, day);
  }

  /** What passed the check as it is written leaves a balance negative on no date if and only if none is negative on the
      days after an expiry. */
  lemma AcceptedIsNeverNegativeIff(
      read: seq<Entry>, entries: seq<Entry>, rows: seq<Entry>, consumptions: seq<Consumption>)
    requires IsRecent(read, entries, rows, consumptions) && NeverNegative(entries) && consumptions != []
    requires PassesTheCheck(read + Placeholders(consumptions), Earliest(consumptions))
    ensures NeverNegative(entries + rows) <==> StaysUpAfterExpiries(entries + rows, Earliest(consumptions))
  {
    var all, earliest := entries + rows, Earliest(consumptions);
    EarliestIsEarliest(consumptions);
    RecentIsPlain(read, entries, rows, consumptions);
    assert AllPlain(entries);
    assert forall i :: 0 <= i < |rows| ==> earliest <= rows[i].on;
    hide Available, IsRecent, AllPlain, PassesTheCheck, Earliest, Placeholders, TakesOn, ExpiresBefore;
    NeverNegativeIff(entries, rows, earliest);
    forall day | earliest <= day && TakesOn(all, day) ensures 0 <= Available(all, day) {
      TakingDaysWereChecked(read, entries, rows, consumptions, day);
    }
  }

  /** The holder's reading is recent once its rows have ids that are new. */
  lemma HolderIsRecent(s: System)
    requires Inv(s) && s.holder.Some? && DistinctRows(s.entries + s.holder.value.rows)
    ensures var w := s.holder.value; IsRecent(w.read, s.entries, w.rows, w.consumptions)
  {
    hide AllPlain, AreGrants, AreRowsFor, DistinctRows, DatesTaken;
  }

  lemma NothingTaken(s: System)
    requires Inv(s) && s.holder.Some? && s.holder.value.consumptions == []
    ensures Next(s, Commit).entries == s.entries
  {
    assert s.holder.value.rows == [];
  }

  /** A commit that passed the check as it is written keeps every date up if and only if it stays up after expiries. */
  lemma CommitIsNeverNegativeIff(s: System)
    requires Inv(s) && IsUp(s) && Enabled(AsWritten, s, Commit)
    ensures NeverNegative(Next(s, Commit).entries) <==> CommitStaysUp(s)
  {
    var w := s.holder.value;
    HolderIsRecent(s);
    if w.consumptions == [] { NothingTaken(s); }
    hide Inv, IsRecent, NeverNegative, PassesTheCheck, StaysUpAfterExpiries, DistinctRows, Earliest;
    if w.consumptions != [] { AcceptedIsNeverNegativeIff(w.read, s.entries, w.rows, w.consumptions); }
  }

  lemma CommitOnEveryMoveStaysUp(s: System)
    requires Inv(s) && IsUp(s) && Enabled(OnEveryMove, s, Commit)
    ensures NeverNegative(Next(s, Commit).entries)
  {
    var w := s.holder.value;
    HolderIsRecent(s);
    if w.consumptions == [] { NothingTaken(s); }
    hide Inv, IsRecent, NeverNegative, PassesOnEveryMove, DistinctRows, Earliest;
    if w.consumptions != [] { PassedOnEveryMoveStaysUp(w.read, s.entries, w.rows, w.consumptions); }
  }

  /** When the rows of a day that add come first, what passed the check as it is written stays up. */
  lemma CommitInOrderStaysUp(s: System)
    requires Inv(s) && IsUp(s) && Enabled(AsWritten, s, Commit) && OrderIsKind(s)
    ensures NeverNegative(Next(s, Commit).entries)
  {
    var w := s.holder.value;
    HolderIsRecent(s);
    if w.consumptions == [] { NothingTaken(s); }
    hide Inv, IsRecent, NeverNegative, PassesTheCheck, DistinctRows, Earliest, IncreasesComeFirst, Sorted;
    if w.consumptions != [] { InOrderTheCheckIsEnough(w.read, s.entries, w.rows, w.consumptions); }
  }

  lemma {:induction false} DatesTakenAfter(
      entries: seq<Entry>, rows: seq<Entry>, dates: seq<int>, owner: Option<nat>, r: nat)
    requires forall i :: 0 <= i < |rows| ==> rows[i].request == owner
    requires owner.Some? ==> |rows| == |dates| && forall i :: 0 <= i < |rows| ==> rows[i].on == dates[i]
    ensures DatesTaken(entries + rows, r) == DatesTaken(entries, r) + if owner == Some(r) then dates else []
  {
    if rows == [] {
      assert entries + [] == entries;
    } else {
      var n := |rows| - 1;
      DatesTakenAfter(entries, rows[..n], if owner.Some? then dates[..n] else dates, owner, r);
      assert (entries + rows)[..|entries + rows| - 1] == entries + rows[..n];
      assert owner.Some? ==> dates == dates[..n] + [dates[n]];
    }
  }

  lemma SuffixOneMore(entries: seq<Entry>, e: Entry, n: nat)
    requires n <= |entries|
    ensures (entries + [e])[n..] == entries[n..] + [e]
  {
  }

  lemma AddGrantKeepsInv(s: System, e: Entry)
    requires Inv(s) && Enabled(AsWritten, s, AddGrant(e))
    ensures Inv(Next(s, AddGrant(e)))
  {
    var s' := Next(s, AddGrant(e));
    hide IsPlain, IsIncrease, DatesTaken, DistinctRows, AreRowsFor, AreOf, TakesTheDaysOf, LeaveDates;
    forall r ensures DatesTaken(s'.entries, r) == DatesTaken(s.entries, r) {
      DatesTakenAfter(s.entries, [e], [], None, r);
    }
    if s.holder.Some? {
      SuffixOneMore(s.entries, e, |s.holder.value.read|);
    }
  }

  lemma BeginKeepsInv(s: System, step: Step)
    requires Inv(s) && (step.BeginApproval? || step.BeginAdjustment?) && Enabled(AsWritten, s, step)
    ensures Inv(Next(s, step))
  {
    hide DatesTaken, IsIncrease, IsPlain, LeaveDates;
    var w := Begun(s, step);
    assert s.entries[|w.read|..] == [];
  }

  lemma CommitKeepsInv(s: System)
    requires Inv(s) && s.holder.Some?
    ensures Inv(Next(s, Commit))
  {
    CommitTakesTheDates(s);
    PlaceholdersArePlain(s.holder.value.rows, s.holder.value.consumptions);
    hide IsPlain, IsIncrease, RequestsFollowTheLedger;
  }

  lemma DatesTakenBy(entries: seq<Entry>, rows: seq<Entry>, owner: Option<Request>, r: nat)
    requires AreOf(rows, owner) && TakesTheDaysOf(rows, owner)
    ensures DatesTaken(entries + rows, r) ==
            DatesTaken(entries, r) + if owner.Some? && owner.value.id == r then LeaveDates(owner.value.leave) else []
  {
    var id := match owner case Some(o) => Some(o.id) case None => None;
    DatesTakenAfter(entries, rows, if owner.Some? then LeaveDates(owner.value.leave) else [], id, r);
    hide DatesTaken, LeaveDates;
  }

  lemma CommitTakesTheDates(s: System)
    requires ReadingIsRecent(s) && RequestsFollowTheLedger(s) && s.holder.Some?
    ensures RequestsFollowTheLedger(Next(s, Commit))
  {
    hide DatesTaken, AreGrants, LeaveDates, AreRowsFor, AreOf, TakesTheDaysOf;
    var s', w := Next(s, Commit), s.holder.value;
    assert AreOf(w.rows, w.request) && TakesTheDaysOf(w.rows, w.request);
    assert w.request.Some? ==> w.request.value.id !in s.approved;
    hide ReadingIsRecent;
    forall r ensures DatesTaken(s'.entries, r) == if r in s'.approved then LeaveDates(s'.approved[r]) else [] {
      DatesTakenBy(s.entries, w.rows, w.request, r);
    }
  }

  lemma StepKeepsInv(check: Check, s: System, step: Step)
    requires Inv(s) && Enabled(check, s, step)
    ensures Inv(Next(s, step))
  {
    hide Passes, Begun, LeaveDates, DatesTaken, IsPlain;
    if step == Abort { assert Inv(Next(s, step)); }
    hide Inv;
    match step {
      case AddGrant(e) => AddGrantKeepsInv(s, e);
      case BeginApproval(_, _, _) => BeginKeepsInv(s, step);
      case BeginAdjustment(_) => BeginKeepsInv(s, step);
      case Commit => CommitKeepsInv(s);
      case Abort =>
    }
  }

  /** A step takes no balance below zero: always with a check of every move; with the check as it is written unless it
      is a commit that falls below zero after an expiry. */
  lemma StepStaysUp(check: Check, s: System, step: Step)
    requires Inv(s) && IsUp(s) && Enabled(check, s, step)
    requires check.AsWritten? && step.Commit? ==> CommitStaysUp(s)
    ensures IsUp(Next(s, step))
  {
    hide Available, IsPlain, IsIncrease, ReadingIsRecent, RequestsFollowTheLedger, DistinctRows, CommitStaysUp,
      AreRowsFor;
    match step {
      case AddGrant(e) =>
        forall asOf ensures 0 <= Available(s.entries + [e], asOf) {
          AddingAGrantNeverLowersABalance(s.entries, e, asOf);
        }
      case BeginApproval(_, _, _) =>
      case BeginAdjustment(_) =>
      case Commit =>
        if check == AsWritten { CommitIsNeverNegativeIff(s); } else { CommitOnEveryMoveStaysUp(s); }
      case Abort =>
    }
  }

  ghost predicate IsRun(check: Check, states: seq<System>, steps: seq<Step>) {
    && |states| == |steps| + 1
    && states[0] == System([], None, map[])
    && forall i :: 0 <= i < |steps| ==>
         Enabled(check, states[i], steps[i]) && states[i + 1] == Next(states[i], steps[i])
  }

  lemma {:induction false} RunKeepsInv(check: Check, states: seq<System>, steps: seq<Step>, k: nat)
    requires IsRun(check, states, steps) && k < |states|
    ensures Inv(states[k])
    decreases k
  {
    if k > 0 {
      RunKeepsInv(check, states, steps, k - 1);
      hide Inv, Next, Enabled;
      StepKeepsInv(check, states[k - 1], steps[k - 1]);
    }
  }

  lemma NothingIsUp()
    ensures IsUp(System([], None, map[]))
  {
    hide Available;
    forall asOf ensures 0 <= Available([], asOf) { AvailableIsUsableLessDebt([], asOf); }
  }

  /** The commits of the run stay up, as far as they must to keep the first `k` states up. */
  ghost predicate CommitsStayUp(states: seq<System>, steps: seq<Step>, k: nat) {
    forall i :: 0 <= i < k && i < |steps| && i < |states| && steps[i].Commit? && states[i].holder.Some? ==>
      CommitStaysUp(states[i])
  }

  lemma {:induction false} RunStaysUp(check: Check, states: seq<System>, steps: seq<Step>, k: nat)
    requires IsRun(check, states, steps) && k < |states|
    requires check.AsWritten? ==> CommitsStayUp(states, steps, k)
    ensures IsUp(states[k])
    decreases k
  {
    hide CommitStaysUp, IsUp, Inv, Next;
    if k == 0 {
      NothingIsUp();
    } else {
      RunStaysUp(check, states, steps, k - 1);
      RunKeepsInv(check, states, steps, k - 1);
      assert Enabled(check, states[k - 1], steps[k - 1]);
      assert check.AsWritten? && steps[k - 1].Commit? ==> CommitStaysUp(states[k - 1]);
      hide Enabled;
      StepStaysUp(check, states[k - 1], steps[k - 1]);
    }
  }

  /** With a check that looks at every day on which a balance can fall, no interleaving of grants, adjustments and
      approvals leaves a balance negative on any date. */
  lemma NoBalanceTurnsNegative(states: seq<System>, steps: seq<Step>, k: nat)
    requires IsRun(OnEveryMove, states, steps) && k < |states|
    ensures NeverNegative(states[k].entries)
  {
    RunStaysUp(OnEveryMove, states, steps, k);
    hide NeverNegative, IsRun;
  }

  /** With the check as it is written a run stays up if and only if each of its commits does after expiries. */
  lemma {:induction false} RunStaysUpIff(states: seq<System>, steps: seq<Step>, k: nat)
    requires IsRun(AsWritten, states, steps) && k < |states|
    ensures (forall i :: 0 <= i <= k ==> NeverNegative(states[i].entries)) <==> CommitsStayUp(states, steps, k)
  {
    hide CommitStaysUp, NeverNegative, Inv, Next;
    if CommitsStayUp(states, steps, k) {
      forall i | 0 <= i <= k ensures NeverNegative(states[i].entries) { RunStaysUp(AsWritten, states, steps, i); }
    } else if k > 0 {
      RunStaysUpIff(states, steps, k - 1);
      var s := states[k - 1];
      if CommitsStayUp(states, steps, k - 1) {
        assert steps[k - 1].Commit? && !CommitStaysUp(s);
        RunStaysUp(AsWritten, states, steps, k - 1);
        RunKeepsInv(AsWritten, states, steps, k - 1);
        CommitIsNeverNegativeIff(s);
        assert states[k] == Next(s, Commit);
      }
    }
  }

  /** With the check as it is written a run stays up when at each commit the rows of a day that add come first. */
  lemma {:induction false} RunInOrderStaysUp(states: seq<System>, steps: seq<Step>, k: nat)
    requires IsRun(AsWritten, states, steps) && k < |states|
    requires forall i :: 0 <= i < |steps| && steps[i].Commit? && states[i].holder.Some? ==> OrderIsKind(states[i])
    ensures IsUp(states[k])
    decreases k
  {
    hide OrderIsKind, IsUp, Inv, Next, CommitStaysUp;
    if k == 0 {
      NothingIsUp();
    } else {
      RunInOrderStaysUp(states, steps, k - 1);
      RunKeepsInv(AsWritten, states, steps, k - 1);
      var s := states[k - 1];
      assert Enabled(AsWritten, s, steps[k - 1]);
      if steps[k - 1].Commit? {
        CommitInOrderStaysUp(s);
        CommitIsNeverNegativeIff(s);
      }
      StepStaysUp(AsWritten, s, steps[k - 1]);
    }
  }

  /** Whatever the check, a leave request has the days it takes in the ledger, each once and in order, if it is
      approved, and none otherwise. */
  lemma ApprovedLeaveIsInTheLedger(check: Check, states: seq<System>, steps: seq<Step>, k: nat, r: nat)
    requires IsRun(check, states, steps) && k < |states|
    ensures var dates := DatesTaken(states[k].entries, r);
            && IsAscending(dates)
            && (r !in states[k].approved ==> dates == [])
            && (r in states[k].approved ==> forall day :: day in dates <==>
                  var leave := states[k].approved[r];
                  leave.first <= day <= leave.last && !IsFree(leave.schedules, day))
  {
    RunKeepsInv(check, states, steps, k);
    hide DatesTaken, LeaveDates, IsFree, IsRun;
    if r in states[k].approved { LeaveDatesAre(states[k].approved[r]); }
  }

  /** The rows a call would append. */
  function RowsOf(step: Step): seq<Entry>
    requires step.BeginApproval? || step.BeginAdjustment?
  {
    match step
    case BeginApproval(_, _, rows) => rows
    case BeginAdjustment(row) => [row]
  }

  /** What the calls do when nothing comes between: a grant is appended; an approval or an adjustment downwards commits
      if and only if what it takes passes the check on the ledger as it is, and then all of its rows are appended and
      the approval is recorded; otherwise it leaves nothing. */
  lemma UndisturbedCallIs(check: Check, s: System, step: Step)
    requires Enabled(check, s, step)
    requires step.BeginApproval? || step.BeginAdjustment? ==> DistinctRows(s.entries + RowsOf(step))
    ensures step.AddGrant? ==> Next(s, step) == s.(entries := s.entries + [step.e])
    ensures step.BeginApproval? ==>
              var taken, begun := ConsumptionsOn(LeaveDates(step.request.leave), step.minutes), Next(s, step);
              var approved := s.approved[step.request.id := step.request.leave];
              && (Enabled(check, begun, Commit) <==> Passes(check, Work(s.entries, taken, [], None)))
              && (Enabled(check, begun, Commit) ==>
                    Next(begun, Commit) == System(s.entries + step.rows, None, approved))
              && Enabled(check, begun, Abort) && Next(begun, Abort) == s
    ensures step.BeginAdjustment? ==>
              var taken, begun := [Consumption(-step.row.minutes, step.row.on)], Next(s, step);
              && (Enabled(check, begun, Commit) <==> Passes(check, Work(s.entries, taken, [], None)))
              && (Enabled(check, begun, Commit) ==> Next(begun, Commit) == s.(entries := s.entries + [step.row]))
              && Enabled(check, begun, Abort) && Next(begun, Abort) == s
  {
    hide PassesTheCheck, PassesOnEveryMove, Placeholders, Earliest, DistinctRows, LeaveDates, AreRowsFor;
  }
}
