/** Punches, their append-only corrections, and the punches that are in effect.

    A correction never changes a stored row: it is a new row that names its
    target. Row ids are insertion numbers, so a row can only name an older one. */
module Corrections {
  import opened Wrappers

  datatype EventType = ClockIn | ClockOut | BreakStart | BreakEnd

  datatype Action = Adjust | Void | Add

  datatype Punch = Punch(
    id: nat,
    eventType: EventType,
    occurredAt: int,
    action: Option<Action>,
    corrects: Option<nat>,
    recordedAt: int)

  datatype EffectiveEvent = EffectiveEvent(
    id: nat,
    origin: nat,
    eventType: EventType,
    occurredAt: int,
    corrected: bool)

  predicate IsClock(t: EventType) { t == ClockIn || t == ClockOut }

  predicate IsRoot(p: Punch) { p.action == None || p.action == Some(Add) }

  predicate Targets(p: Punch, target: nat) {
    !IsRoot(p) && p.corrects == Some(target)
  }

  function Ids(records: seq<Punch>): set<nat> {
    set p | p in records :: p.id
  }

  /** What the table's constraints guarantee about the rows of one day. */
  ghost predicate WellFormed(records: seq<Punch>) {
    && (forall i, j :: 0 <= i < j < |records| ==> records[i].id != records[j].id)
    && (forall p :: p in records && p.corrects.Some? ==> p.corrects.value < p.id)
  }

  // ---------------------------------------------------------------------------
  // The specification: which correction wins, where a chain ends, what is left
  // ---------------------------------------------------------------------------

  /** The correction that wins for a target: the latest recorded, and of equals the last listed. */
  function CorrectionOf(records: seq<Punch>, target: nat): Option<Punch> {
    if records == [] then None
    else
      var earlier := CorrectionOf(records[..|records| - 1], target);
      var last := records[|records| - 1];
      if Targets(last, target) && (earlier == None || earlier.value.recordedAt <= last.recordedAt)
      then Some(last)
      else earlier
  }

  lemma {:induction false} CorrectionIsARow(records: seq<Punch>, target: nat)
    ensures CorrectionOf(records, target).Some? ==>
              && CorrectionOf(records, target).value in records
              && Targets(CorrectionOf(records, target).value, target)
    ensures (exists p :: p in records && Targets(p, target)) ==> CorrectionOf(records, target).Some?
  {
    if records != [] {
      var init := records[..|records| - 1];
      CorrectionIsARow(init, target);
      forall p | p in records && Targets(p, target)
        ensures CorrectionOf(records, target).Some?
      {
        if p != records[|records| - 1] { assert p in init; }
      }
    }
  }

  /** The `m`-th row corrects the target, later than any other that does, or as late and listed behind. */
  predicate IsLatestAt(records: seq<Punch>, target: nat, m: nat) {
    && m < |records| && Targets(records[m], target)
    && forall i :: 0 <= i < |records| && Targets(records[i], target) ==>
         records[i].recordedAt < records[m].recordedAt || (records[i].recordedAt == records[m].recordedAt && i <= m)
  }

  lemma {:induction false} NothingCorrects(records: seq<Punch>, target: nat)
    ensures CorrectionOf(records, target) == None <==> forall i :: 0 <= i < |records| ==> !Targets(records[i], target)
  {
    if records != [] {
      var init := records[..|records| - 1];
      NothingCorrects(init, target);
      assert forall i :: 0 <= i < |init| ==> init[i] == records[i];
    }
  }

  lemma {:induction false} LatestWins(records: seq<Punch>, target: nat, m: nat)
    requires IsLatestAt(records, target, m)
    ensures CorrectionOf(records, target) == Some(records[m])
  {
    var n := |records| - 1;
    var init := records[..n];
    if m < n {
      LatestWins(init, target, m);
    } else {
      CorrectionIsARow(init, target);
      hide Targets;
      if CorrectionOf(init, target).Some? {
        var i :| 0 <= i < n && init[i] == CorrectionOf(init, target).value;
        assert records[i] == init[i];
      }
    }
  }

  lemma {:induction false} SomethingIsLatest(records: seq<Punch>, target: nat, k: nat) returns (m: nat)
    requires k < |records| && Targets(records[k], target)
    ensures IsLatestAt(records, target, m)
  {
    var n := |records| - 1;
    var init, last := records[..n], records[n];
    hide Targets;
    assert forall i :: 0 <= i < n ==> init[i] == records[i];
    if i :| 0 <= i < n && Targets(init[i], target) {
      m := SomethingIsLatest(init, target, i);
      if Targets(last, target) && records[m].recordedAt <= last.recordedAt { m := n; }
    } else {
      m := n;
    }
  }

  /** The correction that wins is the one of the greatest time of recording, the last listed among equals. */
  lemma CorrectionIsTheLatest(records: seq<Punch>, target: nat)
    ensures CorrectionOf(records, target) == None <==> forall i :: 0 <= i < |records| ==> !Targets(records[i], target)
    ensures forall m: nat :: IsLatestAt(records, target, m) ==> CorrectionOf(records, target) == Some(records[m])
    ensures CorrectionOf(records, target).Some? ==> exists m: nat :: IsLatestAt(records, target, m)
  {
    NothingCorrects(records, target);
    hide CorrectionOf, Targets;
    forall m: nat | IsLatestAt(records, target, m)
      ensures m < |records| && CorrectionOf(records, target) == Some(records[m])
    {
      LatestWins(records, target, m);
    }
    if CorrectionOf(records, target).Some? {
      var k :| 0 <= k < |records| && Targets(records[k], target);
      var m := SomethingIsLatest(records, target, k);
    }
  }

  /** The end of the chain of corrections that starts at `current`; a cycle is cut where it closes. */
  function Follow(records: seq<Punch>, current: Punch, visited: set<nat>): Punch
    decreases Ids(records) - visited
  {
    var c := CorrectionOf(records, current.id);
    if c == None || c.value.id in visited then current
    else
      CorrectionIsARow(records, current.id);
      assert c.value.id in Ids(records);
      assert Ids(records) - (visited + {c.value.id}) < Ids(records) - visited;
      if c.value.action == Some(Void) then c.value
      else Follow(records, c.value, visited + {c.value.id})
  }

  function Resolve(records: seq<Punch>, root: Punch): Option<EffectiveEvent> {
    var end := Follow(records, root, {root.id});
    if end.action == Some(Void) then None
    else if end.corrects.Some? && end.corrects.value !in Ids(records) then None
    else Some(EffectiveEvent(end.id, root.id, end.eventType, end.occurredAt, end.id != root.id))
  }

  function ResolveRoots(records: seq<Punch>, among: seq<Punch>): seq<EffectiveEvent> {
    if among == [] then []
    else
      var earlier := ResolveRoots(records, among[..|among| - 1]);
      var last := among[|among| - 1];
      if IsRoot(last) && Resolve(records, last).Some?
      then earlier + [Resolve(records, last).value]
      else earlier
  }

  /** Insertion after equals: the stable order of JavaScript's sort. */
  function InsertByTime(sorted: seq<EffectiveEvent>, e: EffectiveEvent): seq<EffectiveEvent> {
    if sorted == [] || sorted[|sorted| - 1].occurredAt <= e.occurredAt then sorted + [e]
    else InsertByTime(sorted[..|sorted| - 1], e) + [sorted[|sorted| - 1]]
  }

  function SortByTime(events: seq<EffectiveEvent>): seq<EffectiveEvent> {
    if events == [] then []
    else InsertByTime(SortByTime(events[..|events| - 1]), events[|events| - 1])
  }

  function EffectiveEvents(records: seq<Punch>): seq<EffectiveEvent> {
    SortByTime(ResolveRoots(records, records))
  }

  predicate InTimeOrder(events: seq<EffectiveEvent>) {
    forall i, j :: 0 <= i < j < |events| ==> events[i].occurredAt <= events[j].occurredAt
  }

  lemma {:induction false} InsertKeepsElements(sorted: seq<EffectiveEvent>, e: EffectiveEvent)
    ensures multiset(InsertByTime(sorted, e)) == multiset(sorted) + multiset{e}
  {
    if sorted == [] || sorted[|sorted| - 1].occurredAt <= e.occurredAt {
    } else {
      var init, last := sorted[..|sorted| - 1], sorted[|sorted| - 1];
      assert sorted == init + [last];
      InsertKeepsElements(init, e);
    }
  }

  lemma {:induction false} InsertStaysUpTo(sorted: seq<EffectiveEvent>, e: EffectiveEvent, at: int)
    requires e.occurredAt <= at && forall i :: 0 <= i < |sorted| ==> sorted[i].occurredAt <= at
    ensures forall i :: 0 <= i < |InsertByTime(sorted, e)| ==> InsertByTime(sorted, e)[i].occurredAt <= at
  {
    if sorted == [] || sorted[|sorted| - 1].occurredAt <= e.occurredAt {
    } else {
      InsertStaysUpTo(sorted[..|sorted| - 1], e, at);
    }
  }

  lemma {:induction false} InsertKeepsOrder(sorted: seq<EffectiveEvent>, e: EffectiveEvent)
    requires InTimeOrder(sorted)
    ensures InTimeOrder(InsertByTime(sorted, e))
  {
    if sorted == [] || sorted[|sorted| - 1].occurredAt <= e.occurredAt {
    } else {
      var init, last := sorted[..|sorted| - 1], sorted[|sorted| - 1];
      InsertKeepsOrder(init, e);
      InsertStaysUpTo(init, e, last.occurredAt);
    }
  }

  /** Sorting changes the order and nothing else. */
  lemma {:induction false} SortIsAPermutation(events: seq<EffectiveEvent>)
    ensures InTimeOrder(SortByTime(events))
    ensures multiset(SortByTime(events)) == multiset(events)
  {
    if events != [] {
      var init, last := events[..|events| - 1], events[|events| - 1];
      SortIsAPermutation(init);
      hide InsertByTime, InTimeOrder;
      InsertKeepsOrder(SortByTime(init), last);
      InsertKeepsElements(SortByTime(init), last);
      assert events == init + [last];
    }
  }

  // ---------------------------------------------------------------------------
  // The procedure of the source, step by step
  // ---------------------------------------------------------------------------

  method IndexCorrections(records: seq<Punch>) returns (byTarget: map<nat, Punch>)
    ensures forall t: nat :: CorrectionOf(records, t) == if t in byTarget then Some(byTarget[t]) else None
  {
    byTarget := map[];
    for i := 0 to |records|
      invariant forall t: nat ::
          CorrectionOf(records[..i], t) == if t in byTarget then Some(byTarget[t]) else None
    {
      var record := records[i];
      assert records[..i + 1][..i] == records[..i];
      if IsRoot(record) || record.corrects == None { continue; }
      var target := record.corrects.value;
      if target !in byTarget || byTarget[target].recordedAt <= record.recordedAt {
        byTarget := byTarget[target := record];
      }
    }
    assert records[..|records|] == records;
  }

  /** Walks every chain to its end, then sorts by the time of the punch. */
  method ResolveEffectiveEvents(records: seq<Punch>) returns (effective: seq<EffectiveEvent>)
    ensures effective == EffectiveEvents(records)
    ensures InTimeOrder(effective)
  {
    var byTarget := IndexCorrections(records);
    effective := [];
    for i := 0 to |records|
      invariant effective == ResolveRoots(records, records[..i])
    {
      assert records[..i + 1][..i] == records[..i];
      var root := records[i];
      if !IsRoot(root) { continue; }
      var current, corrected, visited := root, false, {root.id};
      while current.id in byTarget && byTarget[current.id].id !in visited
        invariant visited >= {root.id, current.id}
        invariant corrected <==> current.id != root.id
        invariant current.action == Some(Void) ==> corrected
        invariant current.action != Some(Void) ==>
                    Follow(records, root, {root.id}) == Follow(records, current, visited)
        invariant current.action != Some(Void) || Follow(records, root, {root.id}) == current
        decreases current.action != Some(Void), Ids(records) - visited
      {
        if current.action == Some(Void) { break; }
        var correction := byTarget[current.id];
        CorrectionIsARow(records, current.id);
        assert correction.id in Ids(records);
        assert Ids(records) - (visited + {correction.id}) < Ids(records) - visited;
        visited := visited + {correction.id};
        corrected := true;
        current := correction;
      }
      assert Follow(records, root, {root.id}) == current;
      if current.action == Some(Void) { continue; }
      if current.corrects.Some? && current.corrects.value !in Ids(records) { continue; }
      effective := effective
        + [EffectiveEvent(current.id, root.id, current.eventType, current.occurredAt, corrected)];
    }
    assert records[..|records|] == records;
    SortIsAPermutation(effective);
    effective := SortByTime(effective);
  }

  // ---------------------------------------------------------------------------
  // An approved punch correction
  // ---------------------------------------------------------------------------

  function OnlyClocks(events: seq<EffectiveEvent>): seq<EffectiveEvent> {
    if events == [] then []
    else
      OnlyClocks(events[..|events| - 1])
      + if IsClock(events[|events| - 1].eventType) then [events[|events| - 1]] else []
  }

  function OnlyBreaks(events: seq<EffectiveEvent>): seq<EffectiveEvent> {
    if events == [] then []
    else
      OnlyBreaks(events[..|events| - 1])
      + if IsClock(events[|events| - 1].eventType) then [] else [events[|events| - 1]]
  }

  /** One row that voids each event, numbered from `firstId`. */
  function VoidRows(clocks: seq<EffectiveEvent>, firstId: nat, recordedAt: int): seq<Punch> {
    seq(|clocks|, i requires 0 <= i < |clocks| =>
      Punch(firstId + i, clocks[i].eventType, clocks[i].occurredAt, Some(Void), Some(clocks[i].id), recordedAt))
  }

  function AddRow(id: nat, t: EventType, at: int, recordedAt: int): Punch {
    Punch(id, t, at, Some(Add), None, recordedAt)
  }

  function RewriteRowsOf(
    clocks: seq<EffectiveEvent>, clockIn: int, clockOut: int, firstId: nat, recordedAt: int): seq<Punch>
  {
    var n := firstId + |clocks|;
    VoidRows(clocks, firstId, recordedAt)
    + [AddRow(n, ClockIn, clockIn, recordedAt), AddRow(n + 1, ClockOut, clockOut, recordedAt)]
  }

  /** Every row an approved correction of `history` appends. */
  function RewriteRows(history: seq<Punch>, clockIn: int, clockOut: int, firstId: nat, recordedAt: int): seq<Punch> {
    RewriteRowsOf(OnlyClocks(EffectiveEvents(history)), clockIn, clockOut, firstId, recordedAt)
  }

  /** The punch table of one employee's day, in insertion order. */
  class PunchLog {
    var rows: seq<Punch>
    var nextId: nat

    ghost predicate Valid()
      reads this
    {
      && (forall i, j :: 0 <= i < j < |rows| ==> rows[i].id < rows[j].id)
      && (forall i :: 0 <= i < |rows| ==> rows[i].id < nextId)
      && (forall i :: 0 <= i < |rows| && rows[i].corrects.Some? ==> rows[i].corrects.value < rows[i].id)
    }

    constructor ()
      ensures Valid() && rows == [] && nextId == 0
    {
      rows, nextId := [], 0;
    }

    method Insert(t: EventType, at: int, action: Option<Action>, corrects: Option<nat>, recordedAt: int)
      requires Valid()
      requires corrects.Some? ==> corrects.value < nextId
      modifies this
      ensures Valid()
      ensures rows == old(rows) + [Punch(old(nextId), t, at, action, corrects, recordedAt)]
      ensures nextId == old(nextId) + 1
    {
      rows := rows + [Punch(nextId, t, at, action, corrects, recordedAt)];
      nextId := nextId + 1;
    }

    /** Voids every effective clock punch of `history`, then adds the requested pair. */
    method RewritePunches(history: seq<Punch>, clockIn: int, clockOut: int, recordedAt: int)
      requires Valid()
      requires multiset(history) == multiset(rows)
      modifies this
      ensures Valid()
      ensures rows == old(rows) + RewriteRows(history, clockIn, clockOut, old(nextId), recordedAt)
    {
      var effective := ResolveEffectiveEvents(history);
      EffectiveIdsBelow(history, rows, nextId);
      Rewrite(effective, clockIn, clockOut, recordedAt);
    }

    method Rewrite(effective: seq<EffectiveEvent>, clockIn: int, clockOut: int, recordedAt: int)
      requires Valid()
      requires forall i :: 0 <= i < |effective| ==> effective[i].id < nextId
      modifies this
      ensures Valid()
      ensures rows == old(rows) + RewriteRowsOf(OnlyClocks(effective), clockIn, clockOut, old(nextId), recordedAt)
    {
      VoidClocks(effective, recordedAt);
      ghost var n := nextId;
      AddPair(clockIn, clockOut, recordedAt);
      AppendIsAssociative(old(rows), VoidRows(OnlyClocks(effective), old(nextId), recordedAt),
                          [AddRow(n, ClockIn, clockIn, recordedAt), AddRow(n + 1, ClockOut, clockOut, recordedAt)]);
    }

    method AddPair(clockIn: int, clockOut: int, recordedAt: int)
      requires Valid()
      modifies this
      ensures Valid() && nextId == old(nextId) + 2
      ensures rows == old(rows) + [AddRow(old(nextId), ClockIn, clockIn, recordedAt),
                                   AddRow(old(nextId) + 1, ClockOut, clockOut, recordedAt)]
    {
      Insert(ClockIn, clockIn, Some(Add), None, recordedAt);
      Insert(ClockOut, clockOut, Some(Add), None, recordedAt);
    }

    method VoidClocks(effective: seq<EffectiveEvent>, recordedAt: int)
      requires Valid()
      requires forall i :: 0 <= i < |effective| ==> effective[i].id < nextId
      modifies this
      ensures Valid()
      ensures nextId == old(nextId) + |OnlyClocks(effective)|
      ensures rows == old(rows) + VoidRows(OnlyClocks(effective), old(nextId), recordedAt)
    {
      hide *;
      ghost var before, first, clocks: seq<EffectiveEvent> := rows, nextId, [];
      NoClocks(nextId, recordedAt);
      assert effective[..0] == [];
      for i := 0 to |effective|
        invariant Valid() && first <= nextId == first + |clocks|
        invariant clocks == OnlyClocks(effective[..i]) && rows == before + VoidRows(clocks, first, recordedAt)
      {
        var event := effective[i];
        OnlyClocksSnoc(effective, i);
        if !IsClock(event.eventType) { continue; }
        ghost var voids := VoidRows(clocks, first, recordedAt);
        VoidRowsSnoc(clocks, event, first, recordedAt);
        AppendIsAssociative(
          before, voids, [Punch(nextId, event.eventType, event.occurredAt, Some(Void), Some(event.id), recordedAt)]);
        clocks := clocks + [event];
        Insert(event.eventType, event.occurredAt, Some(Void), Some(event.id), recordedAt);
      }
      assert effective[..|effective|] == effective;
    }
  }

  lemma NoClocks(firstId: nat, recordedAt: int)
    ensures OnlyClocks([]) == [] && VoidRows([], firstId, recordedAt) == []
  {
  }

  lemma AppendIsAssociative(a: seq<Punch>, b: seq<Punch>, c: seq<Punch>)
    ensures (a + b) + c == a + (b + c)
  {}

  lemma OnlyClocksSnoc(events: seq<EffectiveEvent>, i: nat)
    requires i < |events|
    ensures OnlyClocks(events[..i + 1]) ==
            if IsClock(events[i].eventType) then OnlyClocks(events[..i]) + [events[i]]
            else OnlyClocks(events[..i])
  {
    assert events[..i + 1][..i] == events[..i];
  }

  lemma VoidRowsSnoc(clocks: seq<EffectiveEvent>, e: EffectiveEvent, firstId: nat, recordedAt: int)
    ensures VoidRows(clocks + [e], firstId, recordedAt) ==
            VoidRows(clocks, firstId, recordedAt)
            + [Punch(firstId + |clocks|, e.eventType, e.occurredAt, Some(Void), Some(e.id), recordedAt)]
  {}

  lemma EffectiveIdsBelow(history: seq<Punch>, rows: seq<Punch>, bound: nat)
    requires multiset(history) == multiset(rows)
    requires forall i :: 0 <= i < |rows| ==> rows[i].id < bound
    ensures forall i :: 0 <= i < |EffectiveEvents(history)| ==> EffectiveEvents(history)[i].id < bound
  {
    forall i | 0 <= i < |EffectiveEvents(history)|
      ensures EffectiveEvents(history)[i].id < bound
    {
      EffectiveIdIsARow(history, EffectiveEvents(history)[i]);
      var p :| p in history && p.id == EffectiveEvents(history)[i].id;
      assert p in multiset(rows);
    }
  }

  // ---------------------------------------------------------------------------
  // What the rewrite means
  // ---------------------------------------------------------------------------

  lemma {:induction false} FollowStaysInRows(records: seq<Punch>, current: Punch, visited: set<nat>)
    requires current in records
    ensures Follow(records, current, visited) in records
    decreases Ids(records) - visited
  {
    var c := CorrectionOf(records, current.id);
    if c.Some? && c.value.id !in visited {
      CorrectionIsARow(records, current.id);
      assert c.value.id in Ids(records);
      assert Ids(records) - (visited + {c.value.id}) < Ids(records) - visited;
      if c.value.action != Some(Void) { FollowStaysInRows(records, c.value, visited + {c.value.id}); }
    }
  }

  /** Every resolved event comes from a root, and its id names a stored row of the same type and time. */
  lemma {:induction false} ResolvedFromRoot(records: seq<Punch>, among: seq<Punch>, e: EffectiveEvent)
    requires forall p :: p in among ==> p in records
    ensures e in ResolveRoots(records, among) <==>
            exists r :: r in among && IsRoot(r) && Resolve(records, r) == Some(e)
  {
    if among != [] {
      var init, last := among[..|among| - 1], among[|among| - 1];
      assert among == init + [last];
      ResolvedFromRoot(records, init, e);
      if e in ResolveRoots(records, among) && e !in ResolveRoots(records, init) {
        assert last in among && Resolve(records, last) == Some(e);
      }
      if r :| r in among && IsRoot(r) && Resolve(records, r) == Some(e) {
        if r != last { assert r in init; }
      }
    }
  }

  lemma EffectiveIdIsARow(records: seq<Punch>, e: EffectiveEvent)
    requires e in EffectiveEvents(records)
    ensures exists p :: p in records && p.id == e.id && p.eventType == e.eventType && p.occurredAt == e.occurredAt
  {
    SortIsAPermutation(ResolveRoots(records, records));
    assert e in multiset(ResolveRoots(records, records));
    ResolvedFromRoot(records, records, e);
    var r :| r in records && IsRoot(r) && Resolve(records, r) == Some(e);
    FollowStaysInRows(records, r, {r.id});
  }

  lemma {:induction false} InClocks(events: seq<EffectiveEvent>, e: EffectiveEvent)
    ensures e in OnlyClocks(events) <==> e in events && IsClock(e.eventType)
    ensures e in OnlyBreaks(events) <==> e in events && !IsClock(e.eventType)
  {
    if events != [] {
      var init, last := events[..|events| - 1], events[|events| - 1];
      assert events == init + [last];
      InClocks(init, e);
    }
  }

  /** `after` lists the rows of `before` in their old order, and beside them exactly the rewrite's rows. */
  ghost predicate Rewritten(
    before: seq<Punch>, after: seq<Punch>, clockIn: int, clockOut: int, firstId: nat, recordedAt: int)
  {
    && WellFormed(before)
    && IdsBelow(before, firstId)
    && OldRows(after, firstId) == before
    && Appended(before, RewriteRows(before, clockIn, clockOut, firstId, recordedAt), after)
  }

  ghost predicate IdsBelow(records: seq<Punch>, bound: nat) {
    forall p :: p in records ==> p.id < bound
  }

  ghost predicate Appended(before: seq<Punch>, rows: seq<Punch>, after: seq<Punch>) {
    multiset(after) == multiset(before) + multiset(rows)
  }

  /** The rows with an id below `bound`, in the order in which they are listed. */
  function OldRows(records: seq<Punch>, bound: nat): seq<Punch> {
    if records == [] then []
    else
      var n := |records| - 1;
      if records[n].id < bound then OldRows(records[..n], bound) + [records[n]]
      else OldRows(records[..n], bound)
  }

  lemma {:induction false} OldRowsAreTheOld(records: seq<Punch>, bound: nat, p: Punch)
    ensures p in OldRows(records, bound) <==> p in records && p.id < bound
  {
    if records != [] {
      var n := |records| - 1;
      OldRowsAreTheOld(records[..n], bound, p);
      assert records == records[..n] + [records[n]];
    }
  }

  /** A target that no new row names keeps the correction it had. */
  lemma {:induction false} CorrectionUnchanged(after: seq<Punch>, bound: nat, target: nat)
    requires forall p :: p in after && p.id >= bound ==> !Targets(p, target)
    ensures CorrectionOf(after, target) == CorrectionOf(OldRows(after, bound), target)
  {
    if after != [] {
      var n := |after| - 1;
      CorrectionUnchanged(after[..n], bound, target);
      assert after[n] in after;
      if after[n].id < bound {
        assert OldRows(after, bound)[..|OldRows(after[..n], bound)|] == OldRows(after[..n], bound);
      }
    }
  }

  /** Where a chain ends without being voided, nothing corrects its last row. */
  lemma {:induction false} ChainEndsUncorrected(records: seq<Punch>, current: Punch, visited: set<nat>)
    requires WellFormed(records) && current in records
    requires forall v :: v in visited ==> v <= current.id
    ensures var end := Follow(records, current, visited);
            end.action != Some(Void) ==> CorrectionOf(records, end.id) == None
    decreases Ids(records) - visited
  {
    CorrectionIsARow(records, current.id);
    var c := CorrectionOf(records, current.id);
    if c.Some? {
      assert c.value.id > current.id && c.value.id in Ids(records);
      if c.value.action != Some(Void) {
        ChainEndsUncorrected(records, c.value, visited + {c.value.id});
      }
    }
  }

  /** The ids that the rewrite voids. */
  ghost predicate IsVoided(before: seq<Punch>, id: nat) {
    exists e :: e in OnlyClocks(EffectiveEvents(before)) && e.id == id
  }

  lemma VoidRowsTarget(clocks: seq<EffectiveEvent>, firstId: nat, recordedAt: int, p: Punch)
    ensures p in VoidRows(clocks, firstId, recordedAt) ==>
              && p.action == Some(Void) && firstId <= p.id < firstId + |clocks|
              && exists e :: e in clocks && p.corrects == Some(e.id)
  {
    var rows := VoidRows(clocks, firstId, recordedAt);
    if p in rows {
      var i :| 0 <= i < |rows| && rows[i] == p;
      assert clocks[i] in clocks;
    }
  }

  lemma EveryClockIsVoided(clocks: seq<EffectiveEvent>, firstId: nat, recordedAt: int, e: EffectiveEvent)
    requires e in clocks
    ensures exists q :: q in VoidRows(clocks, firstId, recordedAt) && q.corrects == Some(e.id)
  {
    var rows := VoidRows(clocks, firstId, recordedAt);
    var i :| 0 <= i < |clocks| && clocks[i] == e;
    assert rows[i] in rows;
  }

  lemma RowAfterRewrite(
    before: seq<Punch>, after: seq<Punch>, clockIn: int, clockOut: int, firstId: nat, recordedAt: int, p: Punch)
    requires Rewritten(before, after, clockIn, clockOut, firstId, recordedAt)
    ensures p in after <==> p in before || p in RewriteRows(before, clockIn, clockOut, firstId, recordedAt)
  {
    assert p in after <==> p in multiset(after);
  }

  /** A row that the rewrite added is the void of an effective clock punch or one of the requested pair. */
  lemma NewRow(
    before: seq<Punch>, after: seq<Punch>, clockIn: int, clockOut: int, firstId: nat, recordedAt: int, p: Punch)
    requires Rewritten(before, after, clockIn, clockOut, firstId, recordedAt)
    requires p in after && p.id >= firstId
    ensures || (p.action == Some(Void) && p.corrects.Some? && IsVoided(before, p.corrects.value))
            || (p.action == Some(Add) && p.corrects == None)
  {
    RowAfterRewrite(before, after, clockIn, clockOut, firstId, recordedAt, p);
    var clocks := OnlyClocks(EffectiveEvents(before));
    VoidRowsTarget(clocks, firstId, recordedAt, p);
  }

  lemma VoidedHasAVoidRow(
    before: seq<Punch>, after: seq<Punch>, clockIn: int, clockOut: int, firstId: nat, recordedAt: int, id: nat)
    requires Rewritten(before, after, clockIn, clockOut, firstId, recordedAt)
    requires IsVoided(before, id)
    ensures exists q :: q in after && Targets(q, id)
  {
    var clocks := OnlyClocks(EffectiveEvents(before));
    var e :| e in clocks && e.id == id;
    EveryClockIsVoided(clocks, firstId, recordedAt, e);
    var q :| q in VoidRows(clocks, firstId, recordedAt) && q.corrects == Some(e.id);
    assert q in RewriteRows(before, clockIn, clockOut, firstId, recordedAt);
    hide EffectiveEvents, OnlyClocks, VoidRows, RewriteRows, Rewritten;
    VoidRowsTarget(clocks, firstId, recordedAt, q);
    RowAfterRewrite(before, after, clockIn, clockOut, firstId, recordedAt, q);
    assert Targets(q, id);
  }

  /** A voided punch is corrected by one of the new void rows; any other old row keeps its correction. */
  lemma CorrectionAfterRewrite(
    before: seq<Punch>, after: seq<Punch>, clockIn: int, clockOut: int, firstId: nat, recordedAt: int, id: nat)
    requires Rewritten(before, after, clockIn, clockOut, firstId, recordedAt)
    requires IsVoided(before, id) ==> CorrectionOf(before, id) == None
    ensures var c := CorrectionOf(after, id);
            if IsVoided(before, id) then c.Some? && c.value.action == Some(Void) && c.value.id >= firstId
            else c == CorrectionOf(before, id)
  {
    CorrectionIsARow(after, id);
    if IsVoided(before, id) {
      VoidedHasAVoidRow(before, after, clockIn, clockOut, firstId, recordedAt, id);
      var c := CorrectionOf(after, id).value;
      if c.id < firstId {
        OldRowsAreTheOld(after, firstId, c);
        CorrectionIsARow(before, id);
        assert false;
      } else {
        NewRow(before, after, clockIn, clockOut, firstId, recordedAt, c);
      }
    } else {
      forall p | p in after && p.id >= firstId
        ensures !Targets(p, id)
      {
        NewRow(before, after, clockIn, clockOut, firstId, recordedAt, p);
      }
      CorrectionUnchanged(after, firstId, id);
    }
  }

  /** Following a chain in the rewritten log: voided at a voided clock punch, unchanged elsewhere. */
  lemma {:induction false} FollowAfterRewrite(
    before: seq<Punch>, after: seq<Punch>, clockIn: int, clockOut: int, firstId: nat, recordedAt: int,
    current: Punch, visited: set<nat>)
    requires Rewritten(before, after, clockIn, clockOut, firstId, recordedAt)
    requires current in before && visited <= Ids(before)
    requires forall id :: IsVoided(before, id) ==> CorrectionOf(before, id) == None
    ensures var end := Follow(before, current, visited);
            if IsVoided(before, end.id) then Follow(after, current, visited).action == Some(Void)
            else Follow(after, current, visited) == end
    decreases Ids(before) - visited
  {
    CorrectionIsARow(before, current.id);
    CorrectionAfterRewrite(before, after, clockIn, clockOut, firstId, recordedAt, current.id);
    var was := CorrectionOf(before, current.id);
    if IsVoided(before, current.id) {
      assert firstId !in Ids(before);
    } else if was.Some? && was.value.id !in visited {
      assert was.value.id in Ids(before);
      if was.value.action == Some(Void) {
        VoidIsNotEffective(before, was.value);
      } else {
        FollowAfterRewrite(before, after, clockIn, clockOut, firstId, recordedAt,
                           was.value, visited + {was.value.id});
      }
    }
  }

  lemma VoidIsNotEffective(records: seq<Punch>, v: Punch)
    requires WellFormed(records) && v in records && v.action == Some(Void)
    ensures !IsVoided(records, v.id)
  {
    if e :| e in OnlyClocks(EffectiveEvents(records)) && e.id == v.id {
      InClocks(EffectiveEvents(records), e);
      SortIsAPermutation(ResolveRoots(records, records));
      assert e in multiset(ResolveRoots(records, records));
      ResolvedFromRoot(records, records, e);
      var r :| r in records && IsRoot(r) && Resolve(records, r) == Some(e);
      FollowStaysInRows(records, r, {r.id});
      SameIdSameRow(records, v, Follow(records, r, {r.id}));
      assert false;
    }
  }

  lemma SameIdSameRow(records: seq<Punch>, p: Punch, q: Punch)
    requires WellFormed(records) && p in records && q in records && p.id == q.id
    ensures p == q
  {
    var i :| 0 <= i < |records| && records[i] == p;
    var j :| 0 <= j < |records| && records[j] == q;
  }

  /** An effective clock punch is the uncorrected end of its chain, and it is voided; a break is not. */
  lemma EffectiveIsUncorrected(before: seq<Punch>, root: Punch)
    requires WellFormed(before) && root in before && IsRoot(root) && Resolve(before, root).Some?
    ensures CorrectionOf(before, Resolve(before, root).value.id) == None
    ensures IsVoided(before, Resolve(before, root).value.id) <==> IsClock(Resolve(before, root).value.eventType)
  {
    var e := Resolve(before, root).value;
    ChainEndsUncorrected(before, root, {root.id});
    FollowStaysInRows(before, root, {root.id});
    SortIsAPermutation(ResolveRoots(before, before));
    ResolvedFromRoot(before, before, e);
    assert e in multiset(ResolveRoots(before, before));
    InClocks(EffectiveEvents(before), e);
    if d :| d in OnlyClocks(EffectiveEvents(before)) && d.id == e.id {
      InClocks(EffectiveEvents(before), d);
      EffectiveIdIsARow(before, d);
      var p :| p in before && p.id == d.id && p.eventType == d.eventType;
      SameIdSameRow(before, p, Follow(before, root, {root.id}));
    }
  }

  lemma VoidedAreUncorrected(before: seq<Punch>)
    requires WellFormed(before)
    ensures forall id :: IsVoided(before, id) ==> CorrectionOf(before, id) == None
  {
    forall id | IsVoided(before, id)
      ensures CorrectionOf(before, id) == None
    {
      var e :| e in OnlyClocks(EffectiveEvents(before)) && e.id == id;
      InClocks(EffectiveEvents(before), e);
      SortIsAPermutation(ResolveRoots(before, before));
      assert e in multiset(ResolveRoots(before, before));
      ResolvedFromRoot(before, before, e);
      var r :| r in before && IsRoot(r) && Resolve(before, r) == Some(e);
      EffectiveIsUncorrected(before, r);
    }
  }

  /** What an old root resolves to afterwards: the same break, or nothing in place of a clock punch. */
  lemma OldRootAfterRewrite(
    before: seq<Punch>, after: seq<Punch>, clockIn: int, clockOut: int, firstId: nat, recordedAt: int, root: Punch)
    requires Rewritten(before, after, clockIn, clockOut, firstId, recordedAt)
    requires root in before && IsRoot(root)
    ensures Resolve(after, root) ==
            if Resolve(before, root).Some? && IsClock(Resolve(before, root).value.eventType) then None
            else Resolve(before, root)
  {
    VoidedAreUncorrected(before);
    FollowAfterRewrite(before, after, clockIn, clockOut, firstId, recordedAt, root, {root.id});
    FollowStaysInRows(before, root, {root.id});
    var end := Follow(before, root, {root.id});
    if end.corrects.Some? {
      var target := end.corrects.value;
      if target in Ids(after) {
        var p :| p in after && p.id == target;
        OldRowsAreTheOld(after, firstId, p);
      }
      if target in Ids(before) {
        var p :| p in before && p.id == target;
        OldRowsAreTheOld(after, firstId, p);
      }
    }
    if Resolve(before, root).Some? {
      EffectiveIsUncorrected(before, root);
    } else if IsVoided(before, end.id) {
      var e :| e in OnlyClocks(EffectiveEvents(before)) && e.id == end.id;
      VoidedEndResolves(before, root, e);
    }
  }

  /** A chain that ends at a voided id is the chain of an effective event. */
  lemma VoidedEndResolves(before: seq<Punch>, root: Punch, e: EffectiveEvent)
    requires WellFormed(before) && root in before && IsRoot(root)
    requires e in OnlyClocks(EffectiveEvents(before)) && e.id == Follow(before, root, {root.id}).id
    ensures Resolve(before, root).Some?
  {
    InClocks(EffectiveEvents(before), e);
    SortIsAPermutation(ResolveRoots(before, before));
    assert e in multiset(ResolveRoots(before, before));
    ResolvedFromRoot(before, before, e);
    var r :| r in before && IsRoot(r) && Resolve(before, r) == Some(e);
    FollowStaysInRows(before, r, {r.id});
    FollowStaysInRows(before, root, {root.id});
    SameIdSameRow(before, Follow(before, r, {r.id}), Follow(before, root, {root.id}));
  }

  /** A requested punch is its own effective event. */
  lemma NewRootAfterRewrite(
    before: seq<Punch>, after: seq<Punch>, clockIn: int, clockOut: int, firstId: nat, recordedAt: int, root: Punch)
    requires Rewritten(before, after, clockIn, clockOut, firstId, recordedAt)
    requires root in after && root.id >= firstId && IsRoot(root)
    ensures Resolve(after, root) == Some(EffectiveEvent(root.id, root.id, root.eventType, root.occurredAt, false))
  {
    CorrectionIsARow(after, root.id);
    NewRow(before, after, clockIn, clockOut, firstId, recordedAt, root);
    var c := CorrectionOf(after, root.id);
    if c.Some? {
      if c.value.id < firstId {
        OldRowsAreTheOld(after, firstId, c.value);
        assert false;
      } else {
        NewRow(before, after, clockIn, clockOut, firstId, recordedAt, c.value);
        var e :| e in OnlyClocks(EffectiveEvents(before)) && e.id == root.id;
        InClocks(EffectiveEvents(before), e);
        EffectiveIdIsARow(before, e);
        assert false;
      }
    }
  }

  function RequestedAmong(among: seq<Punch>, firstId: nat): seq<EffectiveEvent> {
    if among == [] then []
    else
      var n := |among| - 1;
      var p := among[n];
      RequestedAmong(among[..n], firstId)
      + if p.id >= firstId && IsRoot(p) then [EffectiveEvent(p.id, p.id, p.eventType, p.occurredAt, false)] else []
  }

  lemma OnlyBreaksSnoc(events: seq<EffectiveEvent>, e: EffectiveEvent)
    ensures OnlyBreaks(events + [e]) == if IsClock(e.eventType) then OnlyBreaks(events) else OnlyBreaks(events) + [e]
  {
    assert (events + [e])[..|events|] == events;
  }

  lemma ResolveRootsSnoc(records: seq<Punch>, among: seq<Punch>, p: Punch)
    ensures ResolveRoots(records, among + [p]) ==
            if IsRoot(p) && Resolve(records, p).Some?
            then ResolveRoots(records, among) + [Resolve(records, p).value]
            else ResolveRoots(records, among)
  {
    assert (among + [p])[..|among|] == among;
  }

  /** One row further: what `p` contributes to the effective events after the rewrite. */
  lemma ResolveStep(
    before: seq<Punch>, after: seq<Punch>, clockIn: int, clockOut: int, firstId: nat, recordedAt: int,
    olds: seq<Punch>, p: Punch)
    requires Rewritten(before, after, clockIn, clockOut, firstId, recordedAt)
    requires p in after
    ensures var breaks := OnlyBreaks(ResolveRoots(before, olds));
            p.id < firstId ==>
              OnlyBreaks(ResolveRoots(before, olds + [p])) ==
              if IsRoot(p) && Resolve(after, p).Some? then breaks + [Resolve(after, p).value] else breaks
    ensures p.id >= firstId && IsRoot(p) ==>
              Resolve(after, p) == Some(EffectiveEvent(p.id, p.id, p.eventType, p.occurredAt, false))
  {
    if p.id < firstId {
      OldRowsAreTheOld(after, firstId, p);
      ResolveRootsSnoc(before, olds, p);
      if IsRoot(p) {
        OldRootAfterRewrite(before, after, clockIn, clockOut, firstId, recordedAt, p);
        if Resolve(before, p).Some? {
          OnlyBreaksSnoc(ResolveRoots(before, olds), Resolve(before, p).value);
        }
      }
    } else if IsRoot(p) {
      NewRootAfterRewrite(before, after, clockIn, clockOut, firstId, recordedAt, p);
    }
  }

  lemma OldRowsSnoc(rows: seq<Punch>, p: Punch, bound: nat)
    ensures OldRows(rows + [p], bound) == if p.id < bound then OldRows(rows, bound) + [p] else OldRows(rows, bound)
    ensures RequestedAmong(rows + [p], bound) ==
            RequestedAmong(rows, bound)
            + if p.id >= bound && IsRoot(p) then [EffectiveEvent(p.id, p.id, p.eventType, p.occurredAt, false)] else []
  {
    assert (rows + [p])[..|rows|] == rows;
  }

  lemma NothingResolved(before: seq<Punch>, after: seq<Punch>, firstId: nat)
    ensures ResolveRoots(after, []) == [] && RequestedAmong([], firstId) == []
    ensures OnlyBreaks(ResolveRoots(before, OldRows([], firstId))) == []
  {
    hide Resolve;
  }

  lemma {:induction false} ResolveAfterRewrite(
    before: seq<Punch>, after: seq<Punch>, clockIn: int, clockOut: int, firstId: nat, recordedAt: int, n: nat)
    requires Rewritten(before, after, clockIn, clockOut, firstId, recordedAt)
    requires n <= |after|
    ensures multiset(ResolveRoots(after, after[..n])) ==
            multiset(OnlyBreaks(ResolveRoots(before, OldRows(after[..n], firstId))))
            + multiset(RequestedAmong(after[..n], firstId))
  {
    hide *;
    if n == 0 {
      assert after[..0] == [];
      NothingResolved(before, after, firstId);
    } else {
      var p, init := after[n - 1], after[..n - 1];
      assert after[..n] == init + [p];
      ResolveAfterRewrite(before, after, clockIn, clockOut, firstId, recordedAt, n - 1);
      ResolveStep(before, after, clockIn, clockOut, firstId, recordedAt, OldRows(init, firstId), p);
      ResolveRootsSnoc(after, init, p);
      OldRowsSnoc(init, p, firstId);
    }
  }

  lemma {:induction false} BreaksCounted(events: seq<EffectiveEvent>, e: EffectiveEvent)
    ensures multiset(OnlyBreaks(events))[e] == if IsClock(e.eventType) then 0 else multiset(events)[e]
  {
    if events != [] {
      var n := |events| - 1;
      BreaksCounted(events[..n], e);
      hide OnlyBreaks, IsClock;
      OnlyBreaksSnoc(events[..n], events[n]);
      assert events == events[..n] + [events[n]];
    }
  }

  lemma {:induction false} RequestedConcat(s: seq<Punch>, t: seq<Punch>, firstId: nat)
    ensures RequestedAmong(s + t, firstId) == RequestedAmong(s, firstId) + RequestedAmong(t, firstId)
  {
    if t == [] {
      assert s + t == s;
    } else {
      var n := |t| - 1;
      RequestedConcat(s, t[..n], firstId);
      assert (s + t)[..|s + t| - 1] == s + t[..n];
    }
  }

  function Without(s: seq<Punch>, j: nat): seq<Punch>
    requires j < |s|
  {
    s[..j] + s[j + 1..]
  }

  lemma RequestedWithout(s: seq<Punch>, j: nat, firstId: nat)
    requires j < |s|
    ensures multiset(Without(s, j)) == multiset(s) - multiset{s[j]}
    ensures multiset(RequestedAmong(s, firstId)) ==
            multiset(RequestedAmong([s[j]], firstId)) + multiset(RequestedAmong(Without(s, j), firstId))
  {
    var left, right := s[..j], s[j + 1..];
    assert s == left + ([s[j]] + right);
    RequestedConcat(left, [s[j]] + right, firstId);
    RequestedConcat([s[j]], right, firstId);
    RequestedConcat(left, right, firstId);
  }

  lemma {:induction false} RequestedPermutes(s: seq<Punch>, t: seq<Punch>, firstId: nat)
    requires multiset(s) == multiset(t)
    ensures multiset(RequestedAmong(s, firstId)) == multiset(RequestedAmong(t, firstId))
    decreases |s|
  {
    assert |multiset(s)| == |s| && |multiset(t)| == |t|;
    if s != [] {
      assert s[0] in multiset(t);
      var j :| 0 <= j < |t| && t[j] == s[0];
      RequestedWithout(s, 0, firstId);
      RequestedWithout(t, j, firstId);
      RequestedPermutes(Without(s, 0), Without(t, j), firstId);
    }
  }

  lemma {:induction false} NothingRequested(rows: seq<Punch>, firstId: nat)
    requires forall p :: p in rows ==> p.id < firstId || !IsRoot(p)
    ensures RequestedAmong(rows, firstId) == []
  {
    if rows != [] { NothingRequested(rows[..|rows| - 1], firstId); }
  }

  lemma RequestedOfAppend(before: seq<Punch>, voids: seq<Punch>, a: Punch, b: Punch, firstId: nat)
    requires IdsBelow(before, firstId)
    requires forall p :: p in voids ==> !IsRoot(p)
    requires IsRoot(a) && IsRoot(b) && a.id >= firstId && b.id >= firstId
    ensures RequestedAmong(before + (voids + [a, b]), firstId) ==
            [EffectiveEvent(a.id, a.id, a.eventType, a.occurredAt, false),
             EffectiveEvent(b.id, b.id, b.eventType, b.occurredAt, false)]
  {
    var all := before + (voids + [a, b]);
    assert all[..|all| - 1] == before + voids + [a];
    assert (before + voids + [a])[..|before + voids|] == before + voids;
    NothingRequested(before + voids, firstId);
  }

  lemma VoidRowsAreNoRoots(clocks: seq<EffectiveEvent>, firstId: nat, recordedAt: int)
    ensures forall p :: p in VoidRows(clocks, firstId, recordedAt) ==> !IsRoot(p)
  {
    forall p | p in VoidRows(clocks, firstId, recordedAt)
      ensures !IsRoot(p)
    {
      VoidRowsTarget(clocks, firstId, recordedAt, p);
    }
  }

  /** The pair of effective events that a rewrite asks for. */
  function PairOf(n: nat, clockIn: int, clockOut: int): seq<EffectiveEvent> {
    [EffectiveEvent(n, n, ClockIn, clockIn, false), EffectiveEvent(n + 1, n + 1, ClockOut, clockOut, false)]
  }

  function RequestedPair(before: seq<Punch>, clockIn: int, clockOut: int, firstId: nat): seq<EffectiveEvent> {
    PairOf(firstId + |OnlyClocks(EffectiveEvents(before))|, clockIn, clockOut)
  }

  lemma RequestedOfRewrite(
    before: seq<Punch>, clocks: seq<EffectiveEvent>, clockIn: int, clockOut: int, firstId: nat, recordedAt: int)
    requires IdsBelow(before, firstId)
    ensures RequestedAmong(before + RewriteRowsOf(clocks, clockIn, clockOut, firstId, recordedAt), firstId) ==
            PairOf(firstId + |clocks|, clockIn, clockOut)
  {
    var n := firstId + |clocks|;
    VoidRowsAreNoRoots(clocks, firstId, recordedAt);
    RequestedOfAppend(before, VoidRows(clocks, firstId, recordedAt),
                      AddRow(n, ClockIn, clockIn, recordedAt), AddRow(n + 1, ClockOut, clockOut, recordedAt), firstId);
  }

  lemma RequestedIsThePair(
    before: seq<Punch>, clocks: seq<EffectiveEvent>, after: seq<Punch>,
    clockIn: int, clockOut: int, firstId: nat, recordedAt: int)
    requires IdsBelow(before, firstId)
    requires Appended(before, RewriteRowsOf(clocks, clockIn, clockOut, firstId, recordedAt), after)
    ensures multiset(RequestedAmong(after, firstId)) == multiset(PairOf(firstId + |clocks|, clockIn, clockOut))
  {
    RequestedPermutes(after, before + RewriteRowsOf(clocks, clockIn, clockOut, firstId, recordedAt), firstId);
    RequestedOfRewrite(before, clocks, clockIn, clockOut, firstId, recordedAt);
  }

  lemma BreaksPermute(s: seq<EffectiveEvent>, t: seq<EffectiveEvent>)
    requires multiset(s) == multiset(t)
    ensures multiset(OnlyBreaks(s)) == multiset(OnlyBreaks(t))
  {
    forall e ensures multiset(OnlyBreaks(s))[e] == multiset(OnlyBreaks(t))[e] {
      BreaksCounted(s, e);
      BreaksCounted(t, e);
    }
  }

  lemma RewriteRowsAre(before: seq<Punch>, clockIn: int, clockOut: int, firstId: nat, recordedAt: int)
    ensures var clocks := OnlyClocks(EffectiveEvents(before));
            && RewriteRows(before, clockIn, clockOut, firstId, recordedAt) ==
               RewriteRowsOf(clocks, clockIn, clockOut, firstId, recordedAt)
            && RequestedPair(before, clockIn, clockOut, firstId) == PairOf(firstId + |clocks|, clockIn, clockOut)
  {}

  lemma PairAfterRewrite(
    before: seq<Punch>, after: seq<Punch>, clockIn: int, clockOut: int, firstId: nat, recordedAt: int)
    requires IdsBelow(before, firstId)
    requires Appended(before, RewriteRows(before, clockIn, clockOut, firstId, recordedAt), after)
    ensures multiset(RequestedAmong(after, firstId)) == multiset(RequestedPair(before, clockIn, clockOut, firstId))
  {
    hide *;
    var clocks := OnlyClocks(EffectiveEvents(before));
    RewriteRowsAre(before, clockIn, clockOut, firstId, recordedAt);
    RequestedIsThePair(before, OnlyClocks(EffectiveEvents(before)), after, clockIn, clockOut, firstId, recordedAt);
  }

  lemma BreaksInEffect(records: seq<Punch>)
    ensures multiset(EffectiveEvents(records)) == multiset(ResolveRoots(records, records))
    ensures multiset(OnlyBreaks(EffectiveEvents(records))) == multiset(OnlyBreaks(ResolveRoots(records, records)))
  {
    SortIsAPermutation(ResolveRoots(records, records));
    BreaksPermute(EffectiveEvents(records), ResolveRoots(records, records));
  }

  lemma ResolvedAfterRewrite(
    before: seq<Punch>, after: seq<Punch>, clockIn: int, clockOut: int, firstId: nat, recordedAt: int)
    requires Rewritten(before, after, clockIn, clockOut, firstId, recordedAt)
    ensures multiset(ResolveRoots(after, after)) ==
            multiset(OnlyBreaks(ResolveRoots(before, before))) + multiset(RequestedAmong(after, firstId))
  {
    ResolveAfterRewrite(before, after, clockIn, clockOut, firstId, recordedAt, |after|);
    assert after[..|after|] == after;
  }

  /** The whole effect of an approved punch correction, whatever corrections came before it:
      the breaks in effect stay, the clock punches in effect are exactly the requested pair,
      and every row that was stored is still stored, unchanged and in its place. */
  lemma RewriteTakesEffect(
    before: seq<Punch>, after: seq<Punch>, clockIn: int, clockOut: int, firstId: nat, recordedAt: int)
    requires Rewritten(before, after, clockIn, clockOut, firstId, recordedAt)
    ensures multiset(EffectiveEvents(after)) ==
            multiset(OnlyBreaks(EffectiveEvents(before)))
            + multiset(RequestedPair(before, clockIn, clockOut, firstId))
  {
    ResolvedAfterRewrite(before, after, clockIn, clockOut, firstId, recordedAt);
    PairAfterRewrite(before, after, clockIn, clockOut, firstId, recordedAt);
    BreaksInEffect(after);
    BreaksInEffect(before);
  }

  /** The stored log after the procedure is a rewrite of the history it read, in the table's own
      order and in any listing that keeps the old rows' order. */
  lemma RewritePunchesRewrites(rows: seq<Punch>, clockIn: int, clockOut: int, firstId: nat, recordedAt: int)
    requires WellFormed(rows) && IdsBelow(rows, firstId)
    ensures Rewritten(rows, rows + RewriteRows(rows, clockIn, clockOut, firstId, recordedAt),
                      clockIn, clockOut, firstId, recordedAt)
  {
    var added := RewriteRows(rows, clockIn, clockOut, firstId, recordedAt);
    var clocks := OnlyClocks(EffectiveEvents(rows));
    forall p | p in added ensures p.id >= firstId { VoidRowsTarget(clocks, firstId, recordedAt, p); }
    OldRowsOfAppend(rows, added, firstId);
  }

  lemma {:induction false} OldRowsOfAppend(rows: seq<Punch>, added: seq<Punch>, bound: nat)
    requires forall p :: p in rows ==> p.id < bound
    requires forall p :: p in added ==> p.id >= bound
    ensures OldRows(rows + added, bound) == rows
  {
    if added != [] {
      var n := |added| - 1;
      assert (rows + added)[..|rows + added| - 1] == rows + added[..n];
      assert added[n] in added;
      OldRowsOfAppend(rows, added[..n], bound);
    } else if rows != [] {
      var n := |rows| - 1;
      assert rows + added == rows && rows[..n] + added == rows[..n];
      assert rows[n] in rows;
      OldRowsOfAppend(rows[..n], [], bound);
    }
  }

  // ---------------------------------------------------------------------------
  // One more row
  // ---------------------------------------------------------------------------

  lemma EventsAreResolved(records: seq<Punch>, e: EffectiveEvent)
    ensures e in EffectiveEvents(records) <==> exists r :: r in records && IsRoot(r) && Resolve(records, r) == Some(e)
  {
    SortIsAPermutation(ResolveRoots(records, records));
    assert e in EffectiveEvents(records) <==> e in multiset(ResolveRoots(records, records));
    ResolvedFromRoot(records, records, e);
  }

  ghost predicate IsOfAPunchInEffect(records: seq<Punch>, p: Punch) {
    exists e :: e in EffectiveEvents(records) && p.corrects == Some(e.id)
  }

  /** `p` is a newer row of the day: a punch, or the correction of a punch in effect. */
  ghost predicate IsNext(records: seq<Punch>, p: Punch) {
    && WellFormed(records) && IdsBelow(records, p.id)
    && if IsRoot(p) then p.corrects == None else IsOfAPunchInEffect(records, p)
  }

  /** `p` is newer than all rows and corrects none of them, or one that nothing has corrected. */
  ghost predicate IsAppendable(records: seq<Punch>, p: Punch) {
    && WellFormed(records) && IdsBelow(records, p.id)
    && if IsRoot(p) then p.corrects == None
       else p.corrects.Some? && p.corrects.value in Ids(records) && CorrectionOf(records, p.corrects.value) == None
  }

  /** Nothing has corrected the row that it corrects, and a chain that ends there is in effect. */
  lemma CorrectsAnEnd(records: seq<Punch>, p: Punch)
    requires IsNext(records, p) && !IsRoot(p)
    ensures IsAppendable(records, p)
    ensures forall r :: r in records && IsRoot(r) && Follow(records, r, {r.id}).id == p.corrects.value ==>
              Resolve(records, r).Some?
  {
    var e :| e in EffectiveEvents(records) && p.corrects == Some(e.id);
    EventsAreResolved(records, e);
    var r :| r in records && IsRoot(r) && Resolve(records, r) == Some(e);
    EffectiveIsUncorrected(records, r);
    FollowStaysInRows(records, r, {r.id});
    forall q | q in records && IsRoot(q) && Follow(records, q, {q.id}).id == e.id ensures Resolve(records, q).Some? {
      FollowStaysInRows(records, q, {q.id});
      SameIdSameRow(records, Follow(records, q, {q.id}), Follow(records, r, {r.id}));
    }
  }

  lemma CorrectionAfterOneMore(records: seq<Punch>, p: Punch, target: nat)
    requires IsAppendable(records, p)
    ensures CorrectionOf(records + [p], target) ==
            if Targets(p, target) then Some(p) else CorrectionOf(records, target)
    ensures CorrectionOf(records + [p], p.id) == None
  {
    assert (records + [p])[..|records|] == records;
    CorrectionIsARow(records, p.id);
  }

  lemma {:induction false} FollowAfterOneMore(records: seq<Punch>, p: Punch, current: Punch, visited: set<nat>)
    requires IsAppendable(records, p)
    requires current in records && current.action != Some(Void) && visited <= Ids(records)
    ensures var end := Follow(records, current, visited);
            Follow(records + [p], current, visited) ==
            if Targets(p, end.id) && end.action != Some(Void) then p else end
    decreases Ids(records) - visited
  {
    var c := CorrectionOf(records, current.id);
    CorrectionAfterOneMore(records, p, current.id);
    CorrectionIsARow(records, current.id);
    if Targets(p, current.id) {
      assert p.id !in visited;
      FollowEnds(records + [p], p, visited + {p.id});
    } else if c.Some? && c.value.id !in visited {
      assert c.value.id in Ids(records);
      if c.value.action != Some(Void) { FollowAfterOneMore(records, p, c.value, visited + {c.value.id}); }
    }
  }

  lemma FollowEnds(records: seq<Punch>, current: Punch, visited: set<nat>)
    requires CorrectionOf(records, current.id) == None
    ensures Follow(records, current, visited) == current
  {
  }

  /** A stored punch resolves to what it did, unless the new row corrects what it resolved to: then to the new row, or
      to nothing when that is a void. */
  lemma ResolveAfterOneMore(records: seq<Punch>, p: Punch, root: Punch)
    requires IsNext(records, p) && root in records && IsRoot(root)
    ensures var was := Resolve(records, root);
            Resolve(records + [p], root) ==
            if was.Some? && Targets(p, was.value.id) then
              if p.action == Some(Void) then None
              else Some(EffectiveEvent(p.id, root.id, p.eventType, p.occurredAt, true))
            else was
    ensures Resolve(records, root).Some? ==> Resolve(records, root).value.origin == root.id
  {
    assert root.id in Ids(records);
    if !IsRoot(p) { CorrectsAnEnd(records, p); }
    FollowAfterOneMore(records, p, root, {root.id});
    FollowStaysInRows(records, root, {root.id});
    IdsOneMore(records, p);
    var end := Follow(records, root, {root.id});
    assert end.id < p.id && (end.corrects.Some? ==> end.corrects.value < end.id);
    hide Follow, CorrectionOf, Ids;
  }

  lemma IdsOneMore(records: seq<Punch>, p: Punch)
    ensures Ids(records + [p]) == Ids(records) + {p.id}
  {
    assert forall q :: q in records + [p] <==> q in records || q == p;
  }

  /** What a new punch that is no correction, or the correction of a punch in effect, makes of the punches in effect. */
  ghost predicate IsInEffectAfter(before: seq<EffectiveEvent>, p: Punch, e: EffectiveEvent) {
    || (e in before && !Targets(p, e.id))
    || (IsRoot(p) && e == EffectiveEvent(p.id, p.id, p.eventType, p.occurredAt, false))
    || (p.action == Some(Adjust) && e.id == p.id && e.eventType == p.eventType && e.occurredAt == p.occurredAt
        && e.corrected && exists d :: d in before && Targets(p, d.id) && d.origin == e.origin)
  }

  /** A new punch is in effect beside all others; the correction of a punch in effect takes its place, or takes it away
      when it is a void; every other punch in effect stays as it was. */
  lemma OneMoreTakesEffect(records: seq<Punch>, p: Punch, e: EffectiveEvent)
    requires IsNext(records, p)
    ensures e in EffectiveEvents(records + [p]) <==> IsInEffectAfter(EffectiveEvents(records), p, e)
  {
    hide EffectiveEvents, Resolve, IsNext;
    if e in EffectiveEvents(records + [p]) { InEffectAfterward(records, p, e); }
    if IsInEffectAfter(EffectiveEvents(records), p, e) { StillInEffect(records, p, e); }
  }

  lemma InEffectAfterward(records: seq<Punch>, p: Punch, e: EffectiveEvent)
    requires IsNext(records, p) && e in EffectiveEvents(records + [p])
    ensures IsInEffectAfter(EffectiveEvents(records), p, e)
  {
    var after := records + [p];
    hide EffectiveEvents, Resolve, IsNext;
    EventsAreResolved(after, e);
    var r :| r in after && IsRoot(r) && Resolve(after, r) == Some(e);
    if r == p {
      NewRootResolves(records, p);
    } else {
      ResolveAfterOneMore(records, p, r);
      var was := Resolve(records, r).value;
      EventsAreResolved(records, was);
      assert was in EffectiveEvents(records);
      if Targets(p, was.id) { assert p.action.Some? && p.action.value.Adjust?; }
    }
  }

  lemma StillInEffect(records: seq<Punch>, p: Punch, e: EffectiveEvent)
    requires IsNext(records, p) && IsInEffectAfter(EffectiveEvents(records), p, e)
    ensures e in EffectiveEvents(records + [p])
  {
    var after := records + [p];
    hide EffectiveEvents, Resolve, IsNext;
    EventsAreResolved(after, e);
    if IsRoot(p) && e.id == p.id && !(e in EffectiveEvents(records) && !Targets(p, e.id)) {
      NewRootResolves(records, p);
      assert p in after;
    } else {
      var d: EffectiveEvent;
      if e in EffectiveEvents(records) && !Targets(p, e.id) {
        d := e;
      } else {
        d :| d in EffectiveEvents(records) && Targets(p, d.id) && d.origin == e.origin;
      }
      EventsAreResolved(records, d);
      var r :| r in records && IsRoot(r) && Resolve(records, r) == Some(d);
      ResolveAfterOneMore(records, p, r);
      assert r in after;
    }
  }

  lemma NewRootResolves(records: seq<Punch>, p: Punch)
    requires IsNext(records, p) && IsRoot(p)
    ensures Resolve(records + [p], p) == Some(EffectiveEvent(p.id, p.id, p.eventType, p.occurredAt, false))
  {
    CorrectionAfterOneMore(records, p, p.id);
    FollowEnds(records + [p], p, {p.id});
  }

  // ---------------------------------------------------------------------------
  // What is in effect, row by row
  // ---------------------------------------------------------------------------

  ghost predicate IsInEffect(records: seq<Punch>, x: Punch) {
    exists e :: e in EffectiveEvents(records) && e.id == x.id
  }

  /** Some row names `x` as what it corrects. */
  predicate IsCorrected(records: seq<Punch>, x: Punch) {
    exists i :: 0 <= i < |records| && records[i].corrects == Some(x.id)
  }

  /** What the anomaly report takes for in effect. */
  predicate IsReported(records: seq<Punch>, x: Punch) {
    x.action != Some(Void) && !IsCorrected(records, x)
  }

  /** Exactly the voids and adjustments name a row, one of the same list. */
  ghost predicate Linked(records: seq<Punch>) {
    && WellFormed(records)
    && forall p :: p in records ==>
         (p.corrects.Some? <==> !IsRoot(p)) && (p.corrects.Some? ==> p.corrects.value in Ids(records))
  }

  function RowOf(records: seq<Punch>, id: nat): (p: Punch)
    requires id in Ids(records)
    ensures p in records && p.id == id
  {
    var last := records[|records| - 1];
    if last.id == id then last
    else
      assert records == records[..|records| - 1] + [last];
      RowOf(records[..|records| - 1], id)
  }

  /** Every correction on the way from the root to `x` is the one that wins for its target, and none of the rows that
      it corrects is a void. */
  ghost predicate Wins(records: seq<Punch>, x: Punch)
    requires Linked(records) && x in records
    decreases x.id
  {
    IsRoot(x) ||
    var parent := RowOf(records, x.corrects.value);
    parent.action != Some(Void) && CorrectionOf(records, parent.id) == Some(x) && Wins(records, parent)
  }

  lemma InEffectIsAnEnd(records: seq<Punch>, x: Punch)
    requires Linked(records) && x in records
    ensures IsInEffect(records, x) <==>
            exists r :: r in records && IsRoot(r) && EndsIn(records, r, x)
  {
    SortIsAPermutation(ResolveRoots(records, records));
    var resolved := ResolveRoots(records, records);
    assert forall e :: e in EffectiveEvents(records) <==> e in resolved by {
      assert forall e :: e in EffectiveEvents(records) <==> e in multiset(EffectiveEvents(records));
      assert forall e :: e in resolved <==> e in multiset(resolved);
    }
    if e :| e in resolved && e.id == x.id {
      ResolvedFromRoot(records, records, e);
      var r :| r in records && IsRoot(r) && Resolve(records, r) == Some(e);
      FollowStaysInRows(records, r, {r.id});
      SameIdSameRow(records, x, Follow(records, r, {r.id}));
      assert EndsIn(records, r, x);
    }
    if r :| r in records && IsRoot(r) && EndsIn(records, r, x) {
      ResolvedFromRoot(records, records, Resolve(records, r).value);
    }
  }

  predicate EndsIn(records: seq<Punch>, r: Punch, x: Punch) {
    Follow(records, r, {r.id}) == x && x.action != Some(Void)
  }

  /** From a row that wins the chain leads to rows that win. */
  lemma {:induction false} FollowKeepsWinning(records: seq<Punch>, current: Punch, visited: set<nat>)
    requires Linked(records) && current in records && Wins(records, current) && current.action != Some(Void)
    requires forall v :: v in visited ==> v <= current.id
    ensures var end := Follow(records, current, visited); end in records && Wins(records, end)
    decreases Ids(records) - visited
  {
    CorrectionIsARow(records, current.id);
    var c := CorrectionOf(records, current.id);
    if c.Some? {
      SameIdSameRow(records, current, RowOf(records, current.id));
      assert c.value.id in Ids(records);
      if c.value.action != Some(Void) { FollowKeepsWinning(records, c.value, visited + {c.value.id}); }
    }
  }

  /** A row that wins lies on the chain of a root: from there on the chain is the same. */
  lemma {:induction false} WinnersAreReached(records: seq<Punch>, x: Punch) returns (r: Punch, visited: set<nat>)
    requires Linked(records) && x in records && Wins(records, x) && x.action != Some(Void)
    ensures r in records && IsRoot(r) && Follow(records, r, {r.id}) == Follow(records, x, visited)
    ensures forall v :: v in visited ==> v <= x.id
    decreases x.id
  {
    if IsRoot(x) {
      r, visited := x, {x.id};
    } else {
      var parent := RowOf(records, x.corrects.value);
      r, visited := WinnersAreReached(records, parent);
      visited := visited + {x.id};
    }
  }

  lemma UncorrectedEnds(records: seq<Punch>, x: Punch, visited: set<nat>)
    requires !IsCorrected(records, x)
    ensures Follow(records, x, visited) == x
  {
    CorrectionIsTheLatest(records, x.id);
  }

  lemma CorrectedHasAWinner(records: seq<Punch>, x: Punch)
    requires Linked(records) && IsCorrected(records, x)
    ensures CorrectionOf(records, x.id).Some?
  {
    CorrectionIsTheLatest(records, x.id);
    var i :| 0 <= i < |records| && records[i].corrects == Some(x.id);
    assert Targets(records[i], x.id);
  }

  /** A row is in effect if and only if the report takes it for that and it wins: a row that is neither void nor
      corrected, but lost to another correction of its target, is reported and not in effect. */
  lemma InEffectIff(records: seq<Punch>, x: Punch)
    requires Linked(records) && x in records
    ensures IsInEffect(records, x) <==> IsReported(records, x) && Wins(records, x)
  {
    InEffectIsAnEnd(records, x);
    hide EffectiveEvents;
    if IsInEffect(records, x) {
      var r :| r in records && IsRoot(r) && EndsIn(records, r, x);
      FollowKeepsWinning(records, r, {r.id});
      ChainEndsUncorrected(records, r, {r.id});
      if IsCorrected(records, x) { CorrectedHasAWinner(records, x); }
    }
    if IsReported(records, x) && Wins(records, x) {
      var r, visited := WinnersAreReached(records, x);
      UncorrectedEnds(records, x, visited);
      assert EndsIn(records, r, x);
    }
  }

  /** No row is corrected twice and no void is corrected. */
  ghost predicate NeverForks(records: seq<Punch>) {
    && (forall p, q :: p in records && q in records && p.corrects.Some? && p.corrects == q.corrects ==> p == q)
    && (forall p, q :: p in records && q in records && q.action == Some(Void) ==> p.corrects != Some(q.id))
  }

  lemma {:induction false} WithoutForksAllWin(records: seq<Punch>, x: Punch)
    requires Linked(records) && NeverForks(records) && x in records
    ensures Wins(records, x)
    decreases x.id
  {
    if !IsRoot(x) {
      var parent := RowOf(records, x.corrects.value);
      WithoutForksAllWin(records, parent);
      CorrectionIsARow(records, parent.id);
      assert Targets(x, parent.id);
    }
  }

  /** Without forks the report and the effective events agree. */
  lemma WithoutForksTheReportAgrees(records: seq<Punch>, x: Punch)
    requires Linked(records) && NeverForks(records) && x in records
    ensures IsInEffect(records, x) <==> IsReported(records, x)
  {
    WithoutForksAllWin(records, x);
    InEffectIff(records, x);
  }

  /** Two adjustments of one punch: both are reported, the earlier one is not in effect. */
  lemma LoserIsReported(root: Punch, a: Punch, b: Punch)
    requires root.id < a.id < b.id && root.action == None && root.corrects == None
    requires a.action == b.action == Some(Adjust) && a.corrects == b.corrects == Some(root.id)
    requires a.recordedAt <= b.recordedAt
    ensures Linked([root, a, b]) && IsReported([root, a, b], a) && !IsInEffect([root, a, b], a)
  {
    var records := [root, a, b];
    assert root == records[0] && a == records[1] && b == records[2];
    assert IsLatestAt(records, root.id, 2);
    CorrectionIsTheLatest(records, root.id);
    hide CorrectionOf, EffectiveEvents;
    InEffectIff(records, a);
    assert RowOf(records, root.id).id == root.id;
  }
}
