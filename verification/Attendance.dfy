/** One employee's attendance: the punch log of every day, the versioned calculations that cache
    its result, the daily requests, the monthly closings with their snapshots, and the approved
    requests that calculations read.

    Schedules, categories, rules and time zones are constants. They live in `Settings`, together
    with the calculation and the monthly summary, which stay abstract; a fingerprint identifies
    its input, so a stored version carries the input itself. */
module Attendance {
  import opened Wrappers
  import opened Corrections
  import WorkDay

  // ---------------------------------------------------------------------------
  // What a calculation reads
  // ---------------------------------------------------------------------------

  datatype Category = Leave | Overtime | HolidayWork | AttendanceCorrection | OtherCategory

  /** An approved request, as far as calculations and punches read it. */
  datatype Approved = Approved(
    category: Category,
    from: int,
    endsOn: Option<int>,
    startAt: Option<int>,
    endAt: Option<int>,
    overtimeLimit: Option<int>)

  datatype Adjustments = Adjustments(overtimeLimit: Option<int>, holidayWork: bool)

  datatype Input = Input(date: int, events: seq<(EventType, int)>, approvals: Adjustments)

  datatype Settings<!R, M> = Settings(
    monthOf: int -> int,
    hasSchedule: int -> bool,
    calculate: Input -> R,
    summarize: (int, map<int, R>) -> M)

  function LastDayOf(a: Approved): int {
    a.endsOn.GetOr(a.from)
  }

  predicate Covers(a: Approved, date: int) {
    a.from <= date <= LastDayOf(a)
  }

  function Max(a: int, b: int): int {
    if a < b then b else a
  }

  function Adjusted(so: Adjustments, a: Approved, date: int): Adjustments {
    if !Covers(a, date) then so
    else if a.category == Overtime && a.overtimeLimit.Some? then
      so.(overtimeLimit := Some(Max(so.overtimeLimit.GetOr(0), a.overtimeLimit.value)))
    else if a.category == HolidayWork then so.(holidayWork := true)
    else so
  }

  /** What the approved requests mean for a day. */
  function AdjustmentsOn(approved: seq<Approved>, date: int): Adjustments {
    if approved == [] then Adjustments(None, false)
    else Adjusted(AdjustmentsOn(approved[..|approved| - 1], date), approved[|approved| - 1], date)
  }

  method FindApprovedAdjustments(approved: seq<Approved>, date: int) returns (r: Adjustments)
    ensures r == AdjustmentsOn(approved, date)
  {
    var overtimeLimit, holidayWork := None, false;
    for i := 0 to |approved|
      invariant Adjustments(overtimeLimit, holidayWork) == AdjustmentsOn(approved[..i], date)
    {
      assert approved[..i + 1][..i] == approved[..i];
      var row := approved[i];
      if !Covers(row, date) { continue; }
      if row.category == Overtime && row.overtimeLimit.Some? {
        overtimeLimit := Some(Max(overtimeLimit.GetOr(0), row.overtimeLimit.value));
      }
      if row.category == HolidayWork { holidayWork := true; }
    }
    assert approved[..|approved|] == approved;
    return Adjustments(overtimeLimit, holidayWork);
  }

  /** The rows come in no particular order: only which limits and kinds there are matters. */
  lemma {:induction false} AdjustmentsAreOrderFree(approved: seq<Approved>, date: int)
    ensures var r := AdjustmentsOn(approved, date);
            && (r.holidayWork <==> exists i :: 0 <= i < |approved| && IsHolidayWorkOn(approved[i], date))
            && (r.overtimeLimit == None <==> forall i :: 0 <= i < |approved| ==> !SetsLimitOn(approved[i], date))
            && (r.overtimeLimit.Some? ==>
                  && r.overtimeLimit.value >= 0
                  && (forall i :: 0 <= i < |approved| && SetsLimitOn(approved[i], date) ==>
                        approved[i].overtimeLimit.value <= r.overtimeLimit.value)
                  && (r.overtimeLimit.value == 0 ||
                      exists i :: 0 <= i < |approved| && SetsLimitOn(approved[i], date)
                                  && approved[i].overtimeLimit.value == r.overtimeLimit.value))
  {
    if approved != [] {
      var n := |approved| - 1;
      var init, last := approved[..n], approved[n];
      AdjustmentsAreOrderFree(init, date);
      AdjustedIs(AdjustmentsOn(init, date), last, date);
      hide Adjusted, SetsLimit, IsHolidayWorkOn, Covers;
      assert forall i :: 0 <= i < n ==> init[i] == approved[i];
    }
  }

  lemma AdjustedIs(so: Adjustments, a: Approved, date: int)
    ensures var r := Adjusted(so, a, date);
            && (r.holidayWork <==> so.holidayWork || IsHolidayWorkOn(a, date))
            && r.overtimeLimit ==
               if SetsLimitOn(a, date) then Some(Max(so.overtimeLimit.GetOr(0), a.overtimeLimit.value))
               else so.overtimeLimit
  {
  }

  predicate SetsLimit(a: Approved) {
    a.category == Overtime && a.overtimeLimit.Some?
  }

  predicate SetsLimitOn(a: Approved, date: int)
    ensures SetsLimitOn(a, date) ==> a.overtimeLimit.Some?
  {
    Covers(a, date) && SetsLimit(a)
  }

  predicate IsHolidayWorkOn(a: Approved, date: int) {
    Covers(a, date) && a.category == HolidayWork
  }

  /** Approving a request can change the adjustments of exactly the dates it covers, and only for
      overtime with a limit and holiday work. */
  lemma ApprovalAffectsExactlyItsDates(a: Approved, date: int)
    ensures (exists approved :: AdjustmentsOn(approved + [a], date) != AdjustmentsOn(approved, date))
            <==> && a.from <= date <= a.endsOn.GetOr(a.from)
                 && ((a.category == Overtime && a.overtimeLimit.Some?) || a.category == HolidayWork)
  {
    forall approved ensures AdjustmentsOn(approved + [a], date) == Adjusted(AdjustmentsOn(approved, date), a, date) {
      assert (approved + [a])[..|approved|] == approved;
    }
    if Covers(a, date) && (SetsLimit(a) || a.category == HolidayWork) {
      assert AdjustmentsOn([] + [a], date) != AdjustmentsOn([], date);
    }
  }

  // ---------------------------------------------------------------------------
  // Days
  // ---------------------------------------------------------------------------

  /** A stored version; `input` is what its fingerprint identifies. */
  datatype Calculation<R> = Calculation(version: nat, input: Input, result: R)

  datatype RequestState = Draft | Submitted | ApprovedState | Returned | Cancelled

  datatype RequestEvent = SubmitEvent | ApproveEvent | ReturnEvent | CancelEvent | ReopenEvent

  datatype Transition = Transition(from: RequestState, to: RequestState, event: RequestEvent)

  datatype DailyRequest = DailyRequest(
    state: RequestState, submissions: nat, returned: nat, transitions: seq<Transition>)

  datatype Day<R> = Day(punches: seq<Punch>, calculations: seq<Calculation<R>>, request: Option<DailyRequest>)

  datatype Closing = Closing(closed: bool, reopens: nat)

  datatype Snapshot<R, M> = Snapshot(sequence: nat, versions: map<int, nat>, summary: M)

  datatype State<R, M> = State(
    days: map<int, Day<R>>,
    closings: map<int, Closing>,
    snapshots: map<int, seq<Snapshot<R, M>>>,
    approved: seq<Approved>,
    nextId: nat)

  function DayOf<R, M>(s: State<R, M>, date: int): Day<R> {
    if date in s.days then s.days[date] else Day([], [], None)
  }

  function ClosingOf<R, M>(s: State<R, M>, period: int): Closing {
    if period in s.closings then s.closings[period] else Closing(false, 0)
  }

  function SnapshotsOf<R, M>(s: State<R, M>, period: int): seq<Snapshot<R, M>> {
    if period in s.snapshots then s.snapshots[period] else []
  }

  function EventsOf(punches: seq<Punch>): seq<(EventType, int)> {
    var effective := EffectiveEvents(punches);
    seq(|effective|, i requires 0 <= i < |effective| => (effective[i].eventType, effective[i].occurredAt))
  }

  /** The input a fresh calculation of the day would read. */
  function InputOf(punches: seq<Punch>, approved: seq<Approved>, date: int): Input {
    Input(date, EventsOf(punches), AdjustmentsOn(approved, date))
  }

  /** `recalculateWorkDay`: a new version exactly when the input is not that of the latest one. */
  function Recomputed<R, M>(st: Settings<R, M>, day: Day<R>, input: Input): Day<R> {
    var n := |day.calculations|;
    if n > 0 && day.calculations[n - 1].input == input then day
    else
      var version := if n == 0 then 1 else day.calculations[n - 1].version + 1;
      day.(calculations := day.calculations + [Calculation(version, input, st.calculate(input))])
  }

  function Recalculated<R, M>(st: Settings<R, M>, s: State<R, M>, date: int): State<R, M> {
    var day := DayOf(s, date);
    s.(days := s.days[date := Recomputed(st, day, InputOf(day.punches, s.approved, date))])
  }

  function RecalculatedAll<R, M>(st: Settings<R, M>, s: State<R, M>, dates: seq<int>): State<R, M> {
    if dates == [] then s
    else Recalculated(st, RecalculatedAll(st, s, dates[..|dates| - 1]), dates[|dates| - 1])
  }

  // ---------------------------------------------------------------------------
  // Requests and closings
  // ---------------------------------------------------------------------------

  /** The machine of a daily request. */
  function Target(state: RequestState, event: RequestEvent): Option<RequestState> {
    match (state, event)
    case (Draft, SubmitEvent) => Some(Submitted)
    case (Draft, CancelEvent) => Some(Cancelled)
    case (Submitted, ApproveEvent) => Some(ApprovedState)
    case (Submitted, ReturnEvent) => Some(Returned)
    case (Submitted, CancelEvent) => Some(Cancelled)
    case (Returned, SubmitEvent) => Some(Submitted)
    case (Returned, CancelEvent) => Some(Cancelled)
    case (ApprovedState, ReopenEvent) => Some(Returned)
    case _ => None
  }

  /** A service call that moves a request and records the move. */
  function Moved(r: DailyRequest, event: RequestEvent, to: RequestState): DailyRequest {
    DailyRequest(
      to,
      r.submissions + (if event == SubmitEvent then 1 else 0),
      r.returned + (if event == ReturnEvent then 1 else 0),
      r.transitions + [Transition(r.state, to, event)])
  }

  function RequestOf<R>(day: Day<R>): DailyRequest {
    day.request.GetOr(DailyRequest(Draft, 0, 0, []))
  }

  predicate AllowsEditing(state: RequestState) {
    state == Draft || state == Returned || state == Cancelled
  }

  /** `requireEditableDay` */
  predicate IsEditable<R, M>(st: Settings<R, M>, s: State<R, M>, date: int) {
    && (DayOf(s, date).request == None || AllowsEditing(DayOf(s, date).request.value.state))
    && !ClosingOf(s, st.monthOf(date)).closed
  }

  predicate IsApproved<R>(day: Day<R>) {
    day.request.Some? && day.request.value.state == ApprovedState
  }

  /** The latest result of every day of the month that has one. */
  function MonthResults<R, M>(st: Settings<R, M>, s: State<R, M>, period: int): map<int, R> {
    map date | date in s.days && st.monthOf(date) == period && s.days[date].calculations != [] ::
      s.days[date].calculations[|s.days[date].calculations| - 1].result
  }

  function MonthVersions<R, M>(st: Settings<R, M>, s: State<R, M>, period: int): map<int, nat> {
    map date | date in s.days && st.monthOf(date) == period && s.days[date].calculations != [] ::
      s.days[date].calculations[|s.days[date].calculations| - 1].version
  }

  function SummaryOf<R, M>(st: Settings<R, M>, s: State<R, M>, period: int): M {
    st.summarize(period, MonthResults(st, s, period))
  }

  function NextSequence<R, M>(snapshots: seq<Snapshot<R, M>>): nat {
    if snapshots == [] then 1
    else Max(NextSequence(snapshots[..|snapshots| - 1]), snapshots[|snapshots| - 1].sequence + 1)
  }

  /** `countUnapprovedDays` is zero. */
  predicate AllApproved<R, M>(st: Settings<R, M>, s: State<R, M>, period: int) {
    forall date :: date in s.days && st.monthOf(date) == period && s.days[date].punches != [] ==>
      IsApproved(s.days[date])
  }

  // ---------------------------------------------------------------------------
  // Steps
  // ---------------------------------------------------------------------------

  datatype Step =
    | Record(date: int, eventType: EventType, at: int, recordedAt: int)
    | Correct(date: int, eventType: EventType, at: int, action: Action, target: Option<nat>, recordedAt: int)
    | SubmitDay(date: int)
    | DecideDay(date: int, event: RequestEvent)
    | Close(period: int)
    | Reopen(period: int)
    | Approve(a: Approved, recordedAt: int)
    | Recalculate(from: int, to: int)

  lemma EffectiveEventsAreSorted(punches: seq<Punch>)
    ensures SortByTime(EffectiveEvents(punches)) == EffectiveEvents(punches)
  {
    SortIsAPermutation(ResolveRoots(punches, punches));
    SortedStaysSorted(EffectiveEvents(punches));
  }

  lemma {:induction false} SortedStaysSorted(events: seq<EffectiveEvent>)
    requires InTimeOrder(events)
    ensures SortByTime(events) == events
  {
    if events != [] {
      var init, last := events[..|events| - 1], events[|events| - 1];
      assert events == init + [last];
      assert init != [] ==> init[|init| - 1].occurredAt <= last.occurredAt;
      SortedStaysSorted(init);
      hide SortByTime, InTimeOrder;
      WorkDay.SortOneMore(init, last);
    }
  }

  /** The dates from `from` to `to`. */
  function DateRange(from: int, last: int): seq<int>
    decreases last - from
  {
    if from > last then [] else DateRange(from, last - 1) + [last]
  }

  predicate IsReflected(c: Category) {
    c == Overtime || c == HolidayWork || c == AttendanceCorrection
  }

  function AffectedDates(a: Approved): seq<int> {
    if IsReflected(a.category) then DateRange(a.from, LastDayOf(a)) else []
  }

  predicate NoneClosed<R, M>(st: Settings<R, M>, s: State<R, M>, dates: seq<int>) {
    forall i :: 0 <= i < |dates| ==> !ClosingOf(s, st.monthOf(dates[i])).closed
  }

  predicate Rewrites(a: Approved) {
    a.category == AttendanceCorrection && a.startAt.Some? && a.endAt.Some?
  }

  /** The state that the effective punches leave the day in allows this one next. */
  predicate AcceptsPunch<R>(day: Day<R>, eventType: EventType) {
    WorkDay.DecidePunch(WorkDay.StateOf(EffectiveEvents(day.punches)), eventType).Accepted?
  }

  predicate HasPunch<R>(day: Day<R>, id: nat) {
    exists i :: 0 <= i < |day.punches| && day.punches[i].id == id
  }

  /** What the service accepts; a refused call changes nothing. */
  predicate Enabled<R, M>(st: Settings<R, M>, s: State<R, M>, step: Step) {
    match step
    case Record(date, eventType, _, _) => IsEditable(st, s, date) && AcceptsPunch(DayOf(s, date), eventType)
    case Correct(date, _, _, action, target, _) =>
      && IsEditable(st, s, date)
      && (action == Add <==> target == None)
      && (target.Some? ==> HasPunch(DayOf(s, date), target.value))
    case SubmitDay(date) =>
      !ClosingOf(s, st.monthOf(date)).closed && Target(RequestOf(DayOf(s, date)).state, SubmitEvent).Some?
    case DecideDay(date, event) =>
      && DayOf(s, date).request.Some? && event in {ApproveEvent, ReturnEvent, CancelEvent}
      && Target(RequestOf(DayOf(s, date)).state, event).Some?
    case Close(period) => !ClosingOf(s, period).closed && AllApproved(st, s, period)
    case Reopen(period) => ClosingOf(s, period).closed
    case Approve(a, _) =>
      NoneClosed(st, s, AffectedDates(a)) && (Rewrites(a) ==> LastDayOf(a) == a.from)
    case Recalculate(from, to) => from <= to <= from + 61
  }

  function WithRows<R, M>(s: State<R, M>, date: int, rows: seq<Punch>): State<R, M> {
    var day := DayOf(s, date);
    s.(days := s.days[date := day.(punches := day.punches + rows)], nextId := s.nextId + |rows|)
  }

  function WithPunch<R, M>(st: Settings<R, M>, s: State<R, M>, date: int, punch: Punch): State<R, M> {
    Recalculated(st, WithRows(s, date, [punch]), date)
  }

  function Requested<R>(day: Day<R>, event: RequestEvent): Day<R> {
    var r := RequestOf(day);
    day.(request := Some(Moved(r, event, Target(r.state, event).GetOr(r.state))))
  }

  function WithRequest<R, M>(s: State<R, M>, date: int, event: RequestEvent): State<R, M> {
    s.(days := s.days[date := Requested(DayOf(s, date), event)])
  }

  function ReopenedDay<R, M>(st: Settings<R, M>, day: Day<R>, date: int, period: int): Day<R> {
    if st.monthOf(date) == period && IsApproved(day)
    then day.(request := Some(Moved(day.request.value, ReopenEvent, Returned)))
    else day
  }

  /** The bulk update of `reopenApprovedRequests` with the transitions recorded for it. */
  function WithReopened<R, M>(st: Settings<R, M>, s: State<R, M>, period: int): State<R, M> {
    s.(days := map date | date in s.days :: ReopenedDay(st, s.days[date], date, period))
  }

  function WithRewrite<R, M>(s: State<R, M>, a: Approved, recordedAt: int): State<R, M>
    requires Rewrites(a)
  {
    WithRows(s, a.from, RewriteRows(DayOf(s, a.from).punches, a.startAt.value, a.endAt.value, s.nextId, recordedAt))
  }

  /** The dates `recalculate` works on: not closed, and with punches, a schedule or a version. */
  predicate IsRecalculated<R, M>(st: Settings<R, M>, s: State<R, M>, date: int) {
    && !ClosingOf(s, st.monthOf(date)).closed
    && (DayOf(s, date).punches != [] || st.hasSchedule(date) || DayOf(s, date).calculations != [])
  }

  function DatesToRecalculate<R, M>(st: Settings<R, M>, s: State<R, M>, dates: seq<int>): seq<int> {
    if dates == [] then []
    else
      DatesToRecalculate(st, s, dates[..|dates| - 1])
      + if IsRecalculated(st, s, dates[|dates| - 1]) then [dates[|dates| - 1]] else []
  }

  function Next<R, M>(st: Settings<R, M>, s: State<R, M>, step: Step): State<R, M>
    requires Enabled(st, s, step)
  {
    match step
    case Record(date, eventType, at, recordedAt) =>
      WithPunch(st, s, date, Punch(s.nextId, eventType, at, None, None, recordedAt))
    case Correct(date, eventType, at, action, target, recordedAt) =>
      WithPunch(st, s, date, Punch(s.nextId, eventType, at, Some(action), target, recordedAt))
    case SubmitDay(date) => WithRequest(s, date, SubmitEvent)
    case DecideDay(date, event) => WithRequest(s, date, event)
    case Close(period) =>
      var closed := s.(closings := s.closings[period := Closing(true, ClosingOf(s, period).reopens)]);
      var snapshot :=
        Snapshot(
          NextSequence(SnapshotsOf(s, period)), MonthVersions(st, closed, period), SummaryOf(st, closed, period));
      closed.(snapshots := s.snapshots[period := SnapshotsOf(s, period) + [snapshot]])
    case Reopen(period) =>
      WithReopened(st, s.(closings := s.closings[period := Closing(false, ClosingOf(s, period).reopens + 1)]), period)
    case Approve(a, recordedAt) =>
      var approved := s.(approved := s.approved + [a]);
      var rewritten := if Rewrites(a) then WithRewrite(approved, a, recordedAt) else approved;
      RecalculatedAll(st, rewritten, AffectedDates(a))
    case Recalculate(from, to) => RecalculatedAll(st, s, DatesToRecalculate(st, s, DateRange(from, to)))
  }

  // ---------------------------------------------------------------------------
  // The procedures, step by step
  // ---------------------------------------------------------------------------

  method FindPunch<R>(day: Day<R>, id: nat) returns (found: bool)
    ensures found == HasPunch(day, id)
  {
    for i := 0 to |day.punches|
      invariant forall k :: 0 <= k < i ==> day.punches[k].id != id
    {
      if day.punches[i].id == id { return true; }
    }
    return false;
  }

  class Store<!R(==), !M> {
    const st: Settings<R, M>
    var days: map<int, Day<R>>
    var closings: map<int, Closing>
    var snapshots: map<int, seq<Snapshot<R, M>>>
    var approved: seq<Approved>
    var nextId: nat

    constructor (settings: Settings<R, M>)
      ensures st == settings && View() == State(map[], map[], map[], [], 0)
    {
      st, days, closings, snapshots, approved, nextId := settings, map[], map[], map[], [], 0;
    }

    function View(): State<R, M>
      reads this
    {
      State(days, closings, snapshots, approved, nextId)
    }

    /** Stores a new version when the input has changed since the latest one. */
    method RecalculateWorkDay(date: int) returns (added: bool)
      modifies this`days
      ensures View() == Recalculated(st, old(View()), date)
      ensures added <==> DayOf(View(), date) != DayOf(old(View()), date)
    {
      var day := DayOf(View(), date);
      var effective := ResolveEffectiveEvents(day.punches);
      var adjustments := FindApprovedAdjustments(approved, date);
      var events :=
        seq(|effective|, i requires 0 <= i < |effective| => (effective[i].eventType, effective[i].occurredAt));
      var input := Input(date, events, adjustments);
      var n := |day.calculations|;
      if n > 0 && day.calculations[n - 1].input == input {
        days := days[date := day];
        return false;
      }
      var version := if n == 0 then 1 else day.calculations[n - 1].version + 1;
      days := days[date := day.(calculations := day.calculations + [Calculation(version, input, st.calculate(input))])];
      return true;
    }

    /** `recordAttendanceEvent`, for a request id without a row and a settled business date. */
    method RecordPunch(date: int, eventType: EventType, at: int, recordedAt: int) returns (ok: bool)
      modifies this
      ensures ok <==> Enabled(st, old(View()), Record(date, eventType, at, recordedAt))
      ensures View() == if ok then Next(st, old(View()), Record(date, eventType, at, recordedAt)) else old(View())
    {
      if !IsEditable(st, View(), date) { return false; }
      var punches := DayOf(View(), date).punches;
      var effective := ResolveEffectiveEvents(punches);
      var day := WorkDay.SummarizeWorkDay(effective);
      EffectiveEventsAreSorted(punches);
      var decision := WorkDay.DecidePunch(day.state, eventType);
      if decision.Rejected? { return false; }
      ok := InsertPunch(date, eventType, at, None, None, recordedAt);
    }

    /** `correct`, for a request id without a row: a void or an adjustment of a punch of the day, or an added punch. */
    method CorrectPunch(date: int, eventType: EventType, at: int, action: Action, target: Option<nat>, recordedAt: int)
      returns (ok: bool)
      requires action == Add <==> target == None
      modifies this
      ensures ok <==> Enabled(st, old(View()), Correct(date, eventType, at, action, target, recordedAt))
      ensures View() == if ok then Next(st, old(View()), Correct(date, eventType, at, action, target, recordedAt))
                        else old(View())
    {
      if target.Some? {
        var found := FindPunch(DayOf(View(), date), target.value);
        if !found { return false; }
      }
      ok := InsertPunch(date, eventType, at, Some(action), target, recordedAt);
    }

    /** The end of both: the day must be editable; then the row and one recalculation. */
    method InsertPunch(
        date: int, eventType: EventType, at: int, action: Option<Action>, target: Option<nat>, recordedAt: int)
      returns (ok: bool)
      modifies this
      ensures ok <==> IsEditable(st, old(View()), date)
      ensures View() ==
              if ok then WithPunch(st, old(View()), date, Punch(old(nextId), eventType, at, action, target, recordedAt))
                        else old(View())
    {
      if !IsEditable(st, View(), date) { return false; }
      hide IsEditable, Recalculated;
      var day, punch := DayOf(View(), date), Punch(nextId, eventType, at, action, target, recordedAt);
      days := days[date := day.(punches := day.punches + [punch])];
      nextId := nextId + 1;
      assert View() == WithRows(old(View()), date, [punch]);
      hide WithRows, DayOf;
      var added := RecalculateWorkDay(date);
      return true;
    }

    /** `submit` and `decide` on a daily request: the machine decides, the move is stored and recorded. */
    method MoveRequest(date: int, event: RequestEvent) returns (ok: bool)
      requires event != ReopenEvent
      modifies this`days
      ensures var step := if event == SubmitEvent then SubmitDay(date) else DecideDay(date, event);
              && (ok <==> Enabled(st, old(View()), step))
              && View() == if ok then Next(st, old(View()), step) else old(View())
    {
      var day := DayOf(View(), date);
      if event == SubmitEvent && ClosingOf(View(), st.monthOf(date)).closed { return false; }
      if event != SubmitEvent && day.request == None { return false; }
      var current := day.request.GetOr(DailyRequest(Draft, 0, 0, []));
      var next := Target(current.state, event);
      if next == None { return false; }
      var saved := DailyRequest(
        next.value,
        if event == SubmitEvent then current.submissions + 1 else current.submissions,
        if event == ReturnEvent then current.returned + 1 else current.returned,
        current.transitions + [Transition(current.state, next.value, event)]);
      days := days[date := day.(request := Some(saved))];
      return true;
    }

    /** The reflection of an approved request: refused for a closed day, else punches and calculations follow. */
    method ApplyApproved(a: Approved, recordedAt: int) returns (ok: bool)
      modifies this
      ensures ok <==> Enabled(st, old(View()), Approve(a, recordedAt))
      ensures View() == if ok then Next(st, old(View()), Approve(a, recordedAt)) else old(View())
    {
      var dates := AffectedDates(a);
      var free := NoneIsClosed(dates);
      if !free || (Rewrites(a) && LastDayOf(a) != a.from) { return false; }
      approved := approved + [a];
      if Rewrites(a) { RewriteDay(a, recordedAt); }
      RecalculateDates(dates);
      return true;
    }

    method NoneIsClosed(dates: seq<int>) returns (free: bool)
      ensures free == NoneClosed(st, View(), dates)
    {
      for i := 0 to |dates|
        invariant forall k :: 0 <= k < i ==> !ClosingOf(View(), st.monthOf(dates[k])).closed
      {
        if ClosingOf(View(), st.monthOf(dates[i])).closed { return false; }
      }
      return true;
    }

    method RewriteDay(a: Approved, recordedAt: int)
      requires Rewrites(a)
      modifies this`days, this`nextId
      ensures View() == WithRewrite(old(View()), a, recordedAt)
    {
      var day := DayOf(View(), a.from);
      var effective := ResolveEffectiveEvents(day.punches);
      hide EffectiveEvents, OnlyClocks;
      var rows := RewriteRowsOf(OnlyClocks(effective), a.startAt.value, a.endAt.value, nextId, recordedAt);
      days, nextId := days[a.from := day.(punches := day.punches + rows)], nextId + |rows|;
    }

    method RecalculateDates(dates: seq<int>)
      modifies this`days
      ensures View() == RecalculatedAll(st, old(View()), dates)
    {
      for i := 0 to |dates|
        invariant View() == RecalculatedAll(st, old(View()), dates[..i])
      {
        assert dates[..i + 1][..i] == dates[..i];
        var added := RecalculateWorkDay(dates[i]);
      }
      assert dates[..|dates|] == dates;
    }

    /** `recalculate`: closed days are skipped and named, days without anything are passed over. */
    method RecalculateRange(from: int, last: int) returns (skipped: seq<int>)
      requires from <= last
      modifies this`days
      ensures View() == RecalculatedAll(st, old(View()), DatesToRecalculate(st, old(View()), DateRange(from, last)))
      ensures forall date :: date in skipped <==>
              from <= date <= last && ClosingOf(old(View()), st.monthOf(date)).closed
    {
      hide *;
      var before := View();
      skipped := [];
      var date := from;
      RangeNone(st, before, from);
      while date <= last
        invariant from <= date <= last + 1
        invariant View() == RecalculatedAll(st, before, DatesToRecalculate(st, before, DateRange(from, date - 1)))
        invariant forall d :: d in skipped <==> from <= d < date && ClosingOf(before, st.monthOf(d)).closed
      {
        RangeOneMore(st, before, from, date);
        var closed := RecalculateUnlessClosed(before, date);
        if closed { skipped := skipped + [date]; }
        date := date + 1;
      }
    }

    /** One day of `recalculate`; `before` is what the queries read at the start. */
    method RecalculateUnlessClosed(before: State<R, M>, date: int) returns (closed: bool)
      modifies this`days
      ensures closed == ClosingOf(before, st.monthOf(date)).closed
      ensures View() == if IsRecalculated(st, before, date) then Recalculated(st, old(View()), date) else old(View())
    {
      if ClosingOf(before, st.monthOf(date)).closed { return true; }
      hide Recalculated;
      if DayOf(before, date).punches != [] || st.hasSchedule(date) || DayOf(before, date).calculations != [] {
        var added := RecalculateWorkDay(date);
      }
      return false;
    }

    /** `close`: refused while a day with punches is not approved; the summary is taken as it is now. */
    method CloseMonth(period: int) returns (ok: bool)
      modifies this
      ensures ok <==> Enabled(st, old(View()), Close(period))
      ensures View() == if ok then Next(st, old(View()), Close(period)) else old(View())
    {
      if ClosingOf(View(), period).closed || !AllApproved(st, View(), period) { return false; }
      closings := closings[period := Closing(true, ClosingOf(View(), period).reopens)];
      var sequence := NextSequence(SnapshotsOf(View(), period));
      var snapshot := Snapshot(sequence, MonthVersions(st, View(), period), SummaryOf(st, View(), period));
      snapshots := snapshots[period := SnapshotsOf(View(), period) + [snapshot]];
      return true;
    }

    /** `reopen`: every approved request of the month goes back to returned, each with its transition. */
    method ReopenMonth(period: int) returns (ok: bool)
      modifies this
      ensures ok <==> Enabled(st, old(View()), Reopen(period))
      ensures View() == if ok then Next(st, old(View()), Reopen(period)) else old(View())
    {
      if !ClosingOf(View(), period).closed { return false; }
      closings := closings[period := Closing(false, ClosingOf(View(), period).reopens + 1)];
      var rest := days.Keys;
      while rest != {}
        invariant rest <= old(days).Keys == days.Keys
        invariant View() == old(View()).(days := days, closings := closings)
        invariant closings == old(closings)[period := Closing(false, ClosingOf(old(View()), period).reopens + 1)]
        invariant forall d :: d in days ==>
                    days[d] == if d in rest then old(days)[d] else ReopenedDay(st, old(days)[d], d, period)
      {
        NonEmpty(rest);
        var date: int :| date in rest;
        rest := rest - {date};
        days := days[date := ReopenedDay(st, days[date], date, period)];
      }
      return true;
    }
  }

  lemma NonEmpty(dates: set<int>)
    requires dates != {}
    ensures exists date :: date in dates
  {
    assert (forall date: int :: date !in dates) ==> dates == {};
  }

  lemma RangeNone<R, M>(st: Settings<R, M>, s: State<R, M>, from: int)
    ensures RecalculatedAll(st, s, DatesToRecalculate(st, s, DateRange(from, from - 1))) == s
  {
  }

  lemma RangeOneMore<R, M>(st: Settings<R, M>, s: State<R, M>, from: int, date: int)
    requires from <= date
    ensures var sofar := DatesToRecalculate(st, s, DateRange(from, date - 1));
            RecalculatedAll(st, s, DatesToRecalculate(st, s, DateRange(from, date))) ==
            if IsRecalculated(st, s, date) then Recalculated(st, RecalculatedAll(st, s, sofar), date)
            else RecalculatedAll(st, s, sofar)
  {
    hide IsRecalculated, Recalculated;
    var range, sofar := DateRange(from, date), DatesToRecalculate(st, s, DateRange(from, date - 1));
    assert range == DateRange(from, date - 1) + [date];
    assert range[..|range| - 1] == DateRange(from, date - 1) && range[|range| - 1] == date;
    if IsRecalculated(st, s, date) {
      assert (sofar + [date])[..|sofar + [date]| - 1] == sofar;
    } else {
      assert sofar + [] == sofar;
    }
  }

  // ---------------------------------------------------------------------------
  // What holds in every reachable state
  // ---------------------------------------------------------------------------

  /** Versions run 1..n, each holds the calculation of its input, and neighbours have different inputs. */
  ghost predicate VersionsOk<R, M>(st: Settings<R, M>, calculations: seq<Calculation<R>>) {
    && (forall i :: 0 <= i < |calculations| ==>
          calculations[i].version == i + 1 && calculations[i].result == st.calculate(calculations[i].input))
    && (forall i :: 0 < i < |calculations| ==> calculations[i].input != calculations[i - 1].input)
  }

  /** The latest version is absent or that of the current input. */
  predicate IsFresh<R>(day: Day<R>, input: Input) {
    day.calculations == [] || day.calculations[|day.calculations| - 1].input == input
  }

  function CountOf(transitions: seq<Transition>, event: RequestEvent): nat {
    if transitions == [] then 0
    else
      var last := transitions[|transitions| - 1];
      CountOf(transitions[..|transitions| - 1], event) + if last.event == event then 1 else 0
  }

  /** The recorded transitions lead from draft to the stored state, one machine move at a time. */
  predicate IsChain(r: DailyRequest) {
    && r.transitions != []
    && r.transitions[0].from == Draft
    && (forall i :: 0 < i < |r.transitions| ==> r.transitions[i].from == r.transitions[i - 1].to)
    && (forall i :: 0 <= i < |r.transitions| ==>
          Target(r.transitions[i].from, r.transitions[i].event) == Some(r.transitions[i].to))
    && r.transitions[|r.transitions| - 1].to == r.state
    && r.submissions == CountOf(r.transitions, SubmitEvent) && r.returned == CountOf(r.transitions, ReturnEvent)
  }

  /** Rows stand in the order of their ids, and a correction names an older row. */
  predicate IsLog(punches: seq<Punch>, bound: nat) {
    && (forall i, j :: 0 <= i < j < |punches| ==> punches[i].id < punches[j].id)
    && (forall i :: 0 <= i < |punches| ==> punches[i].id < bound)
    && (forall i :: 0 <= i < |punches| && punches[i].corrects.Some? ==> punches[i].corrects.value < punches[i].id)
  }

  ghost predicate DayOk<R, M>(st: Settings<R, M>, day: Day<R>, input: Input, bound: nat) {
    && VersionsOk(st, day.calculations) && IsFresh(day, input)
    && (day.request.Some? ==> IsChain(day.request.value))
    && IsLog(day.punches, bound)
  }

  ghost predicate DateOk<R, M>(st: Settings<R, M>, s: State<R, M>, date: int) {
    DayOk(st, DayOf(s, date), InputOf(DayOf(s, date).punches, s.approved, date), s.nextId)
  }

  ghost predicate MonthOk<R, M>(st: Settings<R, M>, s: State<R, M>, period: int) {
    var snapshots, closing := SnapshotsOf(s, period), ClosingOf(s, period);
    && (forall i :: 0 <= i < |snapshots| ==> snapshots[i].sequence == i + 1)
    && |snapshots| == closing.reopens + (if closing.closed then 1 else 0)
    && (closing.closed ==>
          && AllApproved(st, s, period)
          && snapshots[|snapshots| - 1].summary == SummaryOf(st, s, period)
          && snapshots[|snapshots| - 1].versions == MonthVersions(st, s, period))
  }

  ghost predicate Inv<R(!new), M(!new)>(st: Settings<R, M>, s: State<R, M>) {
    (forall date :: DateOk(st, s, date)) && (forall period :: MonthOk(st, s, period))
  }

  lemma InitialInv<R(!new), M(!new)>(st: Settings<R, M>, nextId: nat)
    ensures Inv(st, State(map[], map[], map[], [], nextId))
  {
  }

  // ---------------------------------------------------------------------------
  // Recalculation
  // ---------------------------------------------------------------------------

  lemma RecomputedIsFresh<R, M>(st: Settings<R, M>, day: Day<R>, input: Input)
    requires VersionsOk(st, day.calculations)
    ensures var day' := Recomputed(st, day, input);
            && VersionsOk(st, day'.calculations) && IsFresh(day', input) && day'.calculations != []
            && day'.punches == day.punches && day'.request == day.request
  {
  }

  /** Recalculating a list of dates recomputes each of them once, and nothing else. */
  lemma {:induction false} RecalculatedAllEffect<R, M>(st: Settings<R, M>, s: State<R, M>, dates: seq<int>)
    ensures var s' := RecalculatedAll(st, s, dates);
            && s' == s.(days := s'.days)
            && forall date :: DayOf(s', date) ==
                 if date in dates then Recomputed(st, DayOf(s, date), InputOf(DayOf(s, date).punches, s.approved, date))
                 else DayOf(s, date)
  {
    hide InputOf;
    if dates != [] {
      RecalculatedAllEffect(st, s, dates[..|dates| - 1]);
      assert dates == dates[..|dates| - 1] + [dates[|dates| - 1]];
    }
  }

  lemma {:induction false} DateRangeIs(from: int, last: int, date: int)
    ensures date in DateRange(from, last) <==> from <= date <= last
    decreases last - from
  {
    if from <= last { DateRangeIs(from, last - 1, date); }
  }

  lemma {:induction false} DatesToRecalculateAre<R, M>(st: Settings<R, M>, s: State<R, M>, dates: seq<int>)
    ensures forall date :: date in DatesToRecalculate(st, s, dates) <==> date in dates && IsRecalculated(st, s, date)
  {
    hide IsRecalculated;
    if dates != [] {
      DatesToRecalculateAre(st, s, dates[..|dates| - 1]);
      assert dates == dates[..|dates| - 1] + [dates[|dates| - 1]];
    }
  }

  /** After a recalculation the listed days are fresh; the others are as they were. */
  lemma RecalculatedAllKeepsDates<R(!new), M(!new)>(st: Settings<R, M>, s: State<R, M>, dates: seq<int>)
    requires forall date :: date !in dates ==> DateOk(st, s, date)
    requires forall date :: date in dates ==>
               && VersionsOk(st, DayOf(s, date).calculations) && IsLog(DayOf(s, date).punches, s.nextId)
               && (DayOf(s, date).request.Some? ==> IsChain(DayOf(s, date).request.value))
    ensures forall date :: DateOk(st, RecalculatedAll(st, s, dates), date)
  {
    RecalculatedAllEffect(st, s, dates);
    hide InputOf, RecalculatedAll, IsChain, IsLog, VersionsOk, IsFresh, Recomputed;
    forall date ensures DateOk(st, RecalculatedAll(st, s, dates), date) {
      if date in dates {
        RecomputedIsFresh(st, DayOf(s, date), InputOf(DayOf(s, date).punches, s.approved, date));
      } else {
        assert DateOk(st, s, date);
      }
    }
  }

  // ---------------------------------------------------------------------------
  // A month that does not move
  // ---------------------------------------------------------------------------

  /** No punch and no version of the month changes, and what was approved stays approved. */
  ghost predicate IsFrozen<R, M>(st: Settings<R, M>, s: State<R, M>, s': State<R, M>, period: int) {
    forall date :: st.monthOf(date) == period ==>
      && DayOf(s', date).punches == DayOf(s, date).punches
      && DayOf(s', date).calculations == DayOf(s, date).calculations
      && (IsApproved(DayOf(s, date)) ==> IsApproved(DayOf(s', date)))
  }

  lemma MonthIsItsDays<R, M>(st: Settings<R, M>, s: State<R, M>, period: int)
    ensures forall date :: date in MonthResults(st, s, period) <==>
              st.monthOf(date) == period && DayOf(s, date).calculations != []
    ensures MonthVersions(st, s, period).Keys == MonthResults(st, s, period).Keys
    ensures forall date :: date in MonthResults(st, s, period) ==>
              var last := DayOf(s, date).calculations[|DayOf(s, date).calculations| - 1];
              MonthResults(st, s, period)[date] == last.result && MonthVersions(st, s, period)[date] == last.version
  {
  }

  lemma FrozenMonthKeepsItsValues<R, M>(st: Settings<R, M>, s: State<R, M>, s': State<R, M>, period: int)
    requires IsFrozen(st, s, s', period)
    ensures MonthResults(st, s', period) == MonthResults(st, s, period)
    ensures MonthVersions(st, s', period) == MonthVersions(st, s, period)
  {
    MonthIsItsDays(st, s, period);
    MonthIsItsDays(st, s', period);
    var results, results' := MonthResults(st, s, period), MonthResults(st, s', period);
    var versions, versions' := MonthVersions(st, s, period), MonthVersions(st, s', period);
    hide MonthResults, MonthVersions, IsApproved;
    forall date ensures date in results' <==> date in results {
      assert st.monthOf(date) == period ==> DayOf(s', date).calculations == DayOf(s, date).calculations;
    }
    assert versions'.Keys == versions.Keys;
    forall date | date in results ensures results'[date] == results[date] && versions'[date] == versions[date] {
      assert DayOf(s', date).calculations == DayOf(s, date).calculations;
    }
  }

  lemma FrozenMonthStaysApproved<R, M>(st: Settings<R, M>, s: State<R, M>, s': State<R, M>, period: int)
    requires IsFrozen(st, s, s', period) && AllApproved(st, s, period)
    ensures AllApproved(st, s', period)
  {
    forall date | date in s'.days && st.monthOf(date) == period && s'.days[date].punches != []
      ensures IsApproved(s'.days[date])
    {
      assert DayOf(s', date).punches == DayOf(s, date).punches;
    }
  }

  lemma FrozenMonthStaysOk<R, M>(st: Settings<R, M>, s: State<R, M>, s': State<R, M>, period: int)
    requires MonthOk(st, s, period)
    requires ClosingOf(s', period) == ClosingOf(s, period) && SnapshotsOf(s', period) == SnapshotsOf(s, period)
    requires ClosingOf(s, period).closed ==> IsFrozen(st, s, s', period)
    ensures MonthOk(st, s', period)
  {
    if ClosingOf(s, period).closed {
      FrozenMonthKeepsItsValues(st, s, s', period);
      FrozenMonthStaysApproved(st, s, s', period);
    }
    hide MonthResults, MonthVersions, AllApproved, IsFrozen;
  }

  // ---------------------------------------------------------------------------
  // Every step keeps every day
  // ---------------------------------------------------------------------------

  /** What of a day does not depend on the input it is compared with. */
  ghost predicate StoredOk<R, M>(st: Settings<R, M>, day: Day<R>, bound: nat) {
    && VersionsOk(st, day.calculations) && IsLog(day.punches, bound)
    && (day.request.Some? ==> IsChain(day.request.value))
  }

  lemma StoredPart<R, M>(st: Settings<R, M>, s: State<R, M>, date: int)
    requires DateOk(st, s, date)
    ensures StoredOk(st, DayOf(s, date), s.nextId)
  {
  }

  lemma RecalculatedOne<R, M>(st: Settings<R, M>, s: State<R, M>, date: int)
    ensures RecalculatedAll(st, s, [date]) == Recalculated(st, s, date)
  {
    assert [date][..0] == [];
  }

  lemma AppendKeepsLog(punches: seq<Punch>, p: Punch, bound: nat)
    requires IsLog(punches, bound) && p.id == bound && (p.corrects.Some? ==> p.corrects.value < bound)
    ensures IsLog(punches + [p], bound + 1)
  {
  }

  lemma LogBoundGrows(punches: seq<Punch>, bound: nat, bound': nat)
    requires IsLog(punches, bound) && bound <= bound'
    ensures IsLog(punches, bound')
  {
  }

  /** A state that differs in one day's punches, which are then recalculated. */
  lemma RewrittenDayKeepsDates<R(!new), M(!new)>(
    st: Settings<R, M>, s: State<R, M>, s1: State<R, M>, date: int, dates: seq<int>)
    requires (forall d :: DateOk(st, s, d)) && date in dates
    requires s.nextId <= s1.nextId
    requires forall d :: d != date ==> DayOf(s1, d) == DayOf(s, d)
    requires forall d :: d !in dates ==> AdjustmentsOn(s1.approved, d) == AdjustmentsOn(s.approved, d)
    requires StoredOk(st, DayOf(s1, date), s1.nextId)
    ensures forall d :: DateOk(st, RecalculatedAll(st, s1, dates), d)
  {
    hide VersionsOk, IsChain, IsFresh, RecalculatedAll, AdjustmentsOn;
    forall d ensures StoredOk(st, DayOf(s1, d), s1.nextId) && (d !in dates ==> DateOk(st, s1, d)) {
      assert DateOk(st, s, d);
      LogBoundGrows(DayOf(s, d).punches, s.nextId, s1.nextId);
    }
    RecalculatedAllKeepsDates(st, s1, dates);
  }

  lemma RowsEffect<R, M>(st: Settings<R, M>, s: State<R, M>, date: int, rows: seq<Punch>)
    requires DateOk(st, s, date) && IsLog(DayOf(s, date).punches + rows, s.nextId + |rows|)
    ensures var s1 := WithRows(s, date, rows);
            && s1 == s.(days := s1.days, nextId := s.nextId + |rows|)
            && (forall d :: d != date ==> DayOf(s1, d) == DayOf(s, d))
            && StoredOk(st, DayOf(s1, date), s1.nextId)
  {
  }

  lemma WithPunchIs<R, M>(st: Settings<R, M>, s: State<R, M>, date: int, p: Punch)
    ensures WithPunch(st, s, date, p) == RecalculatedAll(st, WithRows(s, date, [p]), [date])
  {
    hide Recomputed, InputOf, WithRows;
    RecalculatedOne(st, WithRows(s, date, [p]), date);
  }

  lemma PunchKeepsDates<R(!new), M(!new)>(st: Settings<R, M>, s: State<R, M>, date: int, p: Punch)
    requires forall d :: DateOk(st, s, d)
    requires p.id == s.nextId && (p.corrects.Some? ==> p.corrects.value < s.nextId)
    ensures forall d :: DateOk(st, WithPunch(st, s, date, p), d)
  {
    var s1 := WithRows(s, date, [p]);
    hide *;
    WithPunchIs(st, s, date, p);
    DayIsALog(st, s, date);
    AppendKeepsLog(DayOf(s, date).punches, p, s.nextId);
    RowsEffect(st, s, date, [p]);
    RewrittenDayKeepsDates(st, s, s1, date, [date]);
  }

  lemma DayIsALog<R, M>(st: Settings<R, M>, s: State<R, M>, date: int)
    requires DateOk(st, s, date)
    ensures IsLog(DayOf(s, date).punches, s.nextId)
  {
  }

  lemma MovedIsAChain(r: DailyRequest, event: RequestEvent, to: RequestState)
    requires r.transitions == [] ==> r.state == Draft && r.submissions == 0 && r.returned == 0
    requires r.transitions != [] ==> IsChain(r)
    requires Target(r.state, event) == Some(to)
    ensures IsChain(Moved(r, event, to))
  {
    var moved := Moved(r, event, to);
    assert moved.transitions[..|moved.transitions| - 1] == r.transitions;
  }

  lemma RequestedIsOk<R, M>(st: Settings<R, M>, s: State<R, M>, date: int, event: RequestEvent)
    requires DateOk(st, s, date) && Target(RequestOf(DayOf(s, date)).state, event).Some?
    ensures DateOk(st, WithRequest(s, date, event), date)
  {
    var r := RequestOf(DayOf(s, date));
    if r.transitions != [] { assert IsChain(r); }
    MovedIsAChain(r, event, Target(r.state, event).value);
    hide IsChain, VersionsOk, InputOf, IsLog, Target, Moved;
  }

  lemma RequestKeepsDates<R(!new), M(!new)>(st: Settings<R, M>, s: State<R, M>, date: int, event: RequestEvent)
    requires forall d :: DateOk(st, s, d)
    requires Target(RequestOf(DayOf(s, date)).state, event).Some?
    ensures forall d :: DateOk(st, WithRequest(s, date, event), d)
  {
    RequestedIsOk(st, s, date, event);
    hide DayOk, InputOf, Requested;
    forall d ensures DateOk(st, WithRequest(s, date, event), d) { assert DateOk(st, s, d); }
  }

  lemma ReopenKeepsDates<R(!new), M(!new)>(st: Settings<R, M>, s: State<R, M>, period: int)
    requires forall d :: DateOk(st, s, d)
    ensures forall d :: DateOk(st, WithReopened(st, s, period), d)
  {
    forall d ensures DateOk(st, WithReopened(st, s, period), d) {
      assert DateOk(st, s, d);
      if IsApproved(DayOf(s, d)) { MovedIsAChain(DayOf(s, d).request.value, ReopenEvent, Returned); }
      hide IsChain, VersionsOk, InputOf, IsLog;
    }
  }

  lemma SameDaysKeepDates<R(!new), M(!new)>(st: Settings<R, M>, s: State<R, M>, s': State<R, M>)
    requires forall d :: DateOk(st, s, d)
    requires s'.days == s.days && s'.approved == s.approved && s'.nextId == s.nextId
    ensures forall d :: DateOk(st, s', d)
  {
    hide DayOk, InputOf;
    forall d ensures DateOk(st, s', d) { assert DateOk(st, s, d); }
  }

  lemma RewriteKeepsLog(punches: seq<Punch>, clockIn: int, clockOut: int, bound: nat, recordedAt: int)
    requires IsLog(punches, bound)
    ensures var rows := RewriteRows(punches, clockIn, clockOut, bound, recordedAt);
            IsLog(punches + rows, bound + |rows|)
  {
    EffectiveIdsBelow(punches, punches, bound);
    var clocks := OnlyClocks(EffectiveEvents(punches));
    OnlyClocksAreEffective(EffectiveEvents(punches));
    hide EffectiveEvents, OnlyClocks;
    VoidsAreALog(clocks, clockIn, clockOut, bound, recordedAt);
    JoinedLogs(punches, RewriteRowsOf(clocks, clockIn, clockOut, bound, recordedAt), bound);
  }

  lemma {:induction false} OnlyClocksAreEffective(events: seq<EffectiveEvent>)
    ensures forall e :: e in OnlyClocks(events) ==> e in events
  {
    if events != [] {
      OnlyClocksAreEffective(events[..|events| - 1]);
    }
  }

  predicate StartsAt(rows: seq<Punch>, bound: nat) {
    forall i :: 0 <= i < |rows| ==>
      rows[i].id == bound + i && (rows[i].corrects.Some? ==> rows[i].corrects.value < bound)
  }

  lemma VoidsAreALog(clocks: seq<EffectiveEvent>, clockIn: int, clockOut: int, bound: nat, recordedAt: int)
    requires forall e :: e in clocks ==> e.id < bound
    ensures StartsAt(RewriteRowsOf(clocks, clockIn, clockOut, bound, recordedAt), bound)
  {
  }

  lemma JoinedLogs(punches: seq<Punch>, rows: seq<Punch>, bound: nat)
    requires IsLog(punches, bound) && StartsAt(rows, bound)
    ensures IsLog(punches + rows, bound + |rows|)
  {
  }

  lemma ApproveKeepsDates<R(!new), M(!new)>(st: Settings<R, M>, s: State<R, M>, a: Approved, recordedAt: int)
    requires (forall d :: DateOk(st, s, d)) && Enabled(st, s, Approve(a, recordedAt))
    ensures forall d :: DateOk(st, Next(st, s, Approve(a, recordedAt)), d)
  {
    if Rewrites(a) {
      RewriteKeepsDates(st, s, a, recordedAt);
    } else {
      ApprovalKeepsDates(st, s, a);
    }
    hide DateOk, WithRewrite, AffectedDates, RecalculatedAll, NoneClosed;
  }

  lemma RewriteKeepsDates<R(!new), M(!new)>(st: Settings<R, M>, s: State<R, M>, a: Approved, recordedAt: int)
    requires (forall d :: DateOk(st, s, d)) && Rewrites(a) && LastDayOf(a) == a.from
    ensures var rewritten := WithRewrite(s.(approved := s.approved + [a]), a, recordedAt);
            forall d :: DateOk(st, RecalculatedAll(st, rewritten, AffectedDates(a)), d)
  {
    var rows := RewriteRows(DayOf(s, a.from).punches, a.startAt.value, a.endAt.value, s.nextId, recordedAt);
    var s1 := s.(approved := s.approved + [a]);
    assert WithRewrite(s1, a, recordedAt) == WithRows(s, a.from, rows).(approved := s1.approved);
    RewriteIsALog(st, s, a, recordedAt);
    RowsEffect(st, s, a.from, rows);
    hide *;
    ItsDayIsAffected(a);
    forall d ensures d !in AffectedDates(a) ==> AdjustmentsOn(s1.approved, d) == AdjustmentsOn(s.approved, d) {
      ApprovalReachesItsDates(s.approved, a, d);
    }
    SameDaysOf(WithRows(s, a.from, rows), s1.approved);
    RewrittenDayKeepsDates(st, s, WithRewrite(s1, a, recordedAt), a.from, AffectedDates(a));
  }

  lemma SameDaysOf<R, M>(s: State<R, M>, approved: seq<Approved>)
    ensures forall d :: DayOf(s.(approved := approved), d) == DayOf(s, d)
  {
  }

  lemma RewriteIsALog<R, M>(st: Settings<R, M>, s: State<R, M>, a: Approved, recordedAt: int)
    requires DateOk(st, s, a.from) && Rewrites(a)
    ensures var rows := RewriteRows(DayOf(s, a.from).punches, a.startAt.value, a.endAt.value, s.nextId, recordedAt);
            IsLog(DayOf(s, a.from).punches + rows, s.nextId + |rows|)
  {
    hide RewriteRows, VersionsOk, IsChain, IsLog;
    RewriteKeepsLog(DayOf(s, a.from).punches, a.startAt.value, a.endAt.value, s.nextId, recordedAt);
  }

  lemma ApprovalKeepsDates<R(!new), M(!new)>(st: Settings<R, M>, s: State<R, M>, a: Approved)
    requires forall d :: DateOk(st, s, d)
    ensures forall d :: DateOk(st, RecalculatedAll(st, s.(approved := s.approved + [a]), AffectedDates(a)), d)
  {
    var dates, s1 := AffectedDates(a), s.(approved := s.approved + [a]);
    hide VersionsOk, IsChain, IsLog, IsFresh, AdjustmentsOn, AffectedDates, RecalculatedAll;
    forall d ensures StoredOk(st, DayOf(s1, d), s1.nextId) && (d !in dates ==> DateOk(st, s1, d)) {
      assert DateOk(st, s, d);
      ApprovalReachesItsDates(s.approved, a, d);
    }
    RecalculatedAllKeepsDates(st, s1, dates);
  }

  lemma ItsDayIsAffected(a: Approved)
    requires Rewrites(a) && LastDayOf(a) == a.from
    ensures a.from in AffectedDates(a)
  {
    DateRangeIs(a.from, LastDayOf(a), a.from);
  }

  lemma ApprovalReachesItsDates(approved: seq<Approved>, a: Approved, date: int)
    ensures date !in AffectedDates(a) ==> AdjustmentsOn(approved + [a], date) == AdjustmentsOn(approved, date)
  {
    DateRangeIs(a.from, LastDayOf(a), date);
    assert (approved + [a])[..|approved|] == approved;
  }

  // ---------------------------------------------------------------------------
  // A closed month does not move
  // ---------------------------------------------------------------------------

  /** The step leaves the month's days, its closing and its snapshots as they were. */
  ghost predicate Untouched<R, M>(st: Settings<R, M>, s: State<R, M>, s': State<R, M>, period: int) {
    && IsFrozen(st, s, s', period)
    && ClosingOf(s', period) == ClosingOf(s, period) && SnapshotsOf(s', period) == SnapshotsOf(s, period)
  }

  lemma RecalculationElsewhere<R, M>(
    st: Settings<R, M>, s: State<R, M>, s1: State<R, M>, dates: seq<int>, period: int)
    requires s1.closings == s.closings && s1.snapshots == s.snapshots
    requires forall d :: st.monthOf(d) == period ==> d !in dates && DayOf(s1, d) == DayOf(s, d)
    ensures Untouched(st, s, RecalculatedAll(st, s1, dates), period)
  {
    RecalculatedAllEffect(st, s1, dates);
    hide RecalculatedAll, Recomputed, InputOf, IsApproved;
    forall d | st.monthOf(d) == period ensures DayOf(RecalculatedAll(st, s1, dates), d) == DayOf(s, d) {
      assert d !in dates;
    }
  }

  lemma PunchElsewhere<R, M>(st: Settings<R, M>, s: State<R, M>, date: int, p: Punch, period: int)
    requires st.monthOf(date) != period
    ensures Untouched(st, s, WithPunch(st, s, date, p), period)
  {
    WithPunchIs(st, s, date, p);
    hide WithPunch, RecalculatedAll, Untouched;
    RecalculationElsewhere(st, s, WithRows(s, date, [p]), [date], period);
  }

  lemma ApprovedRequestStays<R, M>(st: Settings<R, M>, s: State<R, M>, date: int, event: RequestEvent, period: int)
    requires Target(RequestOf(DayOf(s, date)).state, event).Some? && event != ReopenEvent
    ensures Untouched(st, s, WithRequest(s, date, event), period)
  {
  }

  lemma ApprovalElsewhere<R, M>(st: Settings<R, M>, s: State<R, M>, a: Approved, recordedAt: int, period: int)
    requires Enabled(st, s, Approve(a, recordedAt)) && ClosingOf(s, period).closed
    ensures Untouched(st, s, Next(st, s, Approve(a, recordedAt)), period)
  {
    var s1 := s.(approved := s.approved + [a]);
    var s2 := if Rewrites(a) then WithRewrite(s1, a, recordedAt) else s1;
    if Rewrites(a) { ItsDayIsAffected(a); }
    hide AffectedDates, RecalculatedAll, RewriteRows, Untouched, Rewrites;
    forall d | st.monthOf(d) == period ensures d !in AffectedDates(a) && DayOf(s2, d) == DayOf(s, d) {
      assert d !in AffectedDates(a);
    }
    RecalculationElsewhere(st, s, s2, AffectedDates(a), period);
  }

  lemma RangeElsewhere<R, M>(st: Settings<R, M>, s: State<R, M>, from: int, last: int, period: int)
    requires ClosingOf(s, period).closed
    ensures Untouched(st, s, RecalculatedAll(st, s, DatesToRecalculate(st, s, DateRange(from, last))), period)
  {
    DatesToRecalculateAre(st, s, DateRange(from, last));
    hide DatesToRecalculate, RecalculatedAll, DateRange, Untouched;
    RecalculationElsewhere(st, s, s, DatesToRecalculate(st, s, DateRange(from, last)), period);
  }

  lemma OtherMonthMoves<R, M>(st: Settings<R, M>, s: State<R, M>, step: Step, period: int)
    requires Enabled(st, s, step) && (step.Close? || step.Reopen?) && step.period != period
    ensures Untouched(st, s, Next(st, s, step), period)
  {
  }

  /** Nothing but its own reopening moves a closed month. */
  lemma ClosedMonthIsUntouched<R, M>(st: Settings<R, M>, s: State<R, M>, step: Step, period: int)
    requires Enabled(st, s, step) && ClosingOf(s, period).closed && step != Reopen(period)
    ensures Untouched(st, s, Next(st, s, step), period)
  {
    hide Untouched, WithPunch, WithRequest, RecalculatedAll, DatesToRecalculate, NoneClosed, AllApproved;
    match step {
      case Record(date, eventType, at, recordedAt) =>
        PunchElsewhere(st, s, date, Punch(s.nextId, eventType, at, None, None, recordedAt), period);
      case Correct(date, eventType, at, action, target, recordedAt) =>
        PunchElsewhere(st, s, date, Punch(s.nextId, eventType, at, Some(action), target, recordedAt), period);
      case SubmitDay(date) => ApprovedRequestStays(st, s, date, SubmitEvent, period);
      case DecideDay(date, event) => ApprovedRequestStays(st, s, date, event, period);
      case Close(p) => OtherMonthMoves(st, s, step, period);
      case Reopen(p) => OtherMonthMoves(st, s, step, period);
      case Approve(a, recordedAt) => ApprovalElsewhere(st, s, a, recordedAt, period);
      case Recalculate(from, last) => RangeElsewhere(st, s, from, last, period);
    }
  }

  // ---------------------------------------------------------------------------
  // A day that was handed in keeps its punches
  // ---------------------------------------------------------------------------

  /** The request of the day is submitted or approved. */
  predicate IsHandedIn<R>(day: Day<R>) {
    day.request.Some? && (day.request.value.state == Submitted || day.request.value.state == ApprovedState)
  }

  /** The approval of a correction of that very day. */
  predicate Corrects(step: Step, date: int) {
    step.Approve? && step.a.category == AttendanceCorrection && step.a.from == date
  }

  /** A punch is taken if and only if the month is not closed, the request of the day, if there is one, is a draft,
      returned or cancelled, and the day's state allows the punch; the same goes for a correction, of a punch of the
      day or of none. */
  lemma PunchIsTakenIff<R(!new), M(!new)>(
    st: Settings<R, M>, s: State<R, M>, date: int, t: EventType, at: int, action: Action, target: Option<nat>,
    recordedAt: int)
    ensures var period, request := st.monthOf(date), DayOf(s, date).request;
            var open :=
              && (period in s.closings ==> !s.closings[period].closed)
              && (request.Some? ==> request.value.state in {Draft, Returned, Cancelled});
            && (Enabled(st, s, Record(date, t, at, recordedAt)) <==> open && AcceptsPunch(DayOf(s, date), t))
            && (Enabled(st, s, Correct(date, t, at, action, target, recordedAt)) <==>
                && open && (action == Add <==> target == None)
                && (target.Some? ==> exists i :: 0 <= i < |DayOf(s, date).punches|
                                                && DayOf(s, date).punches[i].id == target.value))
  {
    hide AcceptsPunch;
  }

  lemma PunchesAfterRecalculation<R, M>(st: Settings<R, M>, s: State<R, M>, dates: seq<int>, date: int)
    ensures DayOf(RecalculatedAll(st, s, dates), date).punches == DayOf(s, date).punches
  {
    RecalculatedAllEffect(st, s, dates);
    hide RecalculatedAll, InputOf;
  }

  /** No step but the approval of a correction of that very day changes the punches of a day that was handed in, whether
      its month is closed or not. */
  lemma HandedInDayKeepsItsPunches<R(!new), M(!new)>(st: Settings<R, M>, s: State<R, M>, step: Step, date: int)
    requires Enabled(st, s, step) && IsHandedIn(DayOf(s, date)) && !Corrects(step, date)
    ensures DayOf(Next(st, s, step), date).punches == DayOf(s, date).punches
  {
    hide InputOf, AcceptsPunch, RewriteRows, AdjustmentsOn, DatesToRecalculate, AffectedDates;
    match step {
      case Record(d, eventType, at, recordedAt) =>
        WithPunchIs(st, s, d, Punch(s.nextId, eventType, at, None, None, recordedAt));
        var row := Punch(s.nextId, eventType, at, None, None, recordedAt);
        PunchesAfterRecalculation(st, WithRows(s, d, [row]), [d], date);
      case Correct(d, eventType, at, action, target, recordedAt) =>
        var p := Punch(s.nextId, eventType, at, Some(action), target, recordedAt);
        WithPunchIs(st, s, d, p);
        PunchesAfterRecalculation(st, WithRows(s, d, [p]), [d], date);
      case Approve(a, recordedAt) =>
        var approved := s.(approved := s.approved + [a]);
        var rewritten := if Rewrites(a) then WithRewrite(approved, a, recordedAt) else approved;
        PunchesAfterRecalculation(st, rewritten, AffectedDates(a), date);
      case Recalculate(from, last) =>
        PunchesAfterRecalculation(st, s, DatesToRecalculate(st, s, DateRange(from, last)), date);
      case _ =>
    }
  }

  /** Over any run, from when a day is handed in for as long as it stays so. */
  lemma {:induction false} HandedInDayStays<R(!new), M(!new)>(
    st: Settings<R, M>, states: seq<State<R, M>>, steps: seq<Step>, date: int, i: nat, j: nat)
    requires IsRun(st, states, steps) && i <= j < |states|
    requires forall k :: i <= k < j ==> IsHandedIn(DayOf(states[k], date)) && !Corrects(steps[k], date)
    ensures DayOf(states[j], date).punches == DayOf(states[i], date).punches
    decreases j
  {
    hide Next, Enabled, IsHandedIn, Corrects;
    if i < j {
      HandedInDayStays(st, states, steps, date, i, j - 1);
      HandedInDayKeepsItsPunches(st, states[j - 1], steps[j - 1], date);
    }
  }

  /** Which moves a daily request allows, and where they lead; nothing else of the day moves. */
  lemma RequestMovesIff<R(!new), M(!new)>(st: Settings<R, M>, s: State<R, M>, date: int, event: RequestEvent)
    requires event != ReopenEvent
    ensures var step := if event == SubmitEvent then SubmitDay(date) else DecideDay(date, event);
            var day, period := DayOf(s, date), st.monthOf(date);
            Enabled(st, s, step) <==>
            if event == SubmitEvent then
              && (period in s.closings ==> !s.closings[period].closed)
              && (day.request.Some? ==> day.request.value.state in {Draft, Returned})
            else if event == CancelEvent then
              day.request.Some? && day.request.value.state in {Draft, Submitted, Returned}
            else day.request.Some? && day.request.value.state == Submitted
    ensures var step := if event == SubmitEvent then SubmitDay(date) else DecideDay(date, event);
            var day := DayOf(s, date);
            Enabled(st, s, step) ==>
              var day' := DayOf(Next(st, s, step), date);
              && day'.punches == day.punches && day'.calculations == day.calculations
              && HasState(day',
                          if event == SubmitEvent then Submitted
                          else if event == ApproveEvent then ApprovedState
                          else if event == ReturnEvent then Returned else Cancelled)
  {
  }

  predicate HasState<R>(day: Day<R>, state: RequestState) {
    day.request.Some? && day.request.value.state == state
  }

  // ---------------------------------------------------------------------------
  // Every step keeps every month
  // ---------------------------------------------------------------------------

  lemma {:induction false} NextSequenceIsNext<R, M>(snapshots: seq<Snapshot<R, M>>)
    requires forall i :: 0 <= i < |snapshots| ==> snapshots[i].sequence == i + 1
    ensures NextSequence(snapshots) == |snapshots| + 1
  {
    if snapshots != [] { NextSequenceIsNext(snapshots[..|snapshots| - 1]); }
  }

  lemma CloseKeepsMonth<R, M>(st: Settings<R, M>, s: State<R, M>, period: int)
    requires MonthOk(st, s, period) && Enabled(st, s, Close(period))
    ensures MonthOk(st, Next(st, s, Close(period)), period)
  {
    var s' := Next(st, s, Close(period));
    NextSequenceIsNext(SnapshotsOf(s, period));
    assert MonthResults(st, s', period) == MonthResults(st, s, period);
    assert MonthVersions(st, s', period) == MonthVersions(st, s, period);
    hide NextSequence, MonthResults, MonthVersions;
  }

  lemma ReopenKeepsMonth<R, M>(st: Settings<R, M>, s: State<R, M>, period: int)
    requires MonthOk(st, s, period) && Enabled(st, s, Reopen(period))
    ensures MonthOk(st, Next(st, s, Reopen(period)), period)
  {
    hide MonthResults, MonthVersions, AllApproved;
  }

  /** Outside `Close` and `Reopen` no step touches a closing or a snapshot. */
  lemma ClosingsStay<R, M>(st: Settings<R, M>, s: State<R, M>, step: Step)
    requires Enabled(st, s, step) && !step.Close? && !step.Reopen?
    ensures Next(st, s, step).closings == s.closings && Next(st, s, step).snapshots == s.snapshots
  {
    match step {
      case Approve(a, recordedAt) =>
        var s1 := s.(approved := s.approved + [a]);
        RecalculatedAllEffect(st, if Rewrites(a) then WithRewrite(s1, a, recordedAt) else s1, AffectedDates(a));
        hide RecalculatedAll, RewriteRows, AffectedDates;
      case Recalculate(from, last) =>
        RecalculatedAllEffect(st, s, DatesToRecalculate(st, s, DateRange(from, last)));
        hide RecalculatedAll, DatesToRecalculate;
      case _ =>
    }
  }

  lemma StepKeepsMonth<R, M>(st: Settings<R, M>, s: State<R, M>, step: Step, period: int)
    requires MonthOk(st, s, period) && Enabled(st, s, step)
    ensures MonthOk(st, Next(st, s, step), period)
  {
    hide MonthOk, Enabled, Next;
    if step == Close(period) {
      CloseKeepsMonth(st, s, period);
    } else if step == Reopen(period) {
      ReopenKeepsMonth(st, s, period);
    } else {
      if step.Close? || step.Reopen? {
        OtherMonthMoves(st, s, step, period);
      } else {
        ClosingsStay(st, s, step);
        if ClosingOf(s, period).closed { ClosedMonthIsUntouched(st, s, step, period); }
      }
      FrozenMonthStaysOk(st, s, Next(st, s, step), period);
    }
  }

  lemma StepKeepsDates<R(!new), M(!new)>(st: Settings<R, M>, s: State<R, M>, step: Step)
    requires (forall d :: DateOk(st, s, d)) && Enabled(st, s, step)
    ensures forall d :: DateOk(st, Next(st, s, step), d)
  {
    hide DateOk, WithPunch, WithRequest, RecalculatedAll, DatesToRecalculate, NoneClosed, AllApproved, WithReopened;
    match step {
      case Record(date, eventType, at, recordedAt) =>
        PunchKeepsDates(st, s, date, Punch(s.nextId, eventType, at, None, None, recordedAt));
      case Correct(date, eventType, at, action, target, recordedAt) =>
        if target.Some? { TargetIsOlder(st, s, date, target.value); }
        PunchKeepsDates(st, s, date, Punch(s.nextId, eventType, at, Some(action), target, recordedAt));
      case SubmitDay(date) => RequestKeepsDates(st, s, date, SubmitEvent);
      case DecideDay(date, event) => RequestKeepsDates(st, s, date, event);
      case Close(period) => SameDaysKeepDates(st, s, Next(st, s, step));
      case Reopen(period) =>
        var reopened := s.(closings := s.closings[period := Closing(false, ClosingOf(s, period).reopens + 1)]);
        SameDaysKeepDates(st, s, reopened);
        ReopenKeepsDates(st, reopened, period);
      case Approve(a, recordedAt) => ApproveKeepsDates(st, s, a, recordedAt);
      case Recalculate(from, last) => RangeKeepsDates(st, s, DatesToRecalculate(st, s, DateRange(from, last)));
    }
  }

  lemma TargetIsOlder<R, M>(st: Settings<R, M>, s: State<R, M>, date: int, target: nat)
    requires DateOk(st, s, date)
    requires exists i :: 0 <= i < |DayOf(s, date).punches| && DayOf(s, date).punches[i].id == target
    ensures target < s.nextId
  {
    DayIsALog(st, s, date);
  }

  lemma RangeKeepsDates<R(!new), M(!new)>(st: Settings<R, M>, s: State<R, M>, dates: seq<int>)
    requires forall d :: DateOk(st, s, d)
    ensures forall d :: DateOk(st, RecalculatedAll(st, s, dates), d)
  {
    forall d ensures StoredOk(st, DayOf(s, d), s.nextId) { StoredPart(st, s, d); }
    hide DateOk, VersionsOk, IsLog, IsChain, RecalculatedAll;
    RecalculatedAllKeepsDates(st, s, dates);
  }

  lemma StepKeepsInv<R(!new), M(!new)>(st: Settings<R, M>, s: State<R, M>, step: Step)
    requires Inv(st, s) && Enabled(st, s, step)
    ensures Inv(st, Next(st, s, step))
  {
    hide DateOk, MonthOk, Next, Enabled;
    StepKeepsDates(st, s, step);
    forall period ensures MonthOk(st, Next(st, s, step), period) {
      assert MonthOk(st, s, period);
      StepKeepsMonth(st, s, step, period);
    }
  }

  // ---------------------------------------------------------------------------
  // Runs
  // ---------------------------------------------------------------------------

  ghost predicate IsRun<R, M>(st: Settings<R, M>, states: seq<State<R, M>>, steps: seq<Step>) {
    && |states| == |steps| + 1
    && forall i :: 0 <= i < |steps| ==>
       Enabled(st, states[i], steps[i]) && states[i + 1] == Next(st, states[i], steps[i])
  }

  lemma {:induction false} RunKeepsInv<R(!new), M(!new)>(
    st: Settings<R, M>, states: seq<State<R, M>>, steps: seq<Step>, nextId: nat, k: nat)
    requires IsRun(st, states, steps) && k < |states|
    requires states[0] == State(map[], map[], map[], [], nextId)
    ensures Inv(st, states[k])
    decreases k
  {
    if k == 0 {
      InitialInv(st, nextId);
    } else {
      RunKeepsInv(st, states, steps, nextId, k - 1);
      hide Inv, Next;
      StepKeepsInv(st, states[k - 1], steps[k - 1]);
    }
  }

  /** In every reachable state the latest stored calculation of a day is absent or what a fresh one would be,
      and the stored versions run 1..n with neighbours from different inputs. */
  lemma CacheIsCoherent<R(!new), M(!new)>(
    st: Settings<R, M>, states: seq<State<R, M>>, steps: seq<Step>, nextId: nat, k: nat, date: int)
    requires IsRun(st, states, steps) && k < |states|
    requires states[0] == State(map[], map[], map[], [], nextId)
    ensures var s := states[k];
            var day, input := DayOf(s, date), InputOf(DayOf(s, date).punches, s.approved, date);
            && (day.calculations != [] ==> day.calculations[|day.calculations| - 1].result == st.calculate(input))
            && VersionsOk(st, day.calculations)
            && (day.request.Some? ==> IsChain(day.request.value))
  {
    RunKeepsInv(st, states, steps, nextId, k);
    hide IsRun, MonthOk;
    assert DateOk(st, states[k], date);
  }

  lemma {:induction false} ClosedMonthStays<R(!new), M(!new)>(
    st: Settings<R, M>, states: seq<State<R, M>>, steps: seq<Step>, period: int, i: nat, j: nat)
    requires IsRun(st, states, steps) && i <= j < |states|
    requires ClosingOf(states[i], period).closed && forall k :: i <= k < j ==> steps[k] != Reopen(period)
    ensures Untouched(st, states[i], states[j], period) && ClosingOf(states[j], period).closed
    decreases j
  {
    hide Next, Enabled, IsFrozen;
    if i < j {
      ClosedMonthStays(st, states, steps, period, i, j - 1);
      ClosedMonthIsUntouched(st, states[j - 1], steps[j - 1], period);
      UntouchedTwice(st, states[i], states[j - 1], states[j], period);
    } else {
      UntouchedItself(st, states[i], period);
    }
  }

  lemma UntouchedItself<R(!new), M(!new)>(st: Settings<R, M>, s: State<R, M>, period: int)
    ensures Untouched(st, s, s, period)
  {
  }

  /** While a month is closed, every day of it with punches is approved, no step adds a punch or a version to it,
      and the latest snapshot is the summary of the values as they are now. */
  lemma ClosedMonthIsFrozen<R(!new), M(!new)>(
    st: Settings<R, M>, states: seq<State<R, M>>, steps: seq<Step>, nextId: nat, period: int, i: nat, j: nat)
    requires IsRun(st, states, steps) && i <= j < |states|
    requires states[0] == State(map[], map[], map[], [], nextId)
    requires ClosingOf(states[i], period).closed
    requires forall k :: i <= k < j ==> steps[k] != Reopen(period)
    ensures Untouched(st, states[i], states[j], period)
    ensures AllApproved(st, states[j], period)
    ensures var snapshots := SnapshotsOf(states[j], period);
            && snapshots != [] && snapshots[|snapshots| - 1].summary == SummaryOf(st, states[j], period)
            && snapshots[|snapshots| - 1].sequence == ClosingOf(states[j], period).reopens + 1
  {
    RunKeepsInv(st, states, steps, nextId, j);
    assert MonthOk(st, states[j], period);
    hide IsRun, DateOk, SummaryOf, AllApproved, MonthVersions, Untouched;
    ClosedMonthStays(st, states, steps, period, i, j);
  }

  lemma UntouchedTwice<R(!new), M(!new)>(
    st: Settings<R, M>, s: State<R, M>, t: State<R, M>, u: State<R, M>, period: int)
    requires Untouched(st, s, t, period) && Untouched(st, t, u, period)
    ensures Untouched(st, s, u, period)
  {
  }

  // ---------------------------------------------------------------------------
  // An approved punch correction, in the system
  // ---------------------------------------------------------------------------

  lemma LogIsWellFormed(punches: seq<Punch>, bound: nat)
    requires IsLog(punches, bound)
    ensures WellFormed(punches) && IdsBelow(punches, bound)
  {
    forall p | p in punches ensures p.id < bound && (p.corrects.Some? ==> p.corrects.value < p.id) {
      var i :| 0 <= i < |punches| && punches[i] == p;
    }
  }

  lemma RewrittenLog<R(!new), M(!new)>(st: Settings<R, M>, s: State<R, M>, a: Approved, recordedAt: int)
    requires Enabled(st, s, Approve(a, recordedAt)) && Rewrites(a)
    ensures var punches := DayOf(s, a.from).punches;
            DayOf(Next(st, s, Approve(a, recordedAt)), a.from).punches ==
            punches + RewriteRows(punches, a.startAt.value, a.endAt.value, s.nextId, recordedAt)
  {
    var s1 := s.(approved := s.approved + [a]);
    RecalculatedAllEffect(st, WithRewrite(s1, a, recordedAt), AffectedDates(a));
    hide AffectedDates, RecalculatedAll, InputOf, RewriteRows, NoneClosed;
  }

  /** In every state the system keeps, approving a correction leaves every stored row as it was and makes the
      effective punches of the day its effective breaks and the requested pair. */
  lemma ApprovedCorrectionTakesEffect<R(!new), M(!new)>(
    st: Settings<R, M>, s: State<R, M>, a: Approved, recordedAt: int)
    requires Inv(st, s) && Enabled(st, s, Approve(a, recordedAt)) && Rewrites(a)
    ensures var punches := DayOf(s, a.from).punches;
            var punches' := DayOf(Next(st, s, Approve(a, recordedAt)), a.from).punches;
            && punches <= punches'
            && multiset(EffectiveEvents(punches')) ==
               multiset(OnlyBreaks(EffectiveEvents(punches)))
               + multiset(RequestedPair(punches, a.startAt.value, a.endAt.value, s.nextId))
  {
    RewrittenLog(st, s, a, recordedAt);
    assert DateOk(st, s, a.from);
    DayIsALog(st, s, a.from);
    hide *;
    var punches, clockIn, clockOut := DayOf(s, a.from).punches, a.startAt.value, a.endAt.value;
    LogIsWellFormed(punches, s.nextId);
    RewritePunchesRewrites(punches, clockIn, clockOut, s.nextId, recordedAt);
    RewriteTakesEffect(
      punches, punches + RewriteRows(punches, clockIn, clockOut, s.nextId, recordedAt),
      clockIn, clockOut, s.nextId, recordedAt);
  }

  // ---------------------------------------------------------------------------
  // What each call leaves
  // ---------------------------------------------------------------------------

  /** The day has its latest version from the input it has now. */
  predicate IsCalculated<R>(day: Day<R>, input: Input) {
    day.calculations != [] && day.calculations[|day.calculations| - 1].input == input
  }

  /** The row that recording or correcting stores. */
  function StoredRow<R, M>(s: State<R, M>, step: Step): Punch
    requires step.Record? || step.Correct?
  {
    match step
    case Record(_, eventType, at, recordedAt) => Punch(s.nextId, eventType, at, None, None, recordedAt)
    case Correct(_, eventType, at, action, target, recordedAt) =>
      Punch(s.nextId, eventType, at, Some(action), target, recordedAt)
  }

  /** The target of the correction, if it has one, is a punch in effect. */
  ghost predicate TargetsAPunchInEffect<R>(day: Day<R>, step: Step) {
    step.Correct? && step.target.Some? ==> exists e :: e in EffectiveEvents(day.punches) && e.id == step.target.value
  }

  /** What recording or correcting a punch leaves: one more row, its day calculated afresh, and nothing else. A new or
      an added punch is in effect beside the others; an adjusted punch in effect has the new type and time, a voided one
      is gone, and all others stay. */
  lemma PunchTakesEffect<R(!new), M(!new)>(st: Settings<R, M>, s: State<R, M>, step: Step, e: EffectiveEvent)
    requires Inv(st, s) && Enabled(st, s, step) && (step.Record? || step.Correct?)
    requires TargetsAPunchInEffect(DayOf(s, step.date), step)
    ensures var s', day, day' := Next(st, s, step), DayOf(s, step.date), DayOf(Next(st, s, step), step.date);
            && day'.punches == day.punches + [StoredRow(s, step)] && day'.request == day.request
            && IsCalculated(day', InputOf(day'.punches, s.approved, step.date))
            && (forall other :: other != step.date ==> DayOf(s', other) == DayOf(s, other))
            && s' == s.(days := s'.days, nextId := s.nextId + 1)
            && (e in EffectiveEvents(day'.punches) <==>
                IsInEffectAfter(EffectiveEvents(day.punches), StoredRow(s, step), e))
  {
    var day, p := DayOf(s, step.date), StoredRow(s, step);
    assert DateOk(st, s, step.date);
    PunchIsStored(st, s, step);
    DayIsALog(st, s, step.date);
    hide *;
    LogIsWellFormed(day.punches, s.nextId);
    StoredRowIsNext(st, s, step);
    OneMoreTakesEffect(day.punches, p, e);
  }

  lemma PunchIsStored<R(!new), M(!new)>(st: Settings<R, M>, s: State<R, M>, step: Step)
    requires Enabled(st, s, step) && (step.Record? || step.Correct?)
    ensures var s', day, day' := Next(st, s, step), DayOf(s, step.date), DayOf(Next(st, s, step), step.date);
            && day'.punches == day.punches + [StoredRow(s, step)] && day'.request == day.request
            && IsCalculated(day', InputOf(day'.punches, s.approved, step.date))
            && (forall other :: other != step.date ==> DayOf(s', other) == DayOf(s, other))
            && s' == s.(days := s'.days, nextId := s.nextId + 1)
  {
    var p := StoredRow(s, step);
    var s1 := WithRows(s, step.date, [p]);
    assert Next(st, s, step) == WithPunch(st, s, step.date, p);
    hide Next, Enabled, StoredRow, IsCalculated, InputOf, WithPunch, RecalculatedAll, Recomputed;
    WithPunchIs(st, s, step.date, p);
    RecalculatedAllEffect(st, s1, [step.date]);
    RecomputedIs(st, DayOf(s1, step.date), InputOf(DayOf(s1, step.date).punches, s.approved, step.date));
  }

  lemma StoredRowIsNext<R, M>(st: Settings<R, M>, s: State<R, M>, step: Step)
    requires Enabled(st, s, step) && (step.Record? || step.Correct?)
    requires TargetsAPunchInEffect(DayOf(s, step.date), step)
    requires WellFormed(DayOf(s, step.date).punches) && IdsBelow(DayOf(s, step.date).punches, s.nextId)
    ensures IsNext(DayOf(s, step.date).punches, StoredRow(s, step))
  {
    hide WellFormed, IdsBelow, EffectiveEvents, IsEditable, AcceptsPunch;
  }

  /** A recalculation, of at most 62 days, reaches exactly the days of its range whose month is not closed and that have
      punches, a schedule or a version: each then has its latest version from the input it has now; no other day
      changes, and of those only the versions. */
  lemma RecalculationReaches<R(!new), M(!new)>(st: Settings<R, M>, s: State<R, M>, from: int, last: int, date: int)
    ensures Enabled(st, s, Recalculate(from, last)) <==> from <= last < from + 62
    ensures Enabled(st, s, Recalculate(from, last)) ==>
              var s', day := Next(st, s, Recalculate(from, last)), DayOf(s, date);
              var day', period := DayOf(s', date), st.monthOf(date);
              && s' == s.(days := s'.days)
              && day'.punches == day.punches && day'.request == day.request && day.calculations <= day'.calculations
              && if && from <= date <= last && !(period in s.closings && s.closings[period].closed)
                    && (day.punches != [] || st.hasSchedule(date) || day.calculations != [])
                 then IsCalculated(day', InputOf(day.punches, s.approved, date))
                 else day' == day
  {
    var range, day := DateRange(from, last), DayOf(s, date);
    DateRangeIs(from, last, date);
    DatesToRecalculateAre(st, s, range);
    RecalculatedAllEffect(st, s, DatesToRecalculate(st, s, range));
    RecomputedIs(st, day, InputOf(day.punches, s.approved, date));
    hide InputOf, RecalculatedAll, DatesToRecalculate, DateRange, Recomputed, IsCalculated;
  }

  /** Exactly which months can be closed, and what closing leaves: the closing and one more snapshot. */
  lemma ClosingIs<R(!new), M(!new)>(st: Settings<R, M>, s: State<R, M>, period: int)
    ensures var isClosed := period in s.closings && s.closings[period].closed;
            Enabled(st, s, Close(period)) <==>
            && !isClosed
            && forall date :: date in s.days && st.monthOf(date) == period && s.days[date].punches != [] ==>
                 HasState(s.days[date], ApprovedState)
    ensures Enabled(st, s, Close(period)) ==>
              var s' := Next(st, s, Close(period));
              && s' == s.(closings := s'.closings, snapshots := s'.snapshots)
              && ClosingOf(s', period) == Closing(true, ClosingOf(s, period).reopens)
              && |SnapshotsOf(s', period)| == |SnapshotsOf(s, period)| + 1
              && SnapshotsOf(s, period) <= SnapshotsOf(s', period)
              && forall other :: other != period ==>
                   ClosingOf(s', other) == ClosingOf(s, other) && SnapshotsOf(s', other) == SnapshotsOf(s, other)
  {
    hide MonthVersions, MonthResults, NextSequence;
  }

  /** Exactly which months can be reopened, and what that leaves: no day of the month is approved any more, each that
      was is returned, with the move recorded, and nothing else moves. */
  lemma ReopeningIs<R(!new), M(!new)>(st: Settings<R, M>, s: State<R, M>, period: int, date: int)
    ensures Enabled(st, s, Reopen(period)) <==> period in s.closings && s.closings[period].closed
    ensures Enabled(st, s, Reopen(period)) ==>
              var s', day := Next(st, s, Reopen(period)), DayOf(s, date);
              var day' := DayOf(s', date);
              && s' == s.(closings := s'.closings, days := s'.days)
              && ClosingOf(s', period) == Closing(false, ClosingOf(s, period).reopens + 1)
              && (forall other :: other != period ==> ClosingOf(s', other) == ClosingOf(s, other))
              && day'.punches == day.punches && day'.calculations == day.calculations
              && if st.monthOf(date) == period && HasState(day, ApprovedState) then
                   && HasState(day', Returned) && day'.request.value.submissions == day.request.value.submissions
                   && day'.request.value.returned == day.request.value.returned
                   && day'.request.value.transitions ==
                      day.request.value.transitions + [Transition(ApprovedState, Returned, ReopenEvent)]
                 else day'.request == day.request
  {
  }

  /** Exactly which requests can be approved: leave whenever it is asked for; overtime, holiday work and corrections
      unless a day they cover lies in a closed month, and a correction with both times only of a single day. */
  lemma ApprovalIsReflectedIff<R(!new), M(!new)>(st: Settings<R, M>, s: State<R, M>, a: Approved, recordedAt: int)
    ensures Enabled(st, s, Approve(a, recordedAt)) <==>
            && (a.category in {Overtime, HolidayWork, AttendanceCorrection} ==>
                  forall date :: a.from <= date <= a.endsOn.GetOr(a.from) ==> !ClosingOf(s, st.monthOf(date)).closed)
            && (a.category == AttendanceCorrection && a.startAt.Some? && a.endAt.Some? ==>
                  a.endsOn.GetOr(a.from) == a.from)
  {
    var dates := AffectedDates(a);
    forall date ensures date in dates <==>
                        && a.category in {Overtime, HolidayWork, AttendanceCorrection}
                        && a.from <= date <= a.endsOn.GetOr(a.from)
    {
      AffectedAre(a, date);
    }
    hide AffectedDates;
    if NoneClosed(st, s, dates) {
      forall date | date in dates ensures !ClosingOf(s, st.monthOf(date)).closed {
        var i :| 0 <= i < |dates| && dates[i] == date;
      }
    } else {
      var i :| 0 <= i < |dates| && ClosingOf(s, st.monthOf(dates[i])).closed;
      assert dates[i] in dates;
    }
  }

  /** The state that the recalculations of an approval start from. */
  function Reflected<R, M>(s: State<R, M>, a: Approved, recordedAt: int): State<R, M> {
    var approved := s.(approved := s.approved + [a]);
    if Rewrites(a) then WithRewrite(approved, a, recordedAt) else approved
  }

  lemma ApproveIs<R, M>(st: Settings<R, M>, s: State<R, M>, a: Approved, recordedAt: int)
    requires Enabled(st, s, Approve(a, recordedAt))
    ensures Next(st, s, Approve(a, recordedAt)) == RecalculatedAll(st, Reflected(s, a, recordedAt), AffectedDates(a))
  {
    hide RecalculatedAll, AffectedDates, NoneClosed, WithRewrite;
  }

  lemma AffectedAre(a: Approved, date: int)
    ensures date in AffectedDates(a) <==>
            && a.category in {Overtime, HolidayWork, AttendanceCorrection} && a.from <= date <= a.endsOn.GetOr(a.from)
  {
    DateRangeIs(a.from, LastDayOf(a), date);
    hide DateRange;
  }

  lemma RecomputedIs<R, M>(st: Settings<R, M>, day: Day<R>, input: Input)
    ensures var day' := Recomputed(st, day, input);
            && day' == day.(calculations := day'.calculations) && day.calculations <= day'.calculations
            && IsCalculated(day', input)
  {
  }

  lemma ReflectedIs<R, M>(s: State<R, M>, a: Approved, recordedAt: int, date: int)
    ensures var s1, day := Reflected(s, a, recordedAt), DayOf(s, date);
            && s1 == s.(days := s1.days, approved := s.approved + [a], nextId := s1.nextId)
            && DayOf(s1, date) == day.(punches := DayOf(s1, date).punches)
            && (!Rewrites(a) || date != a.from ==> DayOf(s1, date) == day)
  {
    hide RewriteRows;
  }

  /** What an approval leaves: the request among the approved ones, every day it is reflected in calculated afresh from
      them, punches changed on the day of a correction with both times alone, and nothing else. */
  lemma ApprovalReaches<R(!new), M(!new)>(st: Settings<R, M>, s: State<R, M>, a: Approved, recordedAt: int, date: int)
    requires Enabled(st, s, Approve(a, recordedAt))
    ensures var s', day := Next(st, s, Approve(a, recordedAt)), DayOf(s, date);
            var day' := DayOf(s', date);
            var corrected := a.category == AttendanceCorrection && a.startAt.Some? && a.endAt.Some? && date == a.from;
            && s' == s.(days := s'.days, approved := s.approved + [a], nextId := s'.nextId)
            && day'.request == day.request && (!corrected ==> day'.punches == day.punches)
            && if && a.category in {Overtime, HolidayWork, AttendanceCorrection}
                  && a.from <= date <= a.endsOn.GetOr(a.from)
               then IsCalculated(day', InputOf(day'.punches, s'.approved, date))
               else day' == day
  {
    var s1 := Reflected(s, a, recordedAt);
    assert Rewrites(a) <==> a.category == AttendanceCorrection && a.startAt.Some? && a.endAt.Some?;
    hide *;
    ApproveIs(st, s, a, recordedAt);
    ReflectedIs(s, a, recordedAt, date);
    RecalculatedAllEffect(st, s1, AffectedDates(a));
    AffectedAre(a, date);
    var day := DayOf(s1, date);
    RecomputedIs(st, day, InputOf(day.punches, s1.approved, date));
  }
}
