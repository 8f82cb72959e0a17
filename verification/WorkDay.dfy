/** The state of a working day: which punch may come next, what a day's punches add up to,
    and the business date a punch belongs to. */
module WorkDay {
  import opened Wrappers
  import opened Corrections

  datatype DayState = NotStarted | Working | OnBreak | Finished

  datatype Rejection = AlreadyWorking | NotWorking | AlreadyOnBreak | NotOnBreak | StillOnBreak

  datatype Decision = Accepted(next: DayState) | Rejected(rejection: Rejection)

  function DecidePunch(state: DayState, t: EventType): Decision {
    match t
    case ClockIn => if state == NotStarted || state == Finished then Accepted(Working) else Rejected(AlreadyWorking)
    case ClockOut =>
      if state == Working then Accepted(Finished)
      else if state == OnBreak then Rejected(StillOnBreak) else Rejected(NotWorking)
    case BreakStart =>
      if state == Working then Accepted(OnBreak)
      else if state == OnBreak then Rejected(AlreadyOnBreak) else Rejected(NotWorking)
    case BreakEnd => if state == OnBreak then Accepted(Working) else Rejected(NotOnBreak)
  }

  function NextCardPunch(state: DayState): EventType {
    match state
    case NotStarted => ClockIn
    case Finished => ClockIn
    case Working => ClockOut
    case OnBreak => BreakEnd
  }

  predicate IsOpenDay(state: DayState) {
    state == Working || state == OnBreak
  }

  // ---------------------------------------------------------------------------
  // What a day's punches add up to
  // ---------------------------------------------------------------------------

  datatype Span = Span(startedAt: int, endedAt: Option<int>)

  datatype Summary = Summary(
    state: DayState, firstClockIn: Option<int>, lastClockOut: Option<int>, sessions: seq<Span>, breaks: seq<Span>)

  /** The last span, ended. */
  function Ended(spans: seq<Span>, at: int): seq<Span> {
    if spans == [] then [] else spans[|spans| - 1 := spans[|spans| - 1].(endedAt := Some(at))]
  }

  /** One more punch; a punch that the state does not accept is passed over. */
  function Extended(s: Summary, t: EventType, at: int): Summary {
    var decision := DecidePunch(s.state, t);
    if decision.Rejected? then s
    else match t
      case ClockIn =>
        s.(state := Working, firstClockIn := if s.firstClockIn == None then Some(at) else s.firstClockIn,
           sessions := s.sessions + [Span(at, None)])
      case ClockOut => s.(state := Finished, lastClockOut := Some(at), sessions := Ended(s.sessions, at))
      case BreakStart => s.(state := OnBreak, breaks := s.breaks + [Span(at, None)])
      case BreakEnd => s.(state := Working, breaks := Ended(s.breaks, at))
  }

  function Summarized(ordered: seq<EffectiveEvent>): Summary {
    if ordered == [] then Summary(NotStarted, None, None, [], [])
    else
      var e := ordered[|ordered| - 1];
      Extended(Summarized(ordered[..|ordered| - 1]), e.eventType, e.occurredAt)
  }

  method SummarizeWorkDay(events: seq<EffectiveEvent>) returns (r: Summary)
    ensures r == Summarized(SortByTime(events))
  {
    var ordered := SortByTime(events);
    var state, firstClockIn, lastClockOut := NotStarted, None, None;
    var sessions: seq<Span>, breaks: seq<Span> := [], [];
    for i := 0 to |ordered|
      invariant Summary(state, firstClockIn, lastClockOut, sessions, breaks) == Summarized(ordered[..i])
    {
      assert ordered[..i + 1][..i] == ordered[..i];
      hide Summarized, SortByTime;
      var event := ordered[i];
      var decision := DecidePunch(state, event.eventType);
      if decision.Rejected? { continue; }
      state := decision.next;
      match event.eventType {
        case ClockIn =>
          if firstClockIn == None { firstClockIn := Some(event.occurredAt); }
          sessions := sessions + [Span(event.occurredAt, None)];
        case ClockOut =>
          lastClockOut := Some(event.occurredAt);
          if sessions != [] {
            sessions := sessions[|sessions| - 1 := Span(sessions[|sessions| - 1].startedAt, Some(event.occurredAt))];
          }
        case BreakStart => breaks := breaks + [Span(event.occurredAt, None)];
        case BreakEnd =>
          if breaks != [] {
            breaks := breaks[|breaks| - 1 := Span(breaks[|breaks| - 1].startedAt, Some(event.occurredAt))];
          }
      }
    }
    assert ordered[..|ordered|] == ordered;
    return Summary(state, firstClockIn, lastClockOut, sessions, breaks);
  }

  /** Spans in the order of time, all ended but perhaps the last, none reaching past `now`. */
  predicate AreSpans(spans: seq<Span>, now: int, open: bool) {
    && (forall i :: 0 <= i < |spans| ==>
          && spans[i].startedAt <= now
          && (spans[i].endedAt.Some? ==> spans[i].startedAt <= spans[i].endedAt.value <= now)
          && (spans[i].endedAt == None <==> open && i == |spans| - 1))
    && (forall i, j :: 0 <= i < j < |spans| && spans[i].endedAt.Some? ==> spans[i].endedAt.value <= spans[j].startedAt)
    && (open ==> spans != [])
  }

  predicate IsWithin(b: Span, session: Span) {
    && session.startedAt <= b.startedAt
    && (session.endedAt.Some? ==> b.endedAt.Some? && b.endedAt.value <= session.endedAt.value)
  }

  predicate IsInASession(b: Span, sessions: seq<Span>) {
    exists j :: 0 <= j < |sessions| && IsWithin(b, sessions[j])
  }

  predicate BreaksAreInside(breaks: seq<Span>, sessions: seq<Span>) {
    forall i :: 0 <= i < |breaks| ==> IsInASession(breaks[i], sessions)
  }

  ghost predicate IsSound(s: Summary, now: int) {
    && AreSpans(s.sessions, now, IsOpenDay(s.state)) && AreSpans(s.breaks, now, s.state == OnBreak)
    && BreaksAreInside(s.breaks, s.sessions)
    && (s.state == NotStarted <==> s.sessions == [])
    && (s.firstClockIn == if s.sessions == [] then None else Some(s.sessions[0].startedAt))
  }

  lemma SpansGrow(spans: seq<Span>, now: int, at: int)
    requires AreSpans(spans, now, false) && now <= at
    ensures AreSpans(spans + [Span(at, None)], at, true)
  {
  }

  lemma SpansEnd(spans: seq<Span>, now: int, at: int)
    requires AreSpans(spans, now, true) && now <= at
    ensures AreSpans(Ended(spans, at), at, false)
  {
    var n, ended := |spans|, Ended(spans, at);
    assert forall i :: 0 <= i < n - 1 ==> ended[i] == spans[i];
    assert ended[n - 1] == Span(spans[n - 1].startedAt, Some(at));
  }

  lemma SpansWait(spans: seq<Span>, now: int, at: int, open: bool)
    requires AreSpans(spans, now, open) && now <= at
    ensures AreSpans(spans, at, open)
  {
  }

  lemma BreaksStayInside(breaks: seq<Span>, sessions: seq<Span>, sessions': seq<Span>)
    requires BreaksAreInside(breaks, sessions) && |sessions| <= |sessions'|
    requires forall i, j :: 0 <= i < |breaks| && 0 <= j < |sessions| && IsWithin(breaks[i], sessions[j]) ==>
               IsWithin(breaks[i], sessions'[j])
    ensures BreaksAreInside(breaks, sessions')
  {
    forall i | 0 <= i < |breaks| ensures IsInASession(breaks[i], sessions') {
      assert IsInASession(breaks[i], sessions);
      var j :| 0 <= j < |sessions| && IsWithin(breaks[i], sessions[j]);
      assert IsWithin(breaks[i], sessions'[j]);
    }
  }

  lemma BreakGoesIntoTheLastSession(breaks: seq<Span>, breaks': seq<Span>, sessions: seq<Span>)
    requires BreaksAreInside(breaks, sessions) && 1 <= |breaks'| <= |breaks| + 1
    requires breaks'[..|breaks'| - 1] <= breaks
    requires sessions != [] && IsWithin(breaks'[|breaks'| - 1], sessions[|sessions| - 1])
    ensures BreaksAreInside(breaks', sessions)
  {
    forall i | 0 <= i < |breaks'| ensures IsInASession(breaks'[i], sessions) {
      if i < |breaks'| - 1 {
        assert breaks'[i] == breaks[i];
        assert IsInASession(breaks[i], sessions);
      }
    }
  }

  /** The open break began in the open session. */
  lemma OpenBreakIsInTheLastSession(s: Summary, now: int)
    requires IsSound(s, now) && s.state == OnBreak
    ensures s.breaks != [] && s.sessions != []
            && s.sessions[|s.sessions| - 1].startedAt <= s.breaks[|s.breaks| - 1].startedAt
  {
    var b := s.breaks[|s.breaks| - 1];
    assert IsInASession(b, s.sessions);
    var j :| 0 <= j < |s.sessions| && IsWithin(b, s.sessions[j]);
    assert b.endedAt == None;
  }

  lemma ExtendedIsSound(s: Summary, t: EventType, at: int, now: int)
    requires IsSound(s, now) && now <= at
    ensures IsSound(Extended(s, t, at), at)
  {
    if DecidePunch(s.state, t).Rejected? {
      hide AreSpans, BreaksAreInside;
      SpansWait(s.sessions, now, at, IsOpenDay(s.state));
      SpansWait(s.breaks, now, at, s.state == OnBreak);
    } else {
      match t {
        case ClockIn => ClockInIsSound(s, at, now);
        case ClockOut => ClockOutIsSound(s, at, now);
        case BreakStart => BreakStartIsSound(s, at, now);
        case BreakEnd => BreakEndIsSound(s, at, now);
      }
    }
  }

  lemma ClockInIsSound(s: Summary, at: int, now: int)
    requires IsSound(s, now) && now <= at && DecidePunch(s.state, ClockIn).Accepted?
    ensures IsSound(Extended(s, ClockIn, at), at)
  {
    var sessions := s.sessions + [Span(at, None)];
    SpansGrow(s.sessions, now, at);
    SpansWait(s.breaks, now, at, false);
    BreaksStayInside(s.breaks, s.sessions, sessions);
    hide AreSpans, BreaksAreInside;
  }

  lemma ClockOutIsSound(s: Summary, at: int, now: int)
    requires IsSound(s, now) && now <= at && DecidePunch(s.state, ClockOut).Accepted?
    ensures IsSound(Extended(s, ClockOut, at), at)
  {
    var ended := Ended(s.sessions, at);
    SpansEnd(s.sessions, now, at);
    SpansWait(s.breaks, now, at, false);
    BreaksStayInside(s.breaks, s.sessions, ended);
    hide AreSpans, BreaksAreInside;
  }

  lemma BreakStartIsSound(s: Summary, at: int, now: int)
    requires IsSound(s, now) && now <= at && DecidePunch(s.state, BreakStart).Accepted?
    ensures IsSound(Extended(s, BreakStart, at), at)
  {
    SpansWait(s.sessions, now, at, true);
    SpansGrow(s.breaks, now, at);
    var breaks := s.breaks + [Span(at, None)];
    assert breaks[..|breaks| - 1] == s.breaks;
    BreakGoesIntoTheLastSession(s.breaks, breaks, s.sessions);
    hide AreSpans, BreaksAreInside;
  }

  lemma BreakEndIsSound(s: Summary, at: int, now: int)
    requires IsSound(s, now) && now <= at && DecidePunch(s.state, BreakEnd).Accepted?
    ensures IsSound(Extended(s, BreakEnd, at), at)
  {
    SpansWait(s.sessions, now, at, true);
    SpansEnd(s.breaks, now, at);
    OpenBreakIsInTheLastSession(s, now);
    assert Ended(s.breaks, at)[..|s.breaks| - 1] == s.breaks[..|s.breaks| - 1];
    BreakGoesIntoTheLastSession(s.breaks, Ended(s.breaks, at), s.sessions);
    hide AreSpans, BreaksAreInside;
  }

  /** Whatever punches a day has, in whatever order they were recorded: its sessions are disjoint and in order, only the
      last may be open and is open exactly while the day is, and every break lies inside a session. */
  lemma {:induction false} DayIsSound(ordered: seq<EffectiveEvent>, now: int)
    requires InTimeOrder(ordered) && forall i :: 0 <= i < |ordered| ==> ordered[i].occurredAt <= now
    ensures IsSound(Summarized(ordered), now)
  {
    if ordered != [] {
      var init, e := ordered[..|ordered| - 1], ordered[|ordered| - 1];
      DayIsSound(init, e.occurredAt);
      hide IsSound, Extended;
      ExtendedIsSound(Summarized(init), e.eventType, e.occurredAt, e.occurredAt);
      SoundLater(Summarized(ordered), e.occurredAt, now);
    }
  }

  lemma SoundLater(s: Summary, now: int, at: int)
    requires IsSound(s, now) && now <= at
    ensures IsSound(s, at)
  {
    SpansWait(s.sessions, now, at, IsOpenDay(s.state));
    SpansWait(s.breaks, now, at, s.state == OnBreak);
    hide AreSpans;
  }

  // ---------------------------------------------------------------------------
  // The summary and the punches in effect
  // ---------------------------------------------------------------------------

  /** The fold passes over the `i`-th punch. */
  predicate IsPassedOver(ordered: seq<EffectiveEvent>, i: nat)
    requires i < |ordered|
  {
    DecidePunch(Summarized(ordered[..i]).state, ordered[i].eventType).Rejected?
  }

  /** The times of the punches of one type that are not passed over. */
  function TimesOf(ordered: seq<EffectiveEvent>, t: EventType): seq<int> {
    if ordered == [] then []
    else
      var n := |ordered| - 1;
      TimesOf(ordered[..n], t)
      + if ordered[n].eventType == t && !IsPassedOver(ordered, n) then [ordered[n].occurredAt] else []
  }

  /** Every span has its start, and every end has its span. */
  predicate SpansFrom(spans: seq<Span>, starts: seq<int>, ends: seq<int>) {
    && |spans| == |starts| && |ends| <= |starts|
    && forall i :: 0 <= i < |spans| ==>
         spans[i] == Span(starts[i], if i < |ends| then Some(ends[i]) else None)
  }

  /** The state, in numbers of punches in effect: working between a clock-in and its clock-out, on a break between
      a start and its end. */
  predicate StateFits(state: DayState, ins: nat, outs: nat, starts: nat, ends: nat) {
    match state
    case NotStarted => ins == outs == 0 && starts == ends
    case Working => ins == outs + 1 && starts == ends
    case OnBreak => ins == outs + 1 && starts == ends + 1
    case Finished => ins == outs > 0 && starts == ends
  }

  predicate AddsUp(s: Summary, ins: seq<int>, outs: seq<int>, starts: seq<int>, ends: seq<int>) {
    && SpansFrom(s.sessions, ins, outs) && SpansFrom(s.breaks, starts, ends)
    && StateFits(s.state, |ins|, |outs|, |starts|, |ends|)
    && s.firstClockIn == (if ins == [] then None else Some(ins[0]))
    && s.lastClockOut == if outs == [] then None else Some(outs[|outs| - 1])
  }

  /** What the summary of a day is, in the punches in effect: the k-th session from the k-th clock-in to the k-th
      clock-out, the breaks likewise, the first clock-in and the last clock-out. */
  ghost predicate SumsUp(s: Summary, ordered: seq<EffectiveEvent>) {
    AddsUp(s, TimesOf(ordered, ClockIn), TimesOf(ordered, ClockOut), TimesOf(ordered, BreakStart),
           TimesOf(ordered, BreakEnd))
  }

  lemma SpanStarts(spans: seq<Span>, starts: seq<int>, ends: seq<int>, at: int)
    requires SpansFrom(spans, starts, ends) && |ends| == |starts|
    ensures SpansFrom(spans + [Span(at, None)], starts + [at], ends)
  {
  }

  lemma SpanEnds(spans: seq<Span>, starts: seq<int>, ends: seq<int>, at: int)
    requires SpansFrom(spans, starts, ends) && |ends| + 1 == |starts|
    ensures SpansFrom(Ended(spans, at), starts, ends + [at])
  {
  }

  lemma ExtendedAddsUp(
    s: Summary, t: EventType, at: int, ins: seq<int>, outs: seq<int>, starts: seq<int>, ends: seq<int>)
    requires AddsUp(s, ins, outs, starts, ends) && DecidePunch(s.state, t).Accepted?
    ensures var s' := Extended(s, t, at);
            match t
            case ClockIn => AddsUp(s', ins + [at], outs, starts, ends)
            case ClockOut => AddsUp(s', ins, outs + [at], starts, ends)
            case BreakStart => AddsUp(s', ins, outs, starts + [at], ends)
            case BreakEnd => AddsUp(s', ins, outs, starts, ends + [at])
  {
    match t {
      case ClockIn => SpanStarts(s.sessions, ins, outs, at);
      case ClockOut => SpanEnds(s.sessions, ins, outs, at);
      case BreakStart => SpanStarts(s.breaks, starts, ends, at);
      case BreakEnd => SpanEnds(s.breaks, starts, ends, at);
    }
    hide SpansFrom, Ended;
  }

  lemma {:induction false} SummaryOfThePunchesInEffect(ordered: seq<EffectiveEvent>)
    ensures SumsUp(Summarized(ordered), ordered)
  {
    if ordered != [] {
      var n, e := |ordered| - 1, ordered[|ordered| - 1];
      var init := ordered[..n];
      SummaryOfThePunchesInEffect(init);
      TimesOneMore(ordered);
      hide Summarized, TimesOf, AddsUp;
      if !IsPassedOver(ordered, n) {
        ExtendedAddsUp(Summarized(init), e.eventType, e.occurredAt, TimesOf(init, ClockIn), TimesOf(init, ClockOut),
                       TimesOf(init, BreakStart), TimesOf(init, BreakEnd));
      }
      SummaryOneMore(init, e);
      assert ordered == init + [e];
      assert forall t :: TimesOf(init, t) + [] == TimesOf(init, t);
    }
  }

  lemma TimesOneMore(ordered: seq<EffectiveEvent>)
    requires ordered != []
    ensures var n := |ordered| - 1;
            forall t :: TimesOf(ordered, t) ==
              TimesOf(ordered[..n], t)
              + if ordered[n].eventType == t && !IsPassedOver(ordered, n) then [ordered[n].occurredAt] else []
  {
  }

  /** Exactly when a day takes a punch, and why it does not, in numbers of punches in effect. */
  lemma PunchIsTakenIff(ordered: seq<EffectiveEvent>, t: EventType)
    ensures var decision := DecidePunch(Summarized(ordered).state, t);
            var open := |TimesOf(ordered, ClockIn)| > |TimesOf(ordered, ClockOut)|;
            var paused := |TimesOf(ordered, BreakStart)| > |TimesOf(ordered, BreakEnd)|;
            match t
            case ClockIn => if open then decision == Rejected(AlreadyWorking) else decision == Accepted(Working)
            case ClockOut =>
              if !open then decision == Rejected(NotWorking)
              else if paused then decision == Rejected(StillOnBreak) else decision == Accepted(Finished)
            case BreakStart =>
              if !open then decision == Rejected(NotWorking)
              else if paused then decision == Rejected(AlreadyOnBreak) else decision == Accepted(OnBreak)
            case BreakEnd => if paused then decision == Accepted(Working) else decision == Rejected(NotOnBreak)
  {
    SummaryOfThePunchesInEffect(ordered);
    hide Summarized, TimesOf;
  }

  // ---------------------------------------------------------------------------
  // A new punch
  // ---------------------------------------------------------------------------

  function StateOf(events: seq<EffectiveEvent>): DayState {
    Summarized(SortByTime(events)).state
  }

  /** An accepted punch that is the latest of its day moves the day to the state it was accepted for. */
  lemma LatestPunchTakesEffect(events: seq<EffectiveEvent>, e: EffectiveEvent)
    requires DecidePunch(StateOf(events), e.eventType).Accepted?
    requires forall i :: 0 <= i < |events| ==> events[i].occurredAt <= e.occurredAt
    ensures StateOf(events + [e]) == DecidePunch(StateOf(events), e.eventType).next
  {
    var sorted := SortByTime(events);
    SortOneMore(events, e);
    SortIsAPermutation(events);
    hide SortByTime, Extended, DecidePunch;
    forall i | 0 <= i < |sorted| ensures sorted[i].occurredAt <= e.occurredAt {
      assert sorted[i] in multiset(sorted);
      assert sorted[i] in multiset(events);
    }
    SummaryOneMore(sorted, e);
    ExtendedState(Summarized(sorted), e.eventType, e.occurredAt);
  }

  lemma ExtendedState(s: Summary, t: EventType, at: int)
    ensures Extended(s, t, at).state ==
            if DecidePunch(s.state, t).Accepted? then DecidePunch(s.state, t).next else s.state
  {
  }

  lemma SortOneMore(events: seq<EffectiveEvent>, e: EffectiveEvent)
    ensures SortByTime(events + [e]) == InsertByTime(SortByTime(events), e)
  {
    assert (events + [e])[..|events|] == events;
  }

  lemma SummaryOneMore(ordered: seq<EffectiveEvent>, e: EffectiveEvent)
    ensures Summarized(ordered + [e]) == Extended(Summarized(ordered), e.eventType, e.occurredAt)
  {
    assert (ordered + [e])[..|ordered|] == ordered;
  }

  /** The punches up to a time. */
  function Until(events: seq<EffectiveEvent>, at: int): seq<EffectiveEvent> {
    if events == [] then []
    else
      var last := events[|events| - 1];
      Until(events[..|events| - 1], at) + if last.occurredAt <= at then [last] else []
  }

  lemma UntilOneMore(events: seq<EffectiveEvent>, e: EffectiveEvent, at: int)
    ensures Until(events + [e], at) == Until(events, at) + if e.occurredAt <= at then [e] else []
  {
    assert (events + [e])[..|events|] == events;
  }

  /** Where a punch goes among those that are sorted: behind the ones up to its time. */
  lemma {:induction false} InsertSplits(sorted: seq<EffectiveEvent>, e: EffectiveEvent) returns (k: nat)
    requires InTimeOrder(sorted)
    ensures k <= |sorted| && InsertByTime(sorted, e) == sorted[..k] + [e] + sorted[k..]
    ensures forall i :: 0 <= i < |sorted| ==> (i < k <==> sorted[i].occurredAt <= e.occurredAt)
  {
    if sorted == [] || sorted[|sorted| - 1].occurredAt <= e.occurredAt {
      k := |sorted|;
    } else {
      var n := |sorted| - 1;
      k := InsertSplits(sorted[..n], e);
      assert sorted[..n][..k] == sorted[..k] && sorted[..n][k..] + [sorted[n]] == sorted[k..];
    }
  }

  lemma {:induction false} UntilIsAPrefix(sorted: seq<EffectiveEvent>, at: int, k: nat)
    requires k <= |sorted| && forall i :: 0 <= i < |sorted| ==> (i < k <==> sorted[i].occurredAt <= at)
    ensures Until(sorted, at) == sorted[..k]
  {
    if sorted != [] {
      var init := sorted[..|sorted| - 1];
      UntilIsAPrefix(init, at, if k == |sorted| then k - 1 else k);
      var m := if k == |sorted| then k - 1 else k;
      assert init[..m] + (if k == |sorted| then [sorted[|sorted| - 1]] else []) == sorted[..k];
    }
  }

  lemma {:induction false} UntilOfInserted(sorted: seq<EffectiveEvent>, e: EffectiveEvent, at: int)
    requires InTimeOrder(sorted)
    ensures Until(InsertByTime(sorted, e), at) ==
            if e.occurredAt <= at then InsertByTime(Until(sorted, at), e) else Until(sorted, at)
  {
    if sorted == [] {
      UntilOneMore([], e, at);
    } else {
      var init, last := sorted[..|sorted| - 1], sorted[|sorted| - 1];
      assert sorted == init + [last];
      UntilOneMore(init, last, at);
      if last.occurredAt <= e.occurredAt {
        UntilOneMore(sorted, e, at);
        if e.occurredAt <= at { assert Until(sorted, at)[|Until(sorted, at)| - 1] == last; }
      } else {
        UntilOfInserted(init, e, at);
        UntilOneMore(InsertByTime(init, e), last, at);
        assert Until(init, at) + [] == Until(init, at);
        if last.occurredAt <= at { assert (Until(init, at) + [last])[..|Until(init, at)|] == Until(init, at); }
      }
    }
  }

  /** Looking up to a time and sorting may be done in either order. */
  lemma {:induction false} SortedUntil(events: seq<EffectiveEvent>, at: int)
    ensures SortByTime(Until(events, at)) == Until(SortByTime(events), at)
  {
    if events != [] {
      var init, e := events[..|events| - 1], events[|events| - 1];
      assert events == init + [e];
      SortedUntil(init, at);
      SortIsAPermutation(init);
      hide SortByTime, InsertByTime, Until, InTimeOrder;
      UntilOneMore(init, e, at);
      SortOneMore(init, e);
      UntilOfInserted(SortByTime(init), e, at);
      SortOneMore(Until(init, at), e);
      assert Until(init, at) + [] == Until(init, at);
    }
  }

  /** The day with one more punch: `k` is its place. */
  predicate IsPlaceOf(events: seq<EffectiveEvent>, e: EffectiveEvent, k: nat) {
    var before, after := SortByTime(events), SortByTime(events + [e]);
    && k <= |before| && after == before[..k] + [e] + before[k..]
    && forall i :: 0 <= i < |before| ==> (i < k <==> before[i].occurredAt <= e.occurredAt)
  }

  /** Exactly when a new punch is passed over: the state of the punches up to its own time does not accept it, whatever
      the state of the day that accepted it for recording. A punch that is passed over changes nothing of the day. */
  lemma PassedOverIff(events: seq<EffectiveEvent>, e: EffectiveEvent) returns (k: nat)
    ensures IsPlaceOf(events, e, k)
    ensures IsPassedOver(SortByTime(events + [e]), k) <==>
            DecidePunch(StateOf(Until(events, e.occurredAt)), e.eventType).Rejected?
    ensures IsPassedOver(SortByTime(events + [e]), k) ==>
            Summarized(SortByTime(events + [e])) == Summarized(SortByTime(events))
  {
    var before, after := SortByTime(events), SortByTime(events + [e]);
    SortIsAPermutation(events);
    SortOneMore(events, e);
    SortedUntil(events, e.occurredAt);
    hide SortByTime, InsertByTime, Until, InTimeOrder, Summarized;
    k := InsertSplits(before, e);
    UntilIsAPrefix(before, e.occurredAt, k);
    assert after[..k] == before[..k] && after[k] == e;
    if IsPassedOver(after, k) { PassingOverChangesNothing(before[..k], e, before[k..]); }
    assert before[..k] + before[k..] == before;
  }

  lemma {:induction false} PassingOverChangesNothing(
      first: seq<EffectiveEvent>, e: EffectiveEvent, rest: seq<EffectiveEvent>)
    requires DecidePunch(Summarized(first).state, e.eventType).Rejected?
    ensures Summarized(first + [e] + rest) == Summarized(first + rest)
  {
    hide Summarized;
    if rest == [] {
      SummaryOneMore(first, e);
      assert first + [e] + rest == first + [e] && first + rest == first;
    } else {
      var init, last := rest[..|rest| - 1], rest[|rest| - 1];
      PassingOverChangesNothing(first, e, init);
      SummaryOneMore(first + [e] + init, last);
      SummaryOneMore(first + init, last);
      assert first + [e] + rest == first + [e] + init + [last] && first + rest == first + init + [last];
    }
  }

  /** States that accept the same punches. */
  datatype Phase = Off | On | Paused

  function PhaseOf(state: DayState): Phase {
    match state
    case Working => On
    case OnBreak => Paused
    case _ => Off
  }

  /** Every punch belongs to one phase: states of two phases never accept the same punch. */
  lemma PunchesBelongToAPhase(a: DayState, b: DayState, t: EventType)
    requires DecidePunch(a, t).Accepted?
    ensures DecidePunch(b, t).Accepted? <==> PhaseOf(a) == PhaseOf(b)
  {
  }

  /** Exactly when a stored later punch that was in effect starts being passed over because of a new one: the phase of
      the day just before it is no longer the same. If the new punch takes effect, that is so for the one right after
      it. */
  lemma LaterPunchGivesWayIff(events: seq<EffectiveEvent>, e: EffectiveEvent, k: nat, j: nat)
    requires IsPlaceOf(events, e, k) && k <= j < |SortByTime(events)| && !IsPassedOver(SortByTime(events), j)
    ensures var before, after := SortByTime(events), SortByTime(events + [e]);
            && after[j + 1] == before[j]
            && (IsPassedOver(after, j + 1) <==>
                PhaseOf(Summarized(after[..j + 1]).state) != PhaseOf(Summarized(before[..j]).state))
            && (j == k && !IsPassedOver(after, k) ==> IsPassedOver(after, k + 1))
  {
    var before, after := SortByTime(events), SortByTime(events + [e]);
    hide SortByTime, Summarized, Extended;
    PunchesBelongToAPhase(Summarized(before[..j]).state, Summarized(after[..j + 1]).state, before[j].eventType);
    if j == k {
      assert after[..k] == before[..k] && after[..k + 1] == before[..k] + [e];
      SummaryOneMore(before[..k], e);
      ExtendedState(Summarized(before[..k]), e.eventType, e.occurredAt);
      assert after[k] == e;
    }
  }

  /** An accepted punch with an earlier time need not: a break that starts before the day's only clock-in is accepted
      while the employee is working, and is then passed over. */
  lemma BackdatedPunchIsPassedOver(clockIn: EffectiveEvent, e: EffectiveEvent)
    requires clockIn.eventType == ClockIn && e.eventType == BreakStart && e.occurredAt < clockIn.occurredAt
    ensures DecidePunch(StateOf([clockIn]), e.eventType) == Accepted(OnBreak)
    ensures StateOf([clockIn] + [e]) == Working
  {
    var start := Summary(NotStarted, None, None, [], []);
    hide SortByTime, InsertByTime;
    SortNothing();
    SortOneMore([], clockIn);
    SortOneMore([clockIn], e);
    InsertFirst(clockIn, e);
    assert [] + [clockIn] == [clockIn] && [] + [e] == [e] && [e] + [clockIn] == [e, clockIn];
    hide Summarized;
    SummaryOfNothing();
    SummaryOneMore([], clockIn);
    SummaryOneMore([], e);
    SummaryOneMore([e], clockIn);
  }

  lemma SortNothing()
    ensures SortByTime([]) == []
  {
  }

  lemma SummaryOfNothing()
    ensures Summarized([]) == Summary(NotStarted, None, None, [], [])
  {
  }

  lemma InsertFirst(later: EffectiveEvent, e: EffectiveEvent)
    requires e.occurredAt < later.occurredAt
    ensures InsertByTime([], later) == [later] && InsertByTime([later], e) == [e, later]
  {
    assert [later][..0] == [];
  }

  // ---------------------------------------------------------------------------
  // The business date of a punch
  // ---------------------------------------------------------------------------

  /** `resolveBusinessDate`: a clock-in belongs to its own date, anything else to the open day of that date or the one
      before. */
  function ResolveBusinessDate(t: EventType, computed: int, states: int -> DayState): int {
    if t == ClockIn then computed
    else if IsOpenDay(states(computed)) then computed
    else if IsOpenDay(states(computed - 1)) then computed - 1
    else computed
  }

  /** A clock-in goes to its own date. Any other punch is accepted only onto a day that is open; and if either of the
      two days is open, it goes to one that is, the later one first. */
  lemma PunchGoesToAnOpenDay(t: EventType, computed: int, states: int -> DayState)
    ensures var date := ResolveBusinessDate(t, computed, states);
            && (date == computed || date == computed - 1)
            && (date != computed ==> t != ClockIn && !IsOpenDay(states(computed)))
            && (t != ClockIn ==>
                  (IsOpenDay(states(date)) <==> IsOpenDay(states(computed)) || IsOpenDay(states(computed - 1)))
                  && (DecidePunch(states(date), t).Accepted? ==> IsOpenDay(states(date))))
  {
  }

  /** A card touch decides its own kind of punch, from the day a clock-out would belong to; the punch it decides is
      always one that the day it is recorded on accepts. */
  lemma CardTouchIsAlwaysAccepted(computed: int, states: int -> DayState)
    ensures var decided := NextCardPunch(states(ResolveBusinessDate(ClockOut, computed, states)));
            DecidePunch(states(ResolveBusinessDate(decided, computed, states)), decided).Accepted?
  {
  }
}
