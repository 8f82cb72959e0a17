/** Automatic leave grants: which days are due, who is granted what on a day, the scheduler that
    claims days and catches up, and the bulk grants an administrator makes beside it.

    One workspace and one leave type. Days are day numbers of the calendar. */
module LeaveGrants {
  import opened Wrappers
  import opened Calendar

  // ---------------------------------------------------------------------------
  // Due days
  // ---------------------------------------------------------------------------

  datatype Basis = HireAnniversary | FixedDate

  datatype LeaveType = LeaveType(
    basis: Option<Basis>, autoFrom: Option<nat>, fixedMonth: Option<nat>, fixedDay: Option<nat>)

  /** With hire anniversaries every day is due; else the fixed month and day, once both are set. */
  predicate IsDue(t: LeaveType, day: nat) {
    && t.basis.Some?
    && (t.basis.value == HireAnniversary ||
        (t.fixedMonth == Some(DateOf(day).month) && t.fixedDay == Some(DateOf(day).day)))
  }

  /** The due days from `from` to `last`, oldest first. */
  function DueDays(t: LeaveType, from: nat, last: int): seq<nat>
    decreases last - from
  {
    if from > last then [] else DueDays(t, from, last - 1) + if IsDue(t, last) then [last] else []
  }

  lemma {:induction false} DueDaysAre(t: LeaveType, from: nat, last: int)
    ensures forall day: nat :: day in DueDays(t, from, last) <==> from <= day <= last && IsDue(t, day)
    ensures Ascending(DueDays(t, from, last))
    decreases last - from
  {
    hide IsDue;
    if from <= last {
      DueDaysAre(t, from, last - 1);
      var init := DueDays(t, from, last - 1);
      assert forall i :: 0 <= i < |init| ==> init[i] in init;
    }
  }

  predicate Ascending(days: seq<nat>) {
    forall i, j :: 0 <= i < j < |days| ==> days[i] < days[j]
  }

  method LeaveGrantDatesBetween(t: LeaveType, from: nat, through: int) returns (dates: seq<nat>)
    requires t.basis.Some?
    ensures dates == DueDays(t, from, through)
  {
    dates := [];
    if from > through { return; }
    var cursor := from;
    while cursor <= through
      invariant from <= cursor <= through + 1
      invariant dates == DueDays(t, from, cursor - 1)
    {
      if t.basis.value == HireAnniversary {
        dates := dates + [cursor];
      } else {
        if t.fixedMonth == None || t.fixedDay == None {
          NothingDue(t, from, through);
          return [];
        }
        if DateOf(cursor).month == t.fixedMonth.value && DateOf(cursor).day == t.fixedDay.value {
          dates := dates + [cursor];
        }
      }
      cursor := cursor + 1;
    }
  }

  lemma {:induction false} NothingDue(t: LeaveType, from: nat, last: int)
    requires t.basis == Some(FixedDate) && (t.fixedMonth == None || t.fixedDay == None)
    ensures DueDays(t, from, last) == []
    decreases last - from
  {
    if from <= last { NothingDue(t, from, last - 1); }
  }

  // ---------------------------------------------------------------------------
  // Who is granted what
  // ---------------------------------------------------------------------------

  datatype Rule = Rule(serviceMonths: int, minutes: nat)

  /** `hired` is the day number of the day of hire. */
  datatype Candidate = Candidate(employee: nat, hired: Option<nat>)

  datatype SkipReason = NoHireDate | NotAnniversary | NoRuleReached

  datatype Verdict = Granted(minutes: nat, serviceMonths: int) | Skipped(reason: SkipReason)

  datatype PlannedGrant = PlannedGrant(employee: nat, minutes: nat, serviceMonths: int)

  /** The highest step that is reached: what filtering and sorting the rules leaves first. */
  function BestRule(rules: seq<Rule>, months: int): Option<Rule> {
    if rules == [] then None
    else
      var best, last := BestRule(rules[..|rules| - 1], months), rules[|rules| - 1];
      if last.serviceMonths <= months && (best == None || best.value.serviceMonths < last.serviceMonths) then Some(last)
      else best
  }

  /** Step `i` is reached, and no step that is reached is higher, or as high and listed before it. */
  predicate IsHighestReached(rules: seq<Rule>, months: int, i: nat) {
    && i < |rules| && rules[i].serviceMonths <= months
    && forall j :: 0 <= j < |rules| && rules[j].serviceMonths <= months ==>
         rules[j].serviceMonths < rules[i].serviceMonths
         || (rules[j].serviceMonths == rules[i].serviceMonths && i <= j)
  }

  lemma {:induction false} BestRuleIsTheHighestReached(rules: seq<Rule>, months: int)
    ensures var best := BestRule(rules, months);
            && (best == None <==> forall i :: 0 <= i < |rules| ==> months < rules[i].serviceMonths)
            && (best.Some? ==> exists i: nat :: IsHighestReached(rules, months, i) && rules[i] == best.value)
  {
    if rules != [] {
      var init, last := rules[..|rules| - 1], rules[|rules| - 1];
      BestRuleIsTheHighestReached(init, months);
      assert rules == init + [last];
      var before, best := BestRule(init, months), BestRule(rules, months);
      if before.Some? {
        var i: nat :| IsHighestReached(init, months, i) && init[i] == before.value;
        if best == before {
          assert rules[i] == init[i] && IsHighestReached(rules, months, i);
        }
      }
      if best.Some? && best != before { assert IsHighestReached(rules, months, |init|); }
    }
  }

  function Judge(basis: Basis, on: nat, rules: seq<Rule>, c: Candidate): Verdict {
    if c.hired == None then Skipped(NoHireDate)
    else if basis == HireAnniversary && !IsAnniversary(DateOf(c.hired.value), DateOf(on)) then Skipped(NotAnniversary)
    else if c.hired.value > on then Skipped(NoRuleReached)
    else
      var months := ServiceMonths(DateOf(c.hired.value), DateOf(on));
      var best := BestRule(rules, months);
      if best == None then Skipped(NoRuleReached) else Granted(best.value.minutes, months)
  }

  function GrantsOf(basis: Basis, on: nat, rules: seq<Rule>, candidates: seq<Candidate>): seq<PlannedGrant> {
    if candidates == [] then []
    else
      var c := candidates[|candidates| - 1];
      var v := Judge(basis, on, rules, c);
      GrantsOf(basis, on, rules, candidates[..|candidates| - 1])
      + if v.Granted? then [PlannedGrant(c.employee, v.minutes, v.serviceMonths)] else []
  }

  function SkipsOf(basis: Basis, on: nat, rules: seq<Rule>, candidates: seq<Candidate>): seq<(nat, SkipReason)> {
    if candidates == [] then []
    else
      var c := candidates[|candidates| - 1];
      var v := Judge(basis, on, rules, c);
      SkipsOf(basis, on, rules, candidates[..|candidates| - 1]) + if v.Skipped? then [(c.employee, v.reason)] else []
  }

  method PlanLeaveGrants(basis: Basis, on: nat, rules: seq<Rule>, candidates: seq<Candidate>)
    returns (grants: seq<PlannedGrant>, skipped: seq<(nat, SkipReason)>)
    ensures grants == GrantsOf(basis, on, rules, candidates) && skipped == SkipsOf(basis, on, rules, candidates)
    ensures |grants| + |skipped| == |candidates|
  {
    grants, skipped := [], [];
    for i := 0 to |candidates|
      invariant grants == GrantsOf(basis, on, rules, candidates[..i])
      invariant skipped == SkipsOf(basis, on, rules, candidates[..i])
      invariant |grants| + |skipped| == i
    {
      hide DateOf, BestRule, ServiceMonths, IsAnniversary;
      var c := candidates[i];
      assert candidates[..i + 1][..i] == candidates[..i];
      if c.hired == None { skipped := skipped + [(c.employee, NoHireDate)]; continue; }
      if basis == HireAnniversary && !IsAnniversary(DateOf(c.hired.value), DateOf(on)) {
        skipped := skipped + [(c.employee, NotAnniversary)];
        continue;
      }
      if c.hired.value > on { skipped := skipped + [(c.employee, NoRuleReached)]; continue; }
      var months := ServiceMonths(DateOf(c.hired.value), DateOf(on));
      var best := BestRule(rules, months);
      if best == None { skipped := skipped + [(c.employee, NoRuleReached)]; continue; }
      grants := grants + [PlannedGrant(c.employee, best.value.minutes, months)];
    }
    assert candidates[..|candidates|] == candidates;
  }

  /** The day is one on which `c` may be granted leave: not before the day of hire, and an anniversary if it has to
      be one. */
  predicate IsConsidered(basis: Basis, on: nat, c: Candidate) {
    && c.hired.Some? && c.hired.value <= on
    && (basis == FixedDate || IsSameDayOfTheYear(c.hired.value, on))
  }

  predicate IsSameDayOfTheYear(hired: nat, on: nat) {
    DateOf(hired).month == DateOf(on).month && DateOf(hired).day == DateOf(on).day
  }

  predicate IsReached(on: nat, c: Candidate, r: Rule) {
    c.hired.Some? && HasServed(DateOf(c.hired.value), DateOf(on), r.serviceMonths)
  }

  /** Step `i` is the one that `c` gets: reached, no reached one higher, and the first listed of its height. */
  predicate Earns(basis: Basis, on: nat, rules: seq<Rule>, c: Candidate, i: nat) {
    && IsConsidered(basis, on, c) && i < |rules| && IsReached(on, c, rules[i])
    && forall j :: 0 <= j < |rules| && IsReached(on, c, rules[j]) ==>
         rules[j].serviceMonths < rules[i].serviceMonths
         || (rules[j].serviceMonths == rules[i].serviceMonths && i <= j)
  }

  /** `g` gives `c` the minutes of its step and names the months completed since the day of hire. */
  ghost predicate IsGrantFor(basis: Basis, on: nat, rules: seq<Rule>, c: Candidate, g: PlannedGrant) {
    && g.employee == c.employee
    && (exists i: nat :: Earns(basis, on, rules, c, i) && rules[i].minutes == g.minutes)
    && HasServed(DateOf(c.hired.value), DateOf(on), g.serviceMonths)
    && !HasServed(DateOf(c.hired.value), DateOf(on), g.serviceMonths + 1)
  }

  /** Why `c` is left out. A day that is no anniversary is named before a day of hire that has not come. */
  predicate IsReasonFor(basis: Basis, on: nat, rules: seq<Rule>, c: Candidate, reason: SkipReason) {
    match reason
    case NoHireDate => c.hired == None
    case NotAnniversary => basis == HireAnniversary && c.hired.Some? && !IsSameDayOfTheYear(c.hired.value, on)
    case NoRuleReached =>
      && c.hired.Some? && (basis == HireAnniversary ==> IsSameDayOfTheYear(c.hired.value, on))
      && (on < c.hired.value || forall i :: 0 <= i < |rules| ==> !IsReached(on, c, rules[i]))
  }

  lemma ReachedIff(on: nat, rules: seq<Rule>, c: Candidate)
    requires c.hired.Some?
    ensures var months := ServiceMonths(DateOf(c.hired.value), DateOf(on));
            && (forall k :: HasServed(DateOf(c.hired.value), DateOf(on), k) <==> k <= months)
            && (forall i :: 0 <= i < |rules| ==> (IsReached(on, c, rules[i]) <==> rules[i].serviceMonths <= months))
  {
    var hired, day := DateOf(c.hired.value), DateOf(on);
    hide DateOf, ServiceMonths, HasServed;
    forall k ensures HasServed(hired, day, k) <==> k <= ServiceMonths(hired, day) { ServedIff(hired, day, k); }
  }

  lemma OnlyOneIsEarned(basis: Basis, on: nat, rules: seq<Rule>, c: Candidate, i: nat, j: nat)
    requires Earns(basis, on, rules, c, i) && Earns(basis, on, rules, c, j)
    ensures i == j
  {
    hide IsReached, IsConsidered;
  }

  lemma VerdictGrants(basis: Basis, on: nat, rules: seq<Rule>, c: Candidate)
    ensures var v := Judge(basis, on, rules, c);
            forall g :: IsGrantFor(basis, on, rules, c, g) <==>
              v.Granted? && g == PlannedGrant(c.employee, v.minutes, v.serviceMonths)
  {
    var v := Judge(basis, on, rules, c);
    if c.hired.Some? {
      var months := ServiceMonths(DateOf(c.hired.value), DateOf(on));
      BestRuleIsTheHighestReached(rules, months);
      ReachedIff(on, rules, c);
      hide BestRule, DateOf, ServiceMonths, HasServed, IsReached;
      if v.Granted? {
        var i: nat :| IsHighestReached(rules, months, i) && rules[i].minutes == v.minutes;
        assert Earns(basis, on, rules, c, i);
        hide IsHighestReached, Earns, IsConsidered, Judge;
        forall g | IsGrantFor(basis, on, rules, c, g) ensures g.minutes == v.minutes {
          var j: nat :| Earns(basis, on, rules, c, j) && rules[j].minutes == g.minutes;
          OnlyOneIsEarned(basis, on, rules, c, i, j);
        }
      } else {
        hide IsSameDayOfTheYear;
        assert forall i: nat :: !Earns(basis, on, rules, c, i);
      }
    }
  }

  lemma VerdictSkips(basis: Basis, on: nat, rules: seq<Rule>, c: Candidate)
    ensures forall reason :: IsReasonFor(basis, on, rules, c, reason) <==> Judge(basis, on, rules, c) == Skipped(reason)
  {
    if c.hired.Some? {
      BestRuleIsTheHighestReached(rules, ServiceMonths(DateOf(c.hired.value), DateOf(on)));
      ReachedIff(on, rules, c);
      hide BestRule, DateOf, ServiceMonths, HasServed, IsReached, IsHighestReached;
    }
  }

  ghost predicate IsPlanned(basis: Basis, on: nat, rules: seq<Rule>, candidates: seq<Candidate>, g: PlannedGrant) {
    exists i :: 0 <= i < |candidates| && IsGrantFor(basis, on, rules, candidates[i], g)
  }

  ghost predicate IsLeftOut(
      basis: Basis, on: nat, rules: seq<Rule>, candidates: seq<Candidate>, employee: nat, reason: SkipReason)
  {
    exists i :: 0 <= i < |candidates| && candidates[i].employee == employee
      && IsReasonFor(basis, on, rules, candidates[i], reason)
  }

  /** The plan, in dates, completed months and steps: who is granted how much, and why anybody else is not. */
  lemma {:induction false} PlanIs(basis: Basis, on: nat, rules: seq<Rule>, candidates: seq<Candidate>)
    ensures forall g :: g in GrantsOf(basis, on, rules, candidates) <==> IsPlanned(basis, on, rules, candidates, g)
    ensures forall employee: nat, reason :: (employee, reason) in SkipsOf(basis, on, rules, candidates) <==>
              IsLeftOut(basis, on, rules, candidates, employee, reason)
  {
    if candidates != [] {
      var init, c := candidates[..|candidates| - 1], candidates[|candidates| - 1];
      PlanIs(basis, on, rules, init);
      VerdictGrants(basis, on, rules, c);
      VerdictSkips(basis, on, rules, c);
      hide Judge, IsGrantFor, IsReasonFor;
      assert candidates == init + [c];
      forall g ensures IsPlanned(basis, on, rules, candidates, g) <==>
                       IsPlanned(basis, on, rules, init, g) || IsGrantFor(basis, on, rules, c, g)
      {
        if IsPlanned(basis, on, rules, init, g) {
          var i :| 0 <= i < |init| && IsGrantFor(basis, on, rules, init[i], g);
          assert candidates[i] == init[i];
        }
      }
      forall employee: nat, reason ensures IsLeftOut(basis, on, rules, candidates, employee, reason) <==>
          IsLeftOut(basis, on, rules, init, employee, reason)
          || (c.employee == employee && IsReasonFor(basis, on, rules, c, reason))
      {
        if IsLeftOut(basis, on, rules, init, employee, reason) {
          var i :| 0 <= i < |init| && init[i].employee == employee && IsReasonFor(basis, on, rules, init[i], reason);
          assert candidates[i] == init[i];
        }
      }
    }
  }

  predicate DistinctEmployees(candidates: seq<Candidate>) {
    forall i, j :: 0 <= i < j < |candidates| ==> candidates[i].employee != candidates[j].employee
  }

  predicate DistinctGrants(grants: seq<PlannedGrant>) {
    forall i, j :: 0 <= i < j < |grants| ==> grants[i].employee != grants[j].employee
  }

  /** Nobody is planned twice: one candidate, one verdict. */
  lemma {:induction false} GrantsAreDistinct(basis: Basis, on: nat, rules: seq<Rule>, candidates: seq<Candidate>)
    requires DistinctEmployees(candidates)
    ensures DistinctGrants(GrantsOf(basis, on, rules, candidates))
    ensures forall g :: g in GrantsOf(basis, on, rules, candidates) ==>
              exists i :: 0 <= i < |candidates| && candidates[i].employee == g.employee
  {
    hide Judge;
    if candidates != [] {
      var n := |candidates| - 1;
      GrantsAreDistinct(basis, on, rules, candidates[..n]);
      var init := GrantsOf(basis, on, rules, candidates[..n]);
      forall k | 0 <= k < |init| ensures init[k].employee != candidates[n].employee {
        assert init[k] in init;
        var i :| 0 <= i < n && candidates[..n][i].employee == init[k].employee;
      }
      forall g | g in init ensures exists i :: 0 <= i < |candidates| && candidates[i].employee == g.employee {
        var i :| 0 <= i < n && candidates[..n][i].employee == g.employee;
        assert candidates[i].employee == g.employee;
      }
      if Judge(basis, on, rules, candidates[n]).Granted? { assert candidates[n].employee == candidates[n].employee; }
    }
  }

  // ---------------------------------------------------------------------------
  // The ledger and the days that were run
  // ---------------------------------------------------------------------------

  datatype Source = FromRule | FromImport | ByHand

  datatype Entry = Entry(
    employee: nat, day: nat, minutes: nat, expiresOn: Option<nat>, source: Source, automatic: bool)

  datatype Counts = Counts(granted: nat, skipped: nat)

  /** What a day's transaction reads besides the ledger, and how long its grants last. */
  datatype World = World(rules: seq<Rule>, candidates: seq<Candidate>, expiresAfterMonths: Option<nat>)

  datatype Book = Book(runs: map<nat, Counts>, ledger: seq<Entry>)

  predicate IsBulk(e: Entry, day: nat) {
    e.day == day && e.source != ByHand
  }

  /** `listBulkGrantedEmployees` */
  function AlreadyGranted(ledger: seq<Entry>, day: nat): set<nat> {
    set i | 0 <= i < |ledger| && IsBulk(ledger[i], day) :: ledger[i].employee
  }

  /** The rows a plan adds: none for an employee that already has one. */
  function NewRows(
    grants: seq<PlannedGrant>, already: set<nat>, day: nat, until: Option<nat>, automatic: bool): seq<Entry>
  {
    if grants == [] then []
    else
      var g := grants[|grants| - 1];
      NewRows(grants[..|grants| - 1], already, day, until, automatic)
      + if g.employee in already then [] else [Entry(g.employee, day, g.minutes, until, FromRule, automatic)]
  }

  function PlanRows(b: Book, basis: Basis, w: World, day: nat, automatic: bool): seq<Entry> {
    NewRows(
      GrantsOf(basis, day, w.rules, w.candidates), AlreadyGranted(b.ledger, day), day,
      ExpiryOf(day, w.expiresAfterMonths), automatic)
  }

  /** `employee` has a row of the day that no person entered by hand. */
  ghost predicate HasItsGrant(ledger: seq<Entry>, employee: nat, day: nat) {
    exists i :: 0 <= i < |ledger|
      && ledger[i].employee == employee && ledger[i].day == day && ledger[i].source != ByHand
  }

  /** `e` is the row of a planned grant. */
  ghost predicate IsRowOf(g: PlannedGrant, day: nat, until: Option<nat>, automatic: bool, e: Entry) {
    && e.employee == g.employee && e.minutes == g.minutes && e.day == day && e.expiresOn == until
    && e.source == FromRule && e.automatic == automatic
  }

  ghost predicate IsNewRow(
      grants: seq<PlannedGrant>, ledger: seq<Entry>, day: nat, until: Option<nat>, automatic: bool, e: Entry)
  {
    exists g :: g in grants && !HasItsGrant(ledger, g.employee, day) && IsRowOf(g, day, until, automatic, e)
  }

  /** Exactly who gets a row on a day: those the plan grants leave, unless they have a row of the day that came from the
      rules or an import. */
  lemma {:induction false} RowsArePlanned(
    grants: seq<PlannedGrant>, ledger: seq<Entry>, day: nat, until: Option<nat>, automatic: bool)
    ensures forall e :: e in NewRows(grants, AlreadyGranted(ledger, day), day, until, automatic) <==>
              IsNewRow(grants, ledger, day, until, automatic, e)
  {
    if grants != [] {
      var init, g := grants[..|grants| - 1], grants[|grants| - 1];
      RowsArePlanned(init, ledger, day, until, automatic);
      assert g.employee in AlreadyGranted(ledger, day) <==> HasItsGrant(ledger, g.employee, day);
      hide AlreadyGranted, HasItsGrant;
      assert grants == init + [g];
      forall e ensures IsNewRow(grants, ledger, day, until, automatic, e) <==>
          IsNewRow(init, ledger, day, until, automatic, e)
          || (!HasItsGrant(ledger, g.employee, day) && IsRowOf(g, day, until, automatic, e))
      {
        if IsNewRow(init, ledger, day, until, automatic, e) {
          var h :| h in init && !HasItsGrant(ledger, h.employee, day) && IsRowOf(h, day, until, automatic, e);
          assert h in grants;
        }
      }
    }
  }

  lemma {:induction false} FewerRowsThanGrants(
    grants: seq<PlannedGrant>, already: set<nat>, day: nat, until: Option<nat>, automatic: bool)
    ensures |NewRows(grants, already, day, until, automatic)| <= |grants|
  {
    if grants != [] { FewerRowsThanGrants(grants[..|grants| - 1], already, day, until, automatic); }
  }

  /** Those the plan skips and those that already have their grant. */
  function SkippedCount(b: Book, basis: Basis, w: World, day: nat): nat {
    var grants, already := GrantsOf(basis, day, w.rules, w.candidates), AlreadyGranted(b.ledger, day);
    var until := ExpiryOf(day, w.expiresAfterMonths);
    FewerRowsThanGrants(grants, already, day, until, true);
    |SkipsOf(basis, day, w.rules, w.candidates)| + |grants| - |NewRows(grants, already, day, until, true)|
  }

  /** A day's transaction: claim, grants and counts together. */
  function DayRun(b: Book, basis: Basis, w: World, day: nat): Book {
    if day in b.runs then b
    else
      var rows := PlanRows(b, basis, w, day, true);
      Book(b.runs[day := Counts(|rows|, SkippedCount(b, basis, w, day))], b.ledger + rows)
  }

  function BulkRun(b: Book, basis: Basis, w: World, day: nat): Book {
    b.(ledger := b.ledger + PlanRows(b, basis, w, day, false))
  }

  ghost predicate IsDueRow(b: Book, basis: Basis, w: World, day: nat, automatic: bool, e: Entry) {
    exists g ::
      && IsPlanned(basis, day, w.rules, w.candidates, g) && !HasItsGrant(b.ledger, g.employee, day)
      && IsRowOf(g, day, ExpiryOf(day, w.expiresAfterMonths), automatic, e)
  }

  lemma {:induction false} VerdictsAddUp(basis: Basis, on: nat, rules: seq<Rule>, candidates: seq<Candidate>)
    ensures |GrantsOf(basis, on, rules, candidates)| + |SkipsOf(basis, on, rules, candidates)| == |candidates|
  {
    if candidates != [] { VerdictsAddUp(basis, on, rules, candidates[..|candidates| - 1]); }
  }

  /** What a day's transaction leaves: a row for everyone whom the table of steps gives leave on that day and who has
      none yet, nothing else, and a record that counts those rows and all other candidates. A bulk grant leaves the same
      rows, marked as not automatic, and no record. */
  lemma DayGrantsWhatIsDue(b: Book, basis: Basis, w: World, day: nat)
    requires day !in b.runs
    ensures var b' := DayRun(b, basis, w, day);
            && b.ledger <= b'.ledger
            && (forall e :: e in b'.ledger[|b.ledger|..] <==> IsDueRow(b, basis, w, day, true, e))
            && b'.runs.Keys == b.runs.Keys + {day}
            && (forall other :: other in b.runs ==> b'.runs[other] == b.runs[other])
            && b'.runs[day].granted == |b'.ledger| - |b.ledger|
            && b'.runs[day].granted + b'.runs[day].skipped == |w.candidates|
    ensures var b' := BulkRun(b, basis, w, day);
            && b.ledger <= b'.ledger && b'.runs == b.runs
            && (forall e :: e in b'.ledger[|b.ledger|..] <==> IsDueRow(b, basis, w, day, false, e))
  {
    var grants, until := GrantsOf(basis, day, w.rules, w.candidates), ExpiryOf(day, w.expiresAfterMonths);
    var already := AlreadyGranted(b.ledger, day);
    PlanIs(basis, day, w.rules, w.candidates);
    VerdictsAddUp(basis, day, w.rules, w.candidates);
    RowsArePlanned(grants, b.ledger, day, until, true);
    RowsArePlanned(grants, b.ledger, day, until, false);
    hide GrantsOf, SkipsOf, NewRows, IsPlanned, HasItsGrant, IsRowOf, AlreadyGranted;
    assert DayRun(b, basis, w, day).ledger[|b.ledger|..] == NewRows(grants, already, day, until, true);
    assert BulkRun(b, basis, w, day).ledger[|b.ledger|..] == NewRows(grants, already, day, until, false);
  }

  // ---------------------------------------------------------------------------
  // Which days a run still has to do
  // ---------------------------------------------------------------------------

  /** `findLastGrantRun` */
  ghost predicate IsLastRun(runs: map<nat, Counts>, last: Option<nat>) {
    match last
    case None => runs == map[]
    case Some(day) => day in runs && forall other :: other in runs ==> other <= day
  }

  function FirstPending(t: LeaveType, last: Option<nat>): nat {
    if last == None then t.autoFrom.GetOr(0) else last.value + 1
  }

  function LastPending(t: LeaveType, last: Option<nat>, today: nat, maximum: nat): int {
    var through := FirstPending(t, last) + maximum - 1;
    if through < today then through else today
  }

  /** `pendingDatesOf`: due days from the day after the last run, at most `maximum` days ahead and not after today. */
  function Pending(t: LeaveType, last: Option<nat>, today: nat, maximum: nat): seq<nat> {
    if t.basis == None || t.autoFrom == None then []
    else DueDays(t, FirstPending(t, last), LastPending(t, last, today, maximum))
  }

  // ---------------------------------------------------------------------------
  // The procedures, step by step
  // ---------------------------------------------------------------------------

  class Scheduler {
    var runs: map<nat, Counts>
    var ledger: seq<Entry>
    const maximumCatchUpDays: nat

    constructor (maximum: nat)
      ensures View() == Book(map[], []) && maximumCatchUpDays == maximum
    {
      runs, ledger, maximumCatchUpDays := map[], [], maximum;
    }

    function View(): Book
      reads this
    {
      Book(runs, ledger)
    }

    method FindLastGrantRun() returns (last: Option<nat>)
      ensures IsLastRun(runs, last)
    {
      last := None;
      var rest := runs.Keys;
      while rest != {}
        invariant rest <= runs.Keys
        invariant last == None ==> rest == runs.Keys
        invariant last.Some? ==>
                    last.value in runs && forall other :: other in runs && other !in rest ==> other <= last.value
      {
        var day: nat :| day in rest;
        rest := rest - {day};
        if last == None || last.value < day { last := Some(day); }
      }
    }

    method PendingDates(t: LeaveType, today: nat) returns (dates: seq<nat>, last: Option<nat>)
      ensures IsLastRun(runs, last) && dates == Pending(t, last, today, maximumCatchUpDays)
    {
      var found := FindLastGrantRun();
      last := found;
      if t.basis == None || t.autoFrom == None { return [], last; }
      var from := if found == None then t.autoFrom.value else found.value + 1;
      if from > today { return [], last; }
      var through := from + maximumCatchUpDays - 1;
      dates := LeaveGrantDatesBetween(t, from, if through < today then through else today);
    }

    /** Appends the rows of a plan, one employee after the other. */
    method AddGrants(grants: seq<PlannedGrant>, day: nat, until: Option<nat>, automatic: bool) returns (granted: nat)
      modifies this`ledger
      ensures var rows := NewRows(grants, AlreadyGranted(old(ledger), day), day, until, automatic);
              ledger == old(ledger) + rows && granted == |rows|
    {
      var already := AlreadyGranted(ledger, day);
      granted := 0;
      for i := 0 to |grants|
        invariant ledger == old(ledger) + NewRows(grants[..i], already, day, until, automatic)
        invariant granted == |NewRows(grants[..i], already, day, until, automatic)|
      {
        hide AlreadyGranted;
        assert grants[..i + 1][..i] == grants[..i];
        if grants[i].employee in already { continue; }
        ledger := ledger + [Entry(grants[i].employee, day, grants[i].minutes, until, FromRule, automatic)];
        granted := granted + 1;
      }
      assert grants[..|grants|] == grants;
    }

    /** `runDay`: nothing happens unless the claim is won. `fails` is a transaction that does not commit. */
    method RunDay(t: LeaveType, w: World, day: nat, fails: bool) returns (summary: Option<Counts>)
      requires t.basis.Some?
      modifies this
      ensures View() == if fails then old(View()) else DayRun(old(View()), t.basis.value, w, day)
      ensures summary == if fails || day in old(runs) then None else Some(runs[day])
    {
      if fails || day in runs { return None; }
      var grants, skipped := PlanLeaveGrants(t.basis.value, day, w.rules, w.candidates);
      hide GrantsOf, SkipsOf, NewRows, AlreadyGranted;
      var until := ExpiryOf(day, w.expiresAfterMonths);
      var granted := AddGrants(grants, day, until, true);
      FewerRowsThanGrants(grants, AlreadyGranted(old(ledger), day), day, until, true);
      var counts := Counts(granted, |skipped| + |grants| - granted);
      runs := runs[day := counts];
      return Some(counts);
    }

    /** `grantInBulk` on the same leave type. */
    method GrantInBulk(basis: Basis, w: World, day: nat) returns (granted: nat)
      modifies this`ledger
      ensures View() == BulkRun(old(View()), basis, w, day)
      ensures granted == |ledger| - |old(ledger)|
    {
      var grants, skipped := PlanLeaveGrants(basis, day, w.rules, w.candidates);
      granted := AddGrants(grants, day, ExpiryOf(day, w.expiresAfterMonths), false);
    }

    /** `runWorkspace` for one leave type: the pending days in order, up to the first that fails. */
    method Run(t: LeaveType, worlds: nat -> World, today: nat, failsAt: nat)
      returns (summaries: seq<(nat, Counts)>, last: Option<nat>)
      modifies this
      ensures IsLastRun(old(runs), last)
      ensures var dates := Pending(t, last, today, maximumCatchUpDays);
              var done := if failsAt < |dates| then dates[..failsAt] else dates;
              View() == DaysRun(old(View()), t, worlds, done)
    {
      var dates, read := PendingDates(t, today);
      last := read;
      summaries := [];
      var i := 0;
      while i < |dates|
        invariant 0 <= i <= |dates| && (failsAt < |dates| ==> i <= failsAt)
        invariant View() == DaysRun(old(View()), t, worlds, dates[..i])
      {
        PendingHasBasis(t, last, today, maximumCatchUpDays);
        assert dates[..i + 1][..i] == dates[..i];
        hide DayRun, Pending;
        var summary := RunDay(t, worlds(dates[i]), dates[i], i == failsAt);
        if i == failsAt { return; }
        if summary.Some? { summaries := summaries + [(dates[i], summary.value)]; }
        i := i + 1;
      }
      assert dates[..|dates|] == dates;
    }

    /** `preview`: the first pending day with the counts its run would record. */
    method Preview(t: LeaveType, w: World, today: nat) returns (summary: Option<(nat, Counts)>, last: Option<nat>)
      ensures IsLastRun(runs, last)
      ensures var dates := Pending(t, last, today, maximumCatchUpDays);
              if dates == [] then summary == None
              else
                && summary.Some? && summary.value.0 == dates[0]
                && PreviewCounts(View(), t, w, dates[0]) == Some(summary.value.1)
    {
      var dates, read := PendingDates(t, today);
      last := read;
      if dates == [] { return None, last; }
      PendingHasBasis(t, last, today, maximumCatchUpDays);
      var grants, skipped := PlanLeaveGrants(t.basis.value, dates[0], w.rules, w.candidates);
      hide GrantsOf, SkipsOf, AlreadyGranted, Pending;
      var left := WithoutGranted(grants, AlreadyGranted(ledger, dates[0]));
      FewerWithout(grants, AlreadyGranted(ledger, dates[0]));
      return Some((dates[0], Counts(|left|, |skipped| + (|grants| - |left|)))), last;
    }
  }

  lemma PendingHasBasis(t: LeaveType, last: Option<nat>, today: nat, maximum: nat)
    requires Pending(t, last, today, maximum) != []
    ensures t.basis.Some? && t.autoFrom.Some?
  {
  }

  /** The days of a run, in order. */
  function DaysRun(b: Book, t: LeaveType, worlds: nat -> World, days: seq<nat>): Book {
    if days == [] || t.basis == None then b
    else
      var day := days[|days| - 1];
      DayRun(DaysRun(b, t, worlds, days[..|days| - 1]), t.basis.value, worlds(day), day)
  }

  /** The filter of `preview`. */
  function WithoutGranted(grants: seq<PlannedGrant>, already: set<nat>): seq<PlannedGrant> {
    if grants == [] then []
    else
      (if grants[0].employee in already then [] else [grants[0]]) + WithoutGranted(grants[1..], already)
  }

  lemma {:induction false} FewerWithout(grants: seq<PlannedGrant>, already: set<nat>)
    ensures |WithoutGranted(grants, already)| <= |grants|
  {
    if grants != [] { FewerWithout(grants[1..], already); }
  }

  function PreviewCounts(b: Book, t: LeaveType, w: World, day: nat): Option<Counts> {
    if t.basis == None then None
    else
      var grants := GrantsOf(t.basis.value, day, w.rules, w.candidates);
      var left := WithoutGranted(grants, AlreadyGranted(b.ledger, day));
      FewerWithout(grants, AlreadyGranted(b.ledger, day));
      Some(Counts(|left|, |SkipsOf(t.basis.value, day, w.rules, w.candidates)| + (|grants| - |left|)))
  }

  lemma {:induction false} WithoutSnoc(grants: seq<PlannedGrant>, already: set<nat>)
    requires grants != []
    ensures var n := |grants| - 1;
            WithoutGranted(grants, already) ==
            WithoutGranted(grants[..n], already) + if grants[n].employee in already then [] else [grants[n]]
  {
    var n := |grants| - 1;
    if n > 0 {
      WithoutSnoc(grants[1..], already);
      assert grants[1..][..n - 1] == grants[..n][1..];
    }
  }

  lemma {:induction false} FilterCountsTheRows(
    grants: seq<PlannedGrant>, already: set<nat>, day: nat, until: Option<nat>, automatic: bool)
    ensures |WithoutGranted(grants, already)| == |NewRows(grants, already, day, until, automatic)|
  {
    if grants != [] {
      FilterCountsTheRows(grants[..|grants| - 1], already, day, until, automatic);
      WithoutSnoc(grants, already);
      hide WithoutGranted;
    }
  }

  /** What `preview` shows is exactly what the next run's first day records. */
  lemma PreviewIsTheNextDay(b: Book, t: LeaveType, w: World, last: Option<nat>, today: nat, maximum: nat)
    requires IsLastRun(b.runs, last) && Pending(t, last, today, maximum) != []
    ensures var day := Pending(t, last, today, maximum)[0];
            && day !in b.runs
            && t.basis.Some?
            && PreviewCounts(b, t, w, day) == Some(DayRun(b, t.basis.value, w, day).runs[day])
  {
    var days := Pending(t, last, today, maximum);
    var day := days[0];
    DueDaysAre(t, FirstPending(t, last), LastPending(t, last, today, maximum));
    assert day in days;
    FilterCountsTheRows(
      GrantsOf(t.basis.value, day, w.rules, w.candidates), AlreadyGranted(b.ledger, day), day,
      ExpiryOf(day, w.expiresAfterMonths), true);
    hide GrantsOf, SkipsOf, NewRows, WithoutGranted, AlreadyGranted, DueDays;
  }

  // ---------------------------------------------------------------------------
  // Concurrent runs, failing days, and manual grants between them
  // ---------------------------------------------------------------------------

  /** `working` holds, for each run in progress, the days it read at its start and has not come to yet. */
  datatype System = System(book: Book, working: map<nat, seq<nat>>)

  datatype Step =
    | Start(run: nat, today: nat, last: Option<nat>)
    | Day(run: nat, w: World, fails: bool)
    | Stop(run: nat)
    | Bulk(basis: Basis, w: World, day: nat)
    | Import(employee: nat, day: nat, minutes: nat, expiresOn: Option<nat>)

  ghost predicate Enabled(t: LeaveType, maximum: nat, s: System, step: Step) {
    match step
    case Start(run, today, last) => run !in s.working && IsLastRun(s.book.runs, last)
    case Day(run, w, fails) => run in s.working && s.working[run] != [] && DistinctEmployees(w.candidates)
    case Stop(run) => run in s.working
    case Bulk(basis, w, day) => DistinctEmployees(w.candidates)
    case Import(employee, day, minutes, expiresOn) =>
      employee !in AlreadyGranted(s.book.ledger, day) && (expiresOn.Some? ==> day <= expiresOn.value)
  }

  function Next(t: LeaveType, maximum: nat, s: System, step: Step): System
    requires step.Day? ==> step.run in s.working && s.working[step.run] != []
  {
    match step
    case Start(run, today, last) => s.(working := s.working[run := Pending(t, last, today, maximum)])
    case Day(run, w, fails) =>
      if fails || t.basis == None then s.(working := s.working - {run})
      else
        System(DayRun(s.book, t.basis.value, w, s.working[run][0]), s.working[run := s.working[run][1..]])
    case Stop(run) => s.(working := s.working - {run})
    case Bulk(basis, w, day) => s.(book := BulkRun(s.book, basis, w, day))
    case Import(employee, day, minutes, expiresOn) =>
      s.(book := s.book.(ledger := s.book.ledger + [Entry(employee, day, minutes, expiresOn, FromImport, false)]))
  }

  predicate IsStart(t: LeaveType, day: nat) {
    t.autoFrom.Some? && t.autoFrom.value <= day && IsDue(t, day)
  }

  /** The claimed days are the due days from the first to the latest claimed one: none missing, none else. */
  ghost predicate NoHole(t: LeaveType, runs: map<nat, Counts>) {
    && (forall day :: day in runs ==> IsStart(t, day))
    && (forall day: nat, later: nat :: IsStart(t, day) && later in runs && day <= later ==> day in runs)
  }

  /** Every due day before an element of the list is claimed or earlier in the list. */
  ghost predicate Continues(t: LeaveType, runs: map<nat, Counts>, days: seq<nat>) {
    && Ascending(days)
    && (forall i :: 0 <= i < |days| ==> IsStart(t, days[i]))
    && (forall i, day: nat :: 0 <= i < |days| && IsStart(t, day) && day < days[i] ==> day in runs || day in days[..i])
  }

  /** No employee has two bulk grants for one day. */
  predicate NoDoubleGrant(ledger: seq<Entry>) {
    forall i, j :: 0 <= i < j < |ledger| && ledger[i].source != ByHand && ledger[j].source != ByHand ==>
      ledger[i].employee != ledger[j].employee || ledger[i].day != ledger[j].day
  }

  function AutomaticOn(ledger: seq<Entry>, day: nat): nat {
    if ledger == [] then 0
    else
      AutomaticOn(ledger[..|ledger| - 1], day)
      + if ledger[|ledger| - 1].automatic && ledger[|ledger| - 1].day == day then 1 else 0
  }

  /** A claimed day has exactly the automatic grants its record counts; a day that is not claimed has none. */
  ghost predicate GrantsFollowClaims(b: Book) {
    forall day :: AutomaticOn(b.ledger, day) == if day in b.runs then b.runs[day].granted else 0
  }

  ghost predicate Inv(t: LeaveType, s: System) {
    && NoHole(t, s.book.runs)
    && (forall run :: run in s.working ==> Continues(t, s.book.runs, s.working[run]))
    && NoDoubleGrant(s.book.ledger)
    && GrantsFollowClaims(s.book)
  }

  lemma PendingContinues(t: LeaveType, runs: map<nat, Counts>, last: Option<nat>, today: nat, maximum: nat)
    requires NoHole(t, runs) && IsLastRun(runs, last)
    ensures Continues(t, runs, Pending(t, last, today, maximum))
  {
    var days := Pending(t, last, today, maximum);
    if days != [] {
      var from, through := FirstPending(t, last), LastPending(t, last, today, maximum);
      DueDaysAre(t, from, through);
      hide DueDays, IsDue;
      forall i | 0 <= i < |days| ensures IsStart(t, days[i]) {
        assert days[i] in days;
        if last.Some? { assert IsStart(t, last.value); }
      }
      forall i, day: nat | 0 <= i < |days| && IsStart(t, day) && day < days[i] ensures day in runs || day in days[..i] {
        assert days[i] in days;
        if from <= day { InTheList(days, day, i); }
      }
    }
  }

  lemma InTheList(days: seq<nat>, day: nat, i: nat)
    requires Ascending(days) && day in days && i < |days| && day < days[i]
    ensures day in days[..i]
  {
    var k :| 0 <= k < |days| && days[k] == day;
    assert k < i;
    assert days[..i][k] == day;
  }

  lemma ClaimingKeepsNoHole(t: LeaveType, runs: map<nat, Counts>, days: seq<nat>, counts: Counts)
    requires NoHole(t, runs) && days != [] && Continues(t, runs, days)
    ensures NoHole(t, runs[days[0] := counts])
  {
    var runs' := runs[days[0] := counts];
    forall day: nat, later: nat | IsStart(t, day) && later in runs' && day <= later ensures day in runs' {
      assert days[..0] == [];
    }
  }

  lemma ClaimingKeepsLists(t: LeaveType, runs: map<nat, Counts>, day: nat, counts: Counts, days: seq<nat>)
    requires Continues(t, runs, days)
    ensures Continues(t, runs[day := counts], days)
  {
    hide IsStart;
  }

  lemma RestContinues(t: LeaveType, runs: map<nat, Counts>, days: seq<nat>)
    requires days != [] && Continues(t, runs, days) && days[0] in runs
    ensures Continues(t, runs, days[1..])
  {
    hide IsStart;
    forall i, day: nat | 0 <= i < |days| - 1 && IsStart(t, day) && day < days[1..][i]
      ensures day in runs || day in days[1..][..i]
    {
      assert day in runs || day in days[..i + 1];
      assert days[..i + 1] == [days[0]] + days[1..][..i];
    }
  }

  /** One row for each of some employees, none of whom had one for that day. */
  predicate AreNewRows(rows: seq<Entry>, already: set<nat>, day: nat, automatic: bool) {
    && (forall i :: 0 <= i < |rows| ==>
       rows[i].day == day && rows[i].automatic == automatic && rows[i].employee !in already)
    && (forall i, j :: 0 <= i < j < |rows| ==> rows[i].employee != rows[j].employee)
  }

  lemma {:induction false} NewRowsAre(
    grants: seq<PlannedGrant>, already: set<nat>, day: nat, until: Option<nat>, automatic: bool)
    requires DistinctGrants(grants)
    ensures AreNewRows(NewRows(grants, already, day, until, automatic), already, day, automatic)
  {
    if grants != [] {
      var n := |grants| - 1;
      var init := NewRows(grants[..n], already, day, until, automatic);
      NewRowsAre(grants[..n], already, day, until, automatic);
      forall i | 0 <= i < |init| ensures init[i].employee != grants[n].employee {
        var k := RowIsOfAGrant(grants[..n], already, day, until, automatic, i);
      }
    }
  }

  lemma {:induction false} RowIsOfAGrant(
      grants: seq<PlannedGrant>, already: set<nat>, day: nat, until: Option<nat>, automatic: bool, i: nat)
    returns (k: nat)
    requires i < |NewRows(grants, already, day, until, automatic)|
    ensures k < |grants| && grants[k].employee == NewRows(grants, already, day, until, automatic)[i].employee
  {
    var n := |grants| - 1;
    if i < |NewRows(grants[..n], already, day, until, automatic)| {
      k := RowIsOfAGrant(grants[..n], already, day, until, automatic, i);
    } else {
      k := n;
    }
  }

  lemma RowsKeepNoDouble(ledger: seq<Entry>, rows: seq<Entry>, day: nat, automatic: bool)
    requires NoDoubleGrant(ledger) && AreNewRows(rows, AlreadyGranted(ledger, day), day, automatic)
    ensures NoDoubleGrant(ledger + rows)
  {
    var all := ledger + rows;
    forall i, j | 0 <= i < j < |all| && all[i].source != ByHand && all[j].source != ByHand
      ensures all[i].employee != all[j].employee || all[i].day != all[j].day
    {
      if i < |ledger| <= j {
        assert all[j] == rows[j - |ledger|];
        assert IsBulk(ledger[i], day) ==> ledger[i].employee in AlreadyGranted(ledger, day);
      }
    }
  }

  lemma {:induction false} AutomaticAfter(
    ledger: seq<Entry>, rows: seq<Entry>, already: set<nat>, day: nat, on: nat, automatic: bool)
    requires AreNewRows(rows, already, day, automatic)
    ensures AutomaticOn(ledger + rows, on) == AutomaticOn(ledger, on) + if automatic && on == day then |rows| else 0
  {
    if rows == [] {
      assert ledger + rows == ledger;
    } else {
      var n := |rows| - 1;
      AutomaticAfter(ledger, rows[..n], already, day, on, automatic);
      assert (ledger + rows)[..|ledger + rows| - 1] == ledger + rows[..n];
    }
  }

  /** Adding the rows of a plan never grants anyone twice. */
  lemma PlanRowsAreNew(b: Book, basis: Basis, w: World, day: nat, automatic: bool)
    requires NoDoubleGrant(b.ledger) && DistinctEmployees(w.candidates)
    ensures var rows := PlanRows(b, basis, w, day, automatic);
            && NoDoubleGrant(b.ledger + rows)
            && forall on :: AutomaticOn(b.ledger + rows, on) ==
                 AutomaticOn(b.ledger, on) + if automatic && on == day then |rows| else 0
  {
    var grants, already := GrantsOf(basis, day, w.rules, w.candidates), AlreadyGranted(b.ledger, day);
    GrantsAreDistinct(basis, day, w.rules, w.candidates);
    var until := ExpiryOf(day, w.expiresAfterMonths);
    NewRowsAre(grants, already, day, until, automatic);
    var rows := NewRows(grants, already, day, until, automatic);
    hide GrantsOf, NewRows, AlreadyGranted, AutomaticOn, NoDoubleGrant, AreNewRows;
    RowsKeepNoDouble(b.ledger, rows, day, automatic);
    forall on
      ensures AutomaticOn(b.ledger + rows, on) ==
              AutomaticOn(b.ledger, on) + if automatic && on == day then |rows| else 0
    {
      AutomaticAfter(b.ledger, rows, already, day, on, automatic);
    }
  }

  lemma DayKeepsInv(t: LeaveType, maximum: nat, s: System, run: nat, w: World)
    requires Inv(t, s) && Enabled(t, maximum, s, Day(run, w, false)) && t.basis.Some?
    ensures Inv(t, Next(t, maximum, s, Day(run, w, false)))
  {
    var days := s.working[run];
    var day, s' := days[0], Next(t, maximum, s, Day(run, w, false));
    assert Continues(t, s.book.runs, days);
    hide NoDoubleGrant, AutomaticOn, PlanRows, SkippedCount;
    if day !in s.book.runs {
      PlanRowsAreNew(s.book, t.basis.value, w, day, true);
      ClaimingKeepsNoHole(t, s.book.runs, days, s'.book.runs[day]);
      hide NoHole, Continues;
      forall r | r in s.working ensures Continues(t, s'.book.runs, s.working[r]) {
        ClaimingKeepsLists(t, s.book.runs, day, s'.book.runs[day], s.working[r]);
      }
    }
    hide NoHole, Continues;
    RestContinues(t, s'.book.runs, days);
  }

  lemma StepKeepsInv(t: LeaveType, maximum: nat, s: System, step: Step)
    requires Inv(t, s) && Enabled(t, maximum, s, step)
    ensures Inv(t, Next(t, maximum, s, step))
  {
    hide NoHole, Continues, NoDoubleGrant, AutomaticOn, AlreadyGranted, DayRun, Pending, PlanRows;
    match step {
      case Start(run, today, last) => PendingContinues(t, s.book.runs, last, today, maximum);
      case Day(run, w, fails) => if !fails && t.basis.Some? { DayKeepsInv(t, maximum, s, run, w); }
      case Stop(run) =>
      case Bulk(basis, w, day) => PlanRowsAreNew(s.book, basis, w, day, false);
      case Import(employee, day, minutes, expiresOn) =>
        var rows := [Entry(employee, day, minutes, expiresOn, FromImport, false)];
        RowsKeepNoDouble(s.book.ledger, rows, day, false);
        forall on ensures AutomaticOn(s.book.ledger + rows, on) == AutomaticOn(s.book.ledger, on) {
          AutomaticAfter(s.book.ledger, rows, AlreadyGranted(s.book.ledger, day), day, on, false);
        }
    }
  }

  ghost predicate IsHistory(t: LeaveType, maximum: nat, states: seq<System>, steps: seq<Step>) {
    && |states| == |steps| + 1
    && forall i :: 0 <= i < |steps| ==>
       Enabled(t, maximum, states[i], steps[i]) && states[i + 1] == Next(t, maximum, states[i], steps[i])
  }

  /** No row expires before its own day, which is what the table demands. */
  predicate OutliveTheirDay(ledger: seq<Entry>) {
    forall i :: 0 <= i < |ledger| && ledger[i].expiresOn.Some? ==> ledger[i].day <= ledger[i].expiresOn.value
  }

  lemma {:induction false} NewRowsExpire(
    grants: seq<PlannedGrant>, already: set<nat>, day: nat, until: Option<nat>, automatic: bool)
    requires until.Some? ==> day <= until.value
    ensures OutliveTheirDay(NewRows(grants, already, day, until, automatic))
  {
    if grants != [] {
      var g := grants[|grants| - 1];
      NewRowsExpire(grants[..|grants| - 1], already, day, until, automatic);
      OutliveTogether(
        NewRows(grants[..|grants| - 1], already, day, until, automatic),
        if g.employee in already then [] else [Entry(g.employee, day, g.minutes, until, FromRule, automatic)]);
    }
  }

  lemma OutliveTogether(a: seq<Entry>, b: seq<Entry>)
    requires OutliveTheirDay(a) && OutliveTheirDay(b)
    ensures OutliveTheirDay(a + b)
  {
  }

  lemma PlanRowsOutlive(b: Book, basis: Basis, w: World, day: nat, automatic: bool)
    requires OutliveTheirDay(b.ledger)
    ensures OutliveTheirDay(b.ledger + PlanRows(b, basis, w, day, automatic))
  {
    var until := ExpiryOf(day, w.expiresAfterMonths);
    if w.expiresAfterMonths.Some? { ExpiryFollowsTheGrant(day, day, w.expiresAfterMonths.value); }
    NewRowsExpire(
      GrantsOf(basis, day, w.rules, w.candidates), AlreadyGranted(b.ledger, day), day, until, automatic);
    OutliveTogether(b.ledger, PlanRows(b, basis, w, day, automatic));
  }

  /** Over any history the table never has a row that expires before its day, whoever added it. */
  lemma {:induction false} HistoryOutlives(t: LeaveType, maximum: nat, states: seq<System>, steps: seq<Step>)
    requires IsHistory(t, maximum, states, steps)
    requires states[0] == System(Book(map[], []), map[])
    ensures OutliveTheirDay(states[|steps|].book.ledger)
    decreases |steps|
  {
    if steps != [] {
      var n := |steps| - 1;
      HistoryOutlives(t, maximum, states[..n + 1], steps[..n]);
      hide PlanRows, SkippedCount, Pending, AlreadyGranted;
      var s := states[n];
      match steps[n] {
        case Day(run, w, fails) =>
          if !fails && t.basis.Some? { PlanRowsOutlive(s.book, t.basis.value, w, s.working[run][0], true); }
        case Bulk(basis, w, day) => PlanRowsOutlive(s.book, basis, w, day, false);
        case _ =>
      }
    }
  }

  /** Over any interleaving of runs, with any day failing and manual grants between: the claimed days are exactly the
      due days from the start to the latest claimed one, each carries the grants its record counts and no other day
      carries any, and nobody has two bulk grants for one day. */
  lemma {:induction false} HistoryKeepsInv(t: LeaveType, maximum: nat, states: seq<System>, steps: seq<Step>)
    requires IsHistory(t, maximum, states, steps)
    requires states[0] == System(Book(map[], []), map[])
    ensures var s := states[|steps|];
            NoHole(t, s.book.runs) && GrantsFollowClaims(s.book) && NoDoubleGrant(s.book.ledger)
    ensures Inv(t, states[|steps|])
    decreases |steps|
  {
    if steps != [] {
      var n := |steps| - 1;
      HistoryKeepsInv(t, maximum, states[..n + 1], steps[..n]);
      hide NoHole, NoDoubleGrant, GrantsFollowClaims, Next, Enabled;
      StepKeepsInv(t, maximum, states[n], steps[n]);
    }
  }

  // ---------------------------------------------------------------------------
  // Catching up
  // ---------------------------------------------------------------------------

  /** The due days up to today that nobody has claimed. */
  function Unclaimed(t: LeaveType, runs: map<nat, Counts>, today: nat): set<nat> {
    set day: nat | day <= today && IsStart(t, day) && day !in runs
  }

  /** A due day in every stretch of `maximum` days. */
  ghost predicate ComesWithin(t: LeaveType, maximum: nat) {
    forall from: nat :: HasDueDay(t, from, maximum)
  }

  ghost predicate HasDueDay(t: LeaveType, from: nat, maximum: nat) {
    exists day: nat :: from <= day < from + maximum && IsDue(t, day)
  }

  lemma {:induction false} DaysRunClaims(b: Book, t: LeaveType, worlds: nat -> World, days: seq<nat>)
    requires t.basis.Some?
    ensures DaysRun(b, t, worlds, days).runs.Keys == b.runs.Keys + (set day | day in days)
  {
    if days != [] {
      var n := |days| - 1;
      DaysRunClaims(b, t, worlds, days[..n]);
      hide PlanRows, SkippedCount;
      assert days == days[..n] + [days[n]];
    }
  }

  lemma SmallerSet(a: set<nat>, b: set<nat>)
    requires a < b
    ensures |a| < |b|
  {
    var x :| x in b && x !in a;
    assert a <= b - {x};
    SubsetIsNotLarger(a, b - {x});
  }

  lemma {:induction false} SubsetIsNotLarger(a: set<nat>, b: set<nat>)
    requires a <= b
    ensures |a| <= |b|
    decreases a
  {
    if a != {} {
      var x: nat :| x in a;
      SubsetIsNotLarger(a - {x}, b - {x});
    }
  }

  /** A run that is alone and does not fail claims exactly its pending days. */
  lemma RunClaimsItsPendingDays(
      b: Book, t: LeaveType, worlds: nat -> World, last: Option<nat>, today: nat, maximum: nat)
    requires IsLastRun(b.runs, last)
    ensures var days := Pending(t, last, today, maximum);
            Unclaimed(t, DaysRun(b, t, worlds, days).runs, today) ==
              Unclaimed(t, b.runs, today) - (set day | day in days)
  {
    var days := Pending(t, last, today, maximum);
    if days != [] {
      DaysRunClaims(b, t, worlds, days);
    }
    hide DaysRun, Pending, IsStart;
  }

  /** When a due day comes within the catch-up limit, every run without failures leaves fewer unclaimed days, until
      none. */
  lemma EachRunCatchesUp(b: Book, t: LeaveType, worlds: nat -> World, last: Option<nat>, today: nat, maximum: nat)
    requires NoHole(t, b.runs) && IsLastRun(b.runs, last)
    requires ComesWithin(t, maximum) && Unclaimed(t, b.runs, today) != {}
    ensures |Unclaimed(t, DaysRun(b, t, worlds, Pending(t, last, today, maximum)).runs, today)|
            < |Unclaimed(t, b.runs, today)|
  {
    var open, days := Unclaimed(t, b.runs, today), Pending(t, last, today, maximum);
    RunClaimsItsPendingDays(b, t, worlds, last, today, maximum);
    var e: nat :| e in open;
    var k := PendingHasADay(b.runs, t, last, today, maximum, e);
    SmallerSet(open - (set day | day in days), open);
  }

  lemma PendingHasADay(runs: map<nat, Counts>, t: LeaveType, last: Option<nat>, today: nat, maximum: nat, e: nat)
    returns (k: nat)
    requires NoHole(t, runs) && IsLastRun(runs, last) && ComesWithin(t, maximum)
    requires e in Unclaimed(t, runs, today)
    ensures k in Pending(t, last, today, maximum) && k in Unclaimed(t, runs, today)
  {
    var from := FirstPending(t, last);
    assert HasDueDay(t, from, maximum);
    var next: nat :| from <= next < from + maximum && IsDue(t, next);
    DueDaysAre(t, from, LastPending(t, last, today, maximum));
    assert last.Some? && e <= last.value ==> e in runs;
    k := if next <= today then next else e;
    if last.Some? { assert IsStart(t, last.value); }
    hide DueDays, IsDue;
  }

  /** A run advances if and only if a due day lies in its window; otherwise it changes nothing at all. */
  lemma RunAdvancesIff(b: Book, t: LeaveType, worlds: nat -> World, last: Option<nat>, today: nat, maximum: nat)
    requires IsLastRun(b.runs, last) && t.basis.Some? && t.autoFrom.Some?
    ensures DaysRun(b, t, worlds, Pending(t, last, today, maximum)) != b <==>
            exists day: nat :: FirstPending(t, last) <= day <= LastPending(t, last, today, maximum) && IsDue(t, day)
  {
    var from, through := FirstPending(t, last), LastPending(t, last, today, maximum);
    var days := Pending(t, last, today, maximum);
    DueDaysAre(t, from, through);
    DaysRunClaims(b, t, worlds, days);
    hide DueDays, IsDue;
    if day: nat :| from <= day <= through && IsDue(t, day) {
      assert day in days && day !in b.runs;
      assert day in DaysRun(b, t, worlds, days).runs.Keys;
    } else {
      NoneDue(t, from, through);
    }
  }

  lemma {:induction false} NoneDue(t: LeaveType, from: nat, last: int)
    requires forall day: nat :: from <= day <= last ==> !IsDue(t, day)
    ensures DueDays(t, from, last) == []
    decreases last - from
  {
    hide IsDue;
    if from <= last { NoneDue(t, from, last - 1); }
  }

  /** The limit of 400 days is enough for every leave type the table accepts: a fixed day is at most the 28th. */
  lemma DefaultLimitIsEnough(t: LeaveType)
    requires t.basis == Some(FixedDate) ==>
               && t.fixedMonth.Some? && 1 <= t.fixedMonth.value <= 12
               && t.fixedDay.Some? && 1 <= t.fixedDay.value <= 28
    requires t.basis.Some?
    ensures ComesWithin(t, 400) && ComesWithin(t, 366)
  {
    forall from: nat ensures HasDueDay(t, from, 400) && HasDueDay(t, from, 366) {
      if t.basis.value == HireAnniversary {
        assert IsDue(t, from);
      } else {
        var k := ComesAround(from, t.fixedMonth.value, t.fixedDay.value);
        assert IsDue(t, k);
      }
    }
  }

  /** And 365 would not be: before a leap day the same date is 366 days away, and a run right after it finds nothing. */
  lemma ShorterLimitGetsStuck(t: LeaveType, year: nat, today: nat)
    requires t.basis == Some(FixedDate) && t.autoFrom.Some?
    requires t.fixedMonth == Some(3) && t.fixedDay == Some(1)
    requires 1 <= year && IsLeap(year + 1)
    ensures var last := DayNumber(Date(year, 3, 1));
            Pending(t, Some(last), today, 365) == [] && IsDue(t, last + 366)
  {
    hide DayNumber, DateOf;
    var base, next := Date(year, 3, 1), Date(year + 1, 3, 1);
    var last := DayNumber(base);
    DateOfNumber(next);
    YearOfTheLeapDay(year);
    var through := LastPending(t, Some(last), today, 365);
    forall day: nat | last + 1 <= day <= through ensures !IsDue(t, day) {
      NotBetween(day, base, next);
    }
    NoneDue(t, last + 1, through);
  }

  lemma DaysBeforeMarch(year: nat)
    ensures DaysBeforeMonth(year, 3) == 31 + if IsLeap(year) then 29 else 28
  {
    assert DaysBeforeMonth(year, 2) == 31;
  }

  lemma NoTwoLeapYearsRunning(year: nat)
    requires IsLeap(year + 1)
    ensures !IsLeap(year)
  {
  }

  lemma YearOfTheLeapDay(year: nat)
    requires 1 <= year && IsLeap(year + 1)
    ensures DayNumber(Date(year + 1, 3, 1)) == DayNumber(Date(year, 3, 1)) + 366
  {
    NoTwoLeapYearsRunning(year);
    hide DaysBeforeMonth, IsLeap;
    DaysBeforeMarch(year);
    DaysBeforeMarch(year + 1);
    assert DaysBeforeYear(year + 1) == DaysBeforeYear(year) + DaysInYear(year);
    hide DaysBeforeYear;
  }

  /** No first of March lies strictly between one and the next. */
  lemma NotBetween(n: nat, base: Date, next: Date)
    requires IsDate(base) && IsDate(next) && next.year == base.year + 1
    requires base.month == next.month && base.day == next.day
    requires DayNumber(base) < n < DayNumber(next)
    ensures !(DateOf(n).month == base.month && DateOf(n).day == base.day)
  {
    var d := DateOf(n);
    NumberOfDate(n);
    hide DateOf, DayNumber;
    if d.month == base.month && d.day == base.day {
      if d.year <= base.year {
        if IsBefore(d, base) { EarlierDateHasSmallerNumber(d, base); }
      } else {
        if IsBefore(next, d) { EarlierDateHasSmallerNumber(next, d); }
      }
    }
  }

  // ---------------------------------------------------------------------------
  // A run that nothing disturbs
  // ---------------------------------------------------------------------------

  /** The system when a run has done the first `k` of its days. */
  function Alone(s: System, t: LeaveType, worlds: nat -> World, run: nat, days: seq<nat>, k: nat): System
    requires k <= |days|
  {
    System(DaysRun(s.book, t, worlds, days[..k]), s.working[run := days[k..]])
  }

  lemma OneDayAlone(
    t: LeaveType, maximum: nat, s: System, worlds: nat -> World, run: nat, days: seq<nat>, k: nat)
    requires t.basis.Some? && k < |days| && DistinctEmployees(worlds(days[k]).candidates)
    ensures var step := Day(run, worlds(days[k]), false);
            && Enabled(t, maximum, Alone(s, t, worlds, run, days, k), step)
            && Next(t, maximum, Alone(s, t, worlds, run, days, k), step) == Alone(s, t, worlds, run, days, k + 1)
  {
    assert days[..k + 1][..k] == days[..k] && days[k..][0] == days[k] && days[k..][1..] == days[k + 1..];
    hide DayRun;
  }

  lemma StepBefore(t: LeaveType, maximum: nat, s: System, step: Step, states: seq<System>, steps: seq<Step>)
    requires Enabled(t, maximum, s, step) && IsHistory(t, maximum, states, steps)
    requires states[0] == Next(t, maximum, s, step)
    ensures IsHistory(t, maximum, [s] + states, [step] + steps)
  {
    hide Next, Pending, AlreadyGranted;
    var all, taken := [s] + states, [step] + steps;
    forall i | 0 <= i < |taken|
      ensures Enabled(t, maximum, all[i], taken[i]) && all[i + 1] == Next(t, maximum, all[i], taken[i])
    {
      if i > 0 { assert all[i] == states[i - 1] && all[i + 1] == states[i] && taken[i] == steps[i - 1]; }
    }
  }

  lemma {:induction false} RestAlone(
    t: LeaveType, maximum: nat, s: System, worlds: nat -> World, run: nat, days: seq<nat>, k: nat)
    returns (states: seq<System>, steps: seq<Step>)
    requires k <= |days| && (days != [] ==> t.basis.Some?) && run !in s.working
    requires forall day :: DistinctEmployees(worlds(day).candidates)
    ensures IsHistory(t, maximum, states, steps) && states[0] == Alone(s, t, worlds, run, days, k)
    ensures states[|steps|] == System(DaysRun(s.book, t, worlds, days), s.working)
    decreases |days| - k
  {
    hide DaysRun, DistinctEmployees;
    var now := Alone(s, t, worlds, run, days, k);
    if k == |days| {
      assert days[..k] == days && s.working[run := days[k..]] - {run} == s.working;
      steps, states := [Stop(run)], [now, Next(t, maximum, now, Stop(run))];
    } else {
      hide Next, Enabled, Alone;
      OneDayAlone(t, maximum, s, worlds, run, days, k);
      states, steps := RestAlone(t, maximum, s, worlds, run, days, k + 1);
      StepBefore(t, maximum, now, Day(run, worlds(days[k]), false), states, steps);
      states, steps := [now] + states, [Day(run, worlds(days[k]), false)] + steps;
    }
  }

  /** The steps of a run that starts, does each of its days and stops, with no other step in between, can be taken from
      every state, and leave the book that the procedure leaves: the pending days done in their order. */
  lemma UndisturbedRunIs(
    t: LeaveType, maximum: nat, s: System, run: nat, today: nat, last: Option<nat>, worlds: nat -> World)
    returns (states: seq<System>, steps: seq<Step>)
    requires run !in s.working && IsLastRun(s.book.runs, last)
    requires forall day :: DistinctEmployees(worlds(day).candidates)
    ensures IsHistory(t, maximum, states, steps) && states[0] == s
    ensures states[|steps|] == System(DaysRun(s.book, t, worlds, Pending(t, last, today, maximum)), s.working)
  {
    var days, start := Pending(t, last, today, maximum), Start(run, today, last);
    if days != [] { PendingHasBasis(t, last, today, maximum); }
    assert days[..0] == [] && days[0..] == days;
    assert Next(t, maximum, s, start) == Alone(s, t, worlds, run, days, 0);
    assert Enabled(t, maximum, s, start);
    hide *;
    states, steps := RestAlone(t, maximum, s, worlds, run, days, 0);
    StepBefore(t, maximum, s, start, states, steps);
    states, steps := [s] + states, [start] + steps;
  }
}
