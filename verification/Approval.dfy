/** Staged approval of employee requests: routes that are copied at every submission,
    decisions authorised against the copy, delegation, resubmission, and the list of
    requests that await a caller. */
module Approval {
  import opened Wrappers

  // ---------------------------------------------------------------------------
  // Who may decide a step
  // ---------------------------------------------------------------------------

  datatype Policy = NamedUser | WithRole(role: string) | AnyApprover

  /** The approver of one step. The table ties `NamedUser` to a user and the others to none. */
  datatype Approver = Approver(user: Option<string>, policy: Policy)

  datatype Actor = Actor(userId: string, roles: set<string>, delegatedFrom: set<string>)

  datatype Denial = NotApprover | NotDelegatingApprover | NoDelegation

  datatype Authorization = Allowed(onBehalfOf: Option<string>) | Denied(problem: Denial)

  /** `authorizeApproval`; `named` is the principal the caller names, if any. */
  function Authorize(a: Approver, actor: Actor, named: Option<string>): Authorization {
    if named.Some? then
      if a.policy != NamedUser || a.user != named then Denied(NotDelegatingApprover)
      else if named.value !in actor.delegatedFrom then Denied(NoDelegation)
      else Allowed(named)
    else match a.policy
      case NamedUser =>
        if a.user == Some(actor.userId) then Allowed(None)
        else if a.user.Some? && a.user.value in actor.delegatedFrom then Allowed(a.user)
        else Denied(NotApprover)
      case AnyApprover => Allowed(None)
      case WithRole(role) => if role in actor.roles then Allowed(None) else Denied(NotApprover)
  }

  /** A decision is attributed to the step's own approver, who is the caller or delegated to the caller;
      a step decided by policy has no principal. */
  lemma AttributionIsTrue(a: Approver, actor: Actor, named: Option<string>)
    requires Authorize(a, actor, named).Allowed?
    ensures var principal := Authorize(a, actor, named).onBehalfOf;
            && (principal.Some? ==>
               a.policy == NamedUser && a.user == principal && principal.value in actor.delegatedFrom)
            && (principal == None && a.policy == NamedUser ==> a.user == Some(actor.userId))
            && (principal == None && a.policy.WithRole? ==> a.policy.role in actor.roles)
            && (named.Some? ==> principal == named)
  {
  }

  // ---------------------------------------------------------------------------
  // A request and its machine
  // ---------------------------------------------------------------------------

  datatype RequestState = Submitted | Approved | Returned | Cancelled

  /** A stored decision, with what the caller was when it was made. */
  datatype Decision = Decision(
    step: nat, submission: nat, approved: bool, actor: Actor, named: Option<string>, onBehalfOf: Option<string>)

  datatype Request = Request(
    typeId: nat,
    employee: string,
    state: RequestState,
    totalSteps: nat,
    currentStep: nat,
    submissions: nat,
    snapshots: map<(nat, nat), Approver>,
    decisions: seq<Decision>)

  datatype RequestType = RequestType(approvalSteps: nat, route: map<nat, Approver>)

  datatype Event =
    | ApproveEvent(step: nat, submission: nat)
    | ReturnEvent(step: nat, submission: nat)
    | Resubmit
    | Cancel

  datatype Problem =
    | NotPending | StepMismatch | SubmissionMismatch | NotReturned | AlreadyDecided
    | NoSuchStep | Unauthorized(denial: Denial) | OwnRequest | NotPermitted | NotVisible | RouteIncomplete
    | StepAlreadyStored | NoReason | NotReflected

  datatype Result<T> = Ok(value: T) | Refused(problem: Problem)

  /** `applyStagedRequestEvent` */
  function Apply(r: Request, event: Event): Result<Request> {
    if event.Resubmit? then
      if r.state != Returned then Refused(NotReturned)
      else Ok(r.(state := Submitted, currentStep := 1, submissions := r.submissions + 1))
    else if r.state == Approved || r.state == Cancelled then Refused(AlreadyDecided)
    else if event.Cancel? then Ok(r.(state := Cancelled))
    else if r.state != Submitted then Refused(NotPending)
    else if event.step != r.currentStep then Refused(StepMismatch)
    else if event.submission != r.submissions then Refused(SubmissionMismatch)
    else if event.ReturnEvent? then Ok(r.(state := Returned))
    else if r.currentStep + 1 > r.totalSteps then Ok(r.(state := Approved))
    else Ok(r.(currentStep := r.currentStep + 1))
  }

  /** What a decider sends; a reason is a comment that is not blank. */
  datatype Input = Input(step: nat, submission: nat, approved: bool, named: Option<string>, reasoned: bool)

  /** What the rest of the server says of a call: may the caller approve at all, see this employee in this period, and,
      should this be the last step, is the request reflected in the ledger and the attendance without being refused? */
  datatype Circumstances = Circumstances(permitted: bool, visible: bool, reflected: bool)

  predicate IsStored(decisions: seq<Decision>, submission: nat, step: nat) {
    exists i :: 0 <= i < |decisions| && decisions[i].submission == submission && decisions[i].step == step
  }

  /** `decide`, from the check of the comment to the end of the transaction. `self` is the caller's own employee. */
  function Decide(r: Request, actor: Actor, self: Option<string>, c: Circumstances, input: Input): Result<Request> {
    if !input.approved && !input.reasoned then Refused(NoReason)
    else if !c.permitted then Refused(NotPermitted)
    else if self == Some(r.employee) then Refused(OwnRequest)
    else if !c.visible then Refused(NotVisible)
    else if (r.submissions, input.step) !in r.snapshots then Refused(NoSuchStep)
    else
      var authorization := Authorize(r.snapshots[(r.submissions, input.step)], actor, input.named);
      if authorization.Denied? then Refused(Unauthorized(authorization.problem))
      else
        var event :=
          if input.approved then ApproveEvent(input.step, input.submission)
          else ReturnEvent(input.step, input.submission);
        var next := Apply(r, event);
        if next.Refused? then next
        else if IsStored(r.decisions, input.submission, input.step) then Refused(StepAlreadyStored)
        else if next.value.state == Approved && !c.reflected then Refused(NotReflected)
        else
          var row :=
            Decision(input.step, input.submission, input.approved, actor, input.named, authorization.onBehalfOf);
          Ok(next.value.(decisions := r.decisions + [row]))
  }

  /** `completeRouteOf`: the route when every step has an approver. */
  predicate IsComplete(t: RequestType) {
    forall step :: 1 <= step <= t.approvalSteps ==> step in t.route
  }

  /** The first `n` steps copied for the current submission; a step that is already copied stays as it is. */
  function Copied(r: Request, route: map<nat, Approver>, n: nat): map<(nat, nat), Approver>
    requires forall step :: 1 <= step <= n ==> step in route
  {
    if n == 0 then r.snapshots
    else
      var sofar := Copied(r, route, n - 1);
      if (r.submissions, n) in sofar then sofar else sofar[(r.submissions, n) := route[n]]
  }

  lemma {:induction false} CopiedSteps(r: Request, route: map<nat, Approver>, n: nat)
    requires forall step :: 1 <= step <= n ==> step in route
    ensures forall key :: key in Copied(r, route, n) <==>
              key in r.snapshots || (key.0 == r.submissions && 1 <= key.1 <= n)
    ensures forall key :: key in Copied(r, route, n) ==>
              Copied(r, route, n)[key] == if key in r.snapshots then r.snapshots[key] else route[key.1]
  {
    if n > 0 { CopiedSteps(r, route, n - 1); }
  }

  /** `snapshotRequestSteps` */
  function Snapshotted(r: Request, t: RequestType): map<(nat, nat), Approver>
    requires IsComplete(t)
  {
    Copied(r, t.route, t.approvalSteps)
  }

  function Submit(typeId: nat, t: RequestType, employee: string): Result<Request> {
    if !IsComplete(t) then Refused(RouteIncomplete)
    else
      var r := Request(typeId, employee, Submitted, t.approvalSteps, 1, 1, map[], []);
      Ok(r.(snapshots := Snapshotted(r, t)))
  }

  /** `resubmit` keeps `totalSteps` and copies the route the type has now. */
  function SubmitAgain(r: Request, t: RequestType): Result<Request> {
    var next := Apply(r, Resubmit);
    if next.Refused? then next
    else if !IsComplete(t) then Refused(RouteIncomplete)
    else Ok(next.value.(snapshots := Snapshotted(next.value, t)))
  }

  // ---------------------------------------------------------------------------
  // What holds of every request
  // ---------------------------------------------------------------------------

  /** The decisions of one submission, in the order in which they were stored. */
  function DecisionsOf(decisions: seq<Decision>, submission: nat): seq<Decision> {
    if decisions == [] then []
    else
      DecisionsOf(decisions[..|decisions| - 1], submission)
      + if decisions[|decisions| - 1].submission == submission then [decisions[|decisions| - 1]] else []
  }

  /** Exactly one approval for each of the steps 1..n, in that order. */
  predicate ApprovedUpTo(decisions: seq<Decision>, n: int) {
    |decisions| == n && forall i :: 0 <= i < n ==> decisions[i].approved && decisions[i].step == i + 1
  }

  /** Approvals of the steps before `n`, then a return at `n`. */
  predicate ReturnedAt(decisions: seq<Decision>, n: int) {
    1 <= n == |decisions| && ApprovedUpTo(decisions[..n - 1], n - 1) && !decisions[n - 1].approved
      && decisions[n - 1].step == n
  }

  predicate IsAuthorised(r: Request, d: Decision) {
    && 1 <= d.submission <= r.submissions && (d.submission, d.step) in r.snapshots
    && Authorize(r.snapshots[(d.submission, d.step)], d.actor, d.named) == Allowed(d.onBehalfOf)
  }

  predicate HistoryOk(r: Request) {
    var current := DecisionsOf(r.decisions, r.submissions);
    match r.state
    case Submitted => ApprovedUpTo(current, r.currentStep - 1)
    case Approved => r.currentStep == r.totalSteps && ApprovedUpTo(current, r.totalSteps)
    case Returned => ReturnedAt(current, r.currentStep)
    case Cancelled => ApprovedUpTo(current, r.currentStep - 1) || ReturnedAt(current, r.currentStep)
  }

  /** The last decision of the submission returned it. */
  predicate EndsInReturn(decisions: seq<Decision>, submission: nat) {
    ReturnedAt(DecisionsOf(decisions, submission), |DecisionsOf(decisions, submission)|)
  }

  ghost predicate EarlierWereReturned(r: Request) {
    forall k :: 1 <= k < r.submissions ==> EndsInReturn(r.decisions, k)
  }

  /** A request as every service call leaves it. */
  ghost predicate RequestOk(r: Request) {
    && 1 <= r.currentStep <= r.totalSteps && 1 <= r.submissions
    && (forall i :: 0 <= i < |r.decisions| ==> IsAuthorised(r, r.decisions[i]))
    && (forall key :: key in r.snapshots ==> key.0 <= r.submissions)
    && HistoryOk(r) && EarlierWereReturned(r)
  }

  /** Approved means: the current submission holds exactly one approval for each step 1..totalSteps, in step order;
      and every stored decision was authorised against the route copied for its own submission. */
  lemma ApprovedIffEveryStepApproved(r: Request)
    requires RequestOk(r)
    ensures r.state == Approved <==> ApprovedUpTo(DecisionsOf(r.decisions, r.submissions), r.totalSteps)
    ensures forall i :: 0 <= i < |r.decisions| ==> IsAuthorised(r, r.decisions[i])
  {
  }

  lemma DecisionsAfter(decisions: seq<Decision>, d: Decision, submission: nat)
    ensures DecisionsOf(decisions + [d], submission) ==
            DecisionsOf(decisions, submission) + if d.submission == submission then [d] else []
  {
    assert (decisions + [d])[..|decisions|] == decisions;
  }

  lemma {:induction false} StoredMeansListed(decisions: seq<Decision>, submission: nat, step: nat)
    ensures IsStored(decisions, submission, step) <==>
            exists i :: 0 <= i < |DecisionsOf(decisions, submission)|
              && DecisionsOf(decisions, submission)[i].step == step
  {
    if decisions != [] {
      var init, last := decisions[..|decisions| - 1], decisions[|decisions| - 1];
      StoredMeansListed(init, submission, step);
      assert decisions == init + [last];
      if IsStored(decisions, submission, step) && !IsStored(init, submission, step) {
        var all := DecisionsOf(decisions, submission);
        assert all[|all| - 1] == last;
      }
      if i :| 0 <= i < |DecisionsOf(init, submission)| && DecisionsOf(init, submission)[i].step == step {
        assert DecisionsOf(decisions, submission)[i].step == step;
      }
    }
  }

  /** With each call one transaction, the table's one-decision-per-step rule is never what refuses a call. */
  lemma StepIsNeverStoredTwice(r: Request, actor: Actor, self: Option<string>, c: Circumstances, input: Input)
    requires RequestOk(r)
    ensures Decide(r, actor, self, c, input) != Refused(StepAlreadyStored)
  {
    StoredMeansListed(r.decisions, r.submissions, r.currentStep);
  }

  lemma SubmitIsOk(typeId: nat, t: RequestType, employee: string)
    requires 1 <= t.approvalSteps && IsComplete(t)
    ensures var result := Submit(typeId, t, employee);
            result.Ok? && RequestOk(result.value) && EveryStepHasAnApprover(result.value)
  {
    CopiedSteps(Request(typeId, employee, Submitted, t.approvalSteps, 1, 1, map[], []), t.route, t.approvalSteps);
  }

  /** What an accepted decision does to the request. */
  lemma DecideEffect(r: Request, actor: Actor, self: Option<string>, c: Circumstances, input: Input)
    requires RequestOk(r) && Decide(r, actor, self, c, input).Ok?
    ensures var r' := Decide(r, actor, self, c, input).value;
            var principal := Authorize(r.snapshots[(r.submissions, input.step)], actor, input.named).onBehalfOf;
            var row := Decision(input.step, input.submission, input.approved, actor, input.named, principal);
            && r.state == Submitted && input.step == r.currentStep && input.submission == r.submissions
            && r' == r.(state := r'.state, currentStep := r'.currentStep, decisions := r.decisions + [row])
            && IsAuthorised(r, row)
            && (r'.state, r'.currentStep) ==
               if !input.approved then (Returned, r.currentStep)
               else if r.currentStep == r.totalSteps then (Approved, r.currentStep)
               else (Submitted, r.currentStep + 1)
  {
    hide HistoryOk, EarlierWereReturned, IsStored;
  }

  lemma DecideKeepsOk(r: Request, actor: Actor, self: Option<string>, c: Circumstances, input: Input)
    requires RequestOk(r) && Decide(r, actor, self, c, input).Ok?
    ensures RequestOk(Decide(r, actor, self, c, input).value)
  {
    var r' := Decide(r, actor, self, c, input).value;
    DecideEffect(r, actor, self, c, input);
    var row := r'.decisions[|r.decisions|];
    hide Decide, DecisionsOf, Authorize;
    assert EarlierWereReturned(r') by {
      forall k | 1 <= k < r'.submissions ensures EndsInReturn(r'.decisions, k) {
        assert EndsInReturn(r.decisions, k);
        DecisionsAfter(r.decisions, row, k);
      }
    }
    assert HistoryOk(r') by {
      DecisionsAfter(r.decisions, row, r.submissions);
      OneMoreDecision(DecisionsOf(r.decisions, r.submissions), row, r.currentStep);
    }
    forall i | 0 <= i < |r'.decisions| ensures IsAuthorised(r', r'.decisions[i]) {
      if i < |r.decisions| { assert IsAuthorised(r, r.decisions[i]); }
    }
  }

  lemma OneMoreDecision(current: seq<Decision>, row: Decision, step: nat)
    requires 1 <= step && ApprovedUpTo(current, step - 1) && row.step == step
    ensures if row.approved then ApprovedUpTo(current + [row], step) else ReturnedAt(current + [row], step)
  {
    assert (current + [row])[..step - 1] == current;
  }

  lemma {:induction false} NothingOfTheFuture(decisions: seq<Decision>, submission: nat)
    requires forall i :: 0 <= i < |decisions| ==> decisions[i].submission < submission
    ensures DecisionsOf(decisions, submission) == []
  {
    if decisions != [] { NothingOfTheFuture(decisions[..|decisions| - 1], submission); }
  }

  lemma SubmitAgainKeepsOk(r: Request, t: RequestType)
    requires RequestOk(r) && SubmitAgain(r, t).Ok?
    ensures RequestOk(SubmitAgain(r, t).value)
  {
    var r' := SubmitAgain(r, t).value;
    CopiedSteps(Apply(r, Resubmit).value, t.route, t.approvalSteps);
    hide Copied;
    forall i | 0 <= i < |r.decisions|
      ensures IsAuthorised(r', r.decisions[i]) && r.decisions[i].submission < r'.submissions
    {
      assert IsAuthorised(r, r.decisions[i]);
    }
    NothingOfTheFuture(r.decisions, r'.submissions);
    hide DecisionsOf, Authorize, IsAuthorised, ApprovedUpTo;
    assert EarlierWereReturned(r') by {
      forall k | 1 <= k < r'.submissions ensures EndsInReturn(r'.decisions, k) {
        if k < r.submissions {
          assert EndsInReturn(r.decisions, k);
        } else {
          assert ReturnedAt(DecisionsOf(r.decisions, k), r.currentStep);
        }
      }
    }
  }

  lemma CancelKeepsOk(r: Request)
    requires RequestOk(r) && Apply(r, Cancel).Ok?
    ensures RequestOk(Apply(r, Cancel).value)
  {
    hide DecisionsOf, Authorize;
    forall i | 0 <= i < |r.decisions| ensures IsAuthorised(Apply(r, Cancel).value, r.decisions[i]) {
      assert IsAuthorised(r, r.decisions[i]);
    }
  }

  /** Every step the current submission has to pass has an approver in its copy of the route. */
  ghost predicate EveryStepHasAnApprover(r: Request) {
    forall step: nat :: 1 <= step <= r.totalSteps ==> (r.submissions, step) in r.snapshots
  }

  /** A resubmission keeps its number of steps but copies the steps the type has now: every step gets an approver
      if and only if the type has not lost steps since. */
  lemma ResubmissionHasApproversIff(r: Request, t: RequestType)
    requires RequestOk(r) && SubmitAgain(r, t).Ok?
    ensures EveryStepHasAnApprover(SubmitAgain(r, t).value) <==> r.totalSteps <= t.approvalSteps
  {
    var r' := SubmitAgain(r, t).value;
    CopiedSteps(Apply(r, Resubmit).value, t.route, t.approvalSteps);
    hide Copied;
    if t.approvalSteps < r.totalSteps {
      assert (r'.submissions, t.approvalSteps + 1) !in r'.snapshots;
    }
  }

  /** And a submission without an approver at its current step cannot be decided by anyone. */
  lemma StepWithoutApproverIsStuck(r: Request, actor: Actor, self: Option<string>, c: Circumstances, input: Input)
    requires RequestOk(r) && r.state == Submitted && (r.submissions, r.currentStep) !in r.snapshots
    ensures Decide(r, actor, self, c, input).Refused?
  {
  }

  // ---------------------------------------------------------------------------
  // The list of requests that await the caller
  // ---------------------------------------------------------------------------

  /** What `list` with `awaitingMe` keeps. */
  predicate IsAwaiting(r: Request, actor: Actor, self: Option<string>) {
    && r.state == Submitted && self != Some(r.employee)
    && (r.submissions, r.currentStep) in r.snapshots
    && Authorize(r.snapshots[(r.submissions, r.currentStep)], actor, None).Allowed?
  }

  /** Some decision that names no principal is accepted now. */
  ghost predicate CouldDecide(r: Request, actor: Actor, self: Option<string>, c: Circumstances) {
    exists input: Input :: input.named == None && Decide(r, actor, self, c, input).Ok?
  }

  /** The list and `decide` agree: a caller who may approve and sees the employee could decide a request now, without
      naming a principal, exactly when it awaits the caller: returning it is then possible with a reason, approving it
      unless this is the last step and the ledger or the attendance refuses it; and there is no other step to decide. */
  lemma AwaitingIffDecidable(r: Request, actor: Actor, self: Option<string>, c: Circumstances)
    requires RequestOk(r)
    ensures Decide(r, actor, self, c, Input(r.currentStep, r.submissions, false, None, true)).Ok? <==>
            IsAwaiting(r, actor, self) && c.permitted && c.visible
    ensures Decide(r, actor, self, c, Input(r.currentStep, r.submissions, true, None, false)).Ok? <==>
            && IsAwaiting(r, actor, self) && c.permitted && c.visible
            && (r.currentStep == r.totalSteps ==> c.reflected)
    ensures CouldDecide(r, actor, self, c) <==>
            IsAwaiting(r, actor, self) && c.permitted && c.visible
  {
    StepIsNeverStoredTwice(r, actor, self, c, Input(r.currentStep, r.submissions, true, None, false));
    StepIsNeverStoredTwice(r, actor, self, c, Input(r.currentStep, r.submissions, false, None, true));
    hide RequestOk, IsStored;
  }

  /** Exactly which decisions are accepted. The step that is decided is the current one of the current submission. A
      caller who names nobody is the user the step names, or has a delegation of that user, or has the role the step
      asks for, or the step takes any approver; a caller who names somebody has a delegation of that user, whom the step
      names. A return has a reason, and the last approval is not refused by what it is reflected in. */
  lemma DecisionIsAcceptedIff(r: Request, actor: Actor, self: Option<string>, c: Circumstances, input: Input)
    requires RequestOk(r) && (r.submissions, r.currentStep) in r.snapshots
    ensures var a := r.snapshots[(r.submissions, r.currentStep)];
            Decide(r, actor, self, c, input).Ok? <==>
            && r.state == Submitted && c.permitted && c.visible && self != Some(r.employee)
            && input.step == r.currentStep && input.submission == r.submissions
            && (input.approved || input.reasoned)
            && (input.approved && r.currentStep == r.totalSteps ==> c.reflected)
            && (input.named.Some? ==>
                  a.policy == NamedUser && a.user == input.named && input.named.value in actor.delegatedFrom)
            && (input.named == None ==>
                  || a.policy == AnyApprover
                  || (a.policy.WithRole? && a.policy.role in actor.roles)
                  || (a.policy == NamedUser && a.user.Some?
                      && (a.user.value == actor.userId || a.user.value in actor.delegatedFrom)))
  {
    StepIsNeverStoredTwice(r, actor, self, c, input);
    hide RequestOk, IsStored;
  }

  /** The user the step names, somebody with its role, or anybody where it takes any approver. */
  predicate Fits(a: Approver, actor: Actor) {
    match a.policy
    case NamedUser => a.user == Some(actor.userId)
    case WithRole(role) => role in actor.roles
    case AnyApprover => true
  }

  predicate FitsTheStep(r: Request, step: nat, actor: Actor) {
    (r.submissions, step) in r.snapshots && Fits(r.snapshots[(r.submissions, step)], actor)
  }

  /** One approval after the other, each by the actor given for its step. */
  ghost predicate AreApprovals(states: seq<Request>, actors: seq<Actor>, self: Option<string>) {
    && |states| == |actors| + 1
    && forall i :: 0 <= i < |actors| ==>
         Decide(states[i], actors[i], self, Circumstances(true, true, true),
                Input(states[i].currentStep, states[i].submissions, true, None, false)) == Ok(states[i + 1])
  }

  lemma OneApproval(r: Request, actor: Actor, self: Option<string>) returns (r': Request)
    requires RequestOk(r) && r.state == Submitted && self != Some(r.employee)
    requires FitsTheStep(r, r.currentStep, actor)
    ensures Decide(r, actor, self, Circumstances(true, true, true),
                   Input(r.currentStep, r.submissions, true, None, false)) == Ok(r')
    ensures RequestOk(r') && r'.snapshots == r.snapshots && r'.submissions == r.submissions
    ensures r'.totalSteps == r.totalSteps && r'.employee == r.employee
    ensures if r.currentStep == r.totalSteps then r'.state == Approved
            else r'.state == Submitted && r'.currentStep == r.currentStep + 1
  {
    var c, input := Circumstances(true, true, true), Input(r.currentStep, r.submissions, true, None, false);
    DecisionIsAcceptedIff(r, actor, self, c, input);
    DecideEffect(r, actor, self, c, input);
    DecideKeepsOk(r, actor, self, c, input);
    hide Decide, RequestOk;
    r' := Decide(r, actor, self, c, input).value;
  }

  /** A submission whose remaining steps each have a copy that somebody fits comes to an approval: when they approve one
      after the other, every one of them is accepted and the last makes it approved. */
  lemma {:induction false} ApprovalCanBeReached(r: Request, actors: seq<Actor>, self: Option<string>)
    returns (states: seq<Request>)
    requires RequestOk(r) && r.state == Submitted && self != Some(r.employee)
    requires |actors| == r.totalSteps - r.currentStep + 1
    requires forall i :: 0 <= i < |actors| ==> FitsTheStep(r, r.currentStep + i, actors[i])
    ensures AreApprovals(states, actors, self) && states[0] == r && states[|actors|].state == Approved
    decreases |actors|
  {
    assert r.currentStep <= r.totalSteps;
    assert FitsTheStep(r, r.currentStep + 0, actors[0]);
    hide RequestOk, Decide, Fits;
    var next := OneApproval(r, actors[0], self);
    if |actors| == 1 {
      states := [r, next];
    } else {
      forall i | 0 <= i < |actors[1..]| ensures FitsTheStep(next, next.currentStep + i, actors[1..][i]) {
        assert actors[1..][i] == actors[i + 1];
        assert FitsTheStep(r, r.currentStep + (i + 1), actors[i + 1]);
      }
      var rest := ApprovalCanBeReached(next, actors[1..], self);
      states := [r] + rest;
    }
  }

  // ---------------------------------------------------------------------------
  // The service
  // ---------------------------------------------------------------------------

  /** One step of a route as the settings screen sends it. */
  datatype RouteStep = RouteStep(step: nat, approver: Approver)

  /** A step names a user exactly when its policy says so. */
  predicate IsPaired(a: Approver) {
    a.policy == NamedUser <==> a.user.Some?
  }

  /** That is when somebody can decide the step and nobody is named whom its policy does not ask for. */
  lemma PairedIff(a: Approver)
    ensures IsPaired(a) <==> (exists actor :: Fits(a, actor)) && (a.policy == NamedUser || a.user == None)
  {
    var role := if a.policy.WithRole? then a.policy.role else "";
    assert IsPaired(a) ==> Fits(a, Actor(a.user.GetOr(""), {role}, {}));
  }

  predicate HasStep(steps: seq<RouteStep>, step: nat) {
    exists i :: 0 <= i < |steps| && steps[i].step == step
  }

  /** Every step 1..n exactly once, each with a user exactly when its policy names one. */
  predicate IsValidRoute(steps: seq<RouteStep>, n: nat) {
    && (forall i :: 0 <= i < |steps| ==> 1 <= steps[i].step <= n && IsPaired(steps[i].approver))
    && (forall i, j :: 0 <= i < j < |steps| ==> steps[i].step != steps[j].step)
    && (forall step: nat :: step <= n && IsStepOf(step, n) ==> HasStep(steps, step))
  }

  predicate IsStepOf(step: int, n: int) {
    1 <= step <= n
  }

  function StepNumbers(n: nat): set<nat> {
    set step: nat | step <= n && IsStepOf(step, n)
  }

  /** The map that the steps looked at so far make, none of them wrong and no step twice. */
  ghost predicate IsListedRoute(steps: seq<RouteStep>, n: nat, route: map<nat, Approver>) {
    && (forall i :: 0 <= i < |steps| ==> 1 <= steps[i].step <= n && IsPaired(steps[i].approver))
    && (forall i, j :: 0 <= i < j < |steps| ==> steps[i].step != steps[j].step)
    && (forall i :: 0 <= i < |steps| ==> steps[i].step in route && route[steps[i].step] == steps[i].approver)
    && (forall step :: step in route ==> HasStep(steps, step))
  }

  lemma ListOneMore(steps: seq<RouteStep>, i: nat, n: nat, route: map<nat, Approver>)
    requires i < |steps| && IsListedRoute(steps[..i], n, route)
    ensures var s := steps[i];
            if 1 <= s.step <= n && s.step !in route && IsPaired(s.approver)
            then IsListedRoute(steps[..i + 1], n, route[s.step := s.approver])
            else !IsValidRoute(steps, n)
  {
    var s, route' := steps[i], route[steps[i].step := steps[i].approver];
    assert steps[..i + 1] == steps[..i] + [s];
    if 1 <= s.step <= n && s.step !in route && IsPaired(s.approver) {
      forall step | step in route' ensures HasStep(steps[..i + 1], step) {
        if step == s.step {
          assert steps[..i + 1][i].step == step;
        } else {
          var k :| 0 <= k < i && steps[..i][k].step == step;
          assert steps[..i + 1][k].step == step;
        }
      }
    } else if s.step in route {
      var k :| 0 <= k < i && steps[..i][k].step == s.step;
      assert steps[k].step == steps[i].step;
    }
  }

  lemma ListedIsValid(steps: seq<RouteStep>, n: nat, route: map<nat, Approver>)
    requires IsListedRoute(steps, n, route)
    ensures IsValidRoute(steps, n) <==> IsComplete(RequestType(n, route))
    ensures IsComplete(RequestType(n, route)) ==> route.Keys == StepNumbers(n)
    ensures forall step :: step in route ==> IsPaired(route[step])
  {
    forall step | step in route ensures IsPaired(route[step]) {
      assert HasStep(steps, step);
    }
    if IsValidRoute(steps, n) {
      forall step | 1 <= step <= n ensures step in route {
        assert IsStepOf(step, n);
      }
    }
    if IsComplete(RequestType(n, route)) {
      forall step: nat | step <= n && IsStepOf(step, n) ensures HasStep(steps, step) {
        assert step in route;
      }
      assert forall step :: step in route ==> IsStepOf(step, n);
    }
  }

  datatype System = System(types: map<nat, RequestType>, requests: map<nat, Request>)

  datatype Step =
    | UpdateType(typeId: nat, approvalSteps: nat)
    | ReplaceRoute(typeId: nat, route: map<nat, Approver>)
    | SubmitRequest(id: nat, typeId: nat, employee: string)
    | DecideRequest(id: nat, actor: Actor, self: Option<string>, c: Circumstances, input: Input)
    | ResubmitRequest(id: nat)
    | CancelRequest(id: nat, self: Option<string>)

  /** The call goes through; a refused call changes nothing. */
  predicate Accepted(s: System, step: Step) {
    match step
    case UpdateType(typeId, approvalSteps) => 1 <= approvalSteps <= 4
    case ReplaceRoute(typeId, route) =>
      && typeId in s.types && route.Keys == StepNumbers(s.types[typeId].approvalSteps)
      && forall step :: step in route ==> IsPaired(route[step])
    case SubmitRequest(id, typeId, employee) =>
      id !in s.requests && typeId in s.types && 1 <= s.types[typeId].approvalSteps
        && Submit(typeId, s.types[typeId], employee).Ok?
    case DecideRequest(id, actor, self, c, input) =>
      id in s.requests && Decide(s.requests[id], actor, self, c, input).Ok?
    case ResubmitRequest(id) =>
      id in s.requests && s.requests[id].typeId in s.types
        && SubmitAgain(s.requests[id], s.types[s.requests[id].typeId]).Ok?
    case CancelRequest(id, self) =>
      id in s.requests && self == Some(s.requests[id].employee) && Apply(s.requests[id], Cancel).Ok?
  }

  function Next(s: System, step: Step): System
    requires Accepted(s, step)
  {
    match step
    case UpdateType(typeId, approvalSteps) =>
      var route := if typeId in s.types then s.types[typeId].route else map[];
      s.(types := s.types[typeId := RequestType(approvalSteps, route)])
    case ReplaceRoute(typeId, route) => s.(types := s.types[typeId := s.types[typeId].(route := route)])
    case SubmitRequest(id, typeId, employee) =>
      s.(requests := s.requests[id := Submit(typeId, s.types[typeId], employee).value])
    case DecideRequest(id, actor, self, c, input) =>
      s.(requests := s.requests[id := Decide(s.requests[id], actor, self, c, input).value])
    case ResubmitRequest(id) =>
      s.(requests := s.requests[id := SubmitAgain(s.requests[id], s.types[s.requests[id].typeId]).value])
    case CancelRequest(id, self) => s.(requests := s.requests[id := Apply(s.requests[id], Cancel).value])
  }

  class Desk {
    var types: map<nat, RequestType>
    var requests: map<nat, Request>

    constructor ()
      ensures View() == System(map[], map[])
    {
      types, requests := map[], map[];
    }

    function View(): System
      reads this
    {
      System(types, requests)
    }

    /** The checks of `replaceRoute`, then the delete and the inserts of `replaceTypeSteps`. */
    method StoreRoute(typeId: nat, steps: seq<RouteStep>) returns (ok: bool)
      modifies this`types
      ensures ok <==> typeId in old(types) && IsValidRoute(steps, old(types)[typeId].approvalSteps)
      ensures !ok ==> types == old(types)
      ensures ok ==> exists route ::
                && Accepted(old(View()), ReplaceRoute(typeId, route))
                && View() == Next(old(View()), ReplaceRoute(typeId, route))
                && forall i :: 0 <= i < |steps| ==> steps[i].step in route && route[steps[i].step] == steps[i].approver
    {
      if typeId !in types { return false; }
      var n := types[typeId].approvalSteps;
      var route: map<nat, Approver> := map[];
      for i := 0 to |steps|
        invariant types == old(types) && IsListedRoute(steps[..i], n, route)
      {
        var step := steps[i];
        ListOneMore(steps, i, n, route);
        if step.step < 1 || step.step > n || step.step in route { return false; }
        if (step.approver.policy == NamedUser) != step.approver.user.Some? { return false; }
        route := route[step.step := step.approver];
      }
      assert steps[..|steps|] == steps;
      var complete := NoStepMissing(route, n);
      ListedIsValid(steps, n, route);
      if !complete { return false; }
      types := types[typeId := types[typeId].(route := route)];
      assert Accepted(old(View()), ReplaceRoute(typeId, route));
      return true;
    }

    method NoStepMissing(route: map<nat, Approver>, n: nat) returns (complete: bool)
      ensures complete == IsComplete(RequestType(n, route))
    {
      for step := 1 to n + 1
        invariant forall k :: 1 <= k < step ==> k in route
      {
        if step !in route { return false; }
      }
      return true;
    }

    /** `snapshotRequestSteps`: one insert a step, and none over a row that is there. */
    method SnapshotSteps(r: Request, t: RequestType) returns (snapshots: map<(nat, nat), Approver>)
      requires IsComplete(t)
      ensures snapshots == Snapshotted(r, t)
    {
      snapshots := r.snapshots;
      assert snapshots == Copied(r, t.route, 0);
      for step := 1 to t.approvalSteps + 1
        invariant snapshots == Copied(r, t.route, step - 1)
      {
        if (r.submissions, step) !in snapshots { snapshots := snapshots[(r.submissions, step) := t.route[step]]; }
      }
    }

    method Submitting(id: nat, typeId: nat, employee: string) returns (ok: bool)
      requires id !in requests && (typeId in types ==> 1 <= types[typeId].approvalSteps)
      modifies this`requests
      ensures ok <==> Accepted(old(View()), SubmitRequest(id, typeId, employee))
      ensures View() == if ok then Next(old(View()), SubmitRequest(id, typeId, employee)) else old(View())
    {
      if typeId !in types { return false; }
      var t := types[typeId];
      var complete := NoStepMissing(t.route, t.approvalSteps);
      if !complete { return false; }
      var r := Request(typeId, employee, Submitted, t.approvalSteps, 1, 1, map[], []);
      var snapshots := SnapshotSteps(r, t);
      requests := requests[id := r.(snapshots := snapshots)];
      return true;
    }

    method Resubmitting(id: nat) returns (ok: bool)
      modifies this`requests
      ensures ok <==> Accepted(old(View()), ResubmitRequest(id))
      ensures View() == if ok then Next(old(View()), ResubmitRequest(id)) else old(View())
    {
      if id !in requests || requests[id].typeId !in types { return false; }
      var r := requests[id];
      var t := types[r.typeId];
      if r.state != Returned { return false; }
      var complete := NoStepMissing(t.route, t.approvalSteps);
      if !complete { return false; }
      hide Snapshotted, Copied;
      var saved := r.(state := Submitted, currentStep := 1, submissions := r.submissions + 1);
      var snapshots := SnapshotSteps(saved, t);
      requests := requests[id := saved.(snapshots := snapshots)];
      return true;
    }

    /** `decide`: the comment, permission, own request, visibility, the copied step, the authorisation, the machine,
        then the rows and what they are reflected in; a refusal anywhere undoes all of it. */
    method Deciding(id: nat, actor: Actor, self: Option<string>, c: Circumstances, input: Input) returns (ok: bool)
      modifies this`requests
      ensures ok <==> Accepted(old(View()), DecideRequest(id, actor, self, c, input))
      ensures View() == if ok then Next(old(View()), DecideRequest(id, actor, self, c, input)) else old(View())
    {
      if !input.approved && !input.reasoned { return false; }
      if id !in requests { return false; }
      var existing := requests[id];
      if !c.permitted { return false; }
      if self == Some(existing.employee) { return false; }
      if !c.visible { return false; }
      if (existing.submissions, input.step) !in existing.snapshots { return false; }
      var authorized := Authorize(existing.snapshots[(existing.submissions, input.step)], actor, input.named);
      if authorized.Denied? { return false; }
      var event :=
        if input.approved then ApproveEvent(input.step, input.submission)
        else ReturnEvent(input.step, input.submission);
      var next := Apply(existing, event);
      if next.Refused? { return false; }
      if IsStored(existing.decisions, input.submission, input.step) { return false; }
      if next.value.state == Approved && !c.reflected { return false; }
      var row := Decision(input.step, input.submission, input.approved, actor, input.named, authorized.onBehalfOf);
      requests := requests[id := next.value.(decisions := existing.decisions + [row])];
      return true;
    }

    /** `list` with `awaitingMe`, over the requests the caller may see. */
    method AwaitingMe(visible: seq<nat>, actor: Actor, self: Option<string>, ghost c: Circumstances)
      returns (mine: seq<nat>)
      requires forall id :: id in visible ==> id in requests
      requires forall id :: id in visible ==> RequestOk(requests[id])
      requires c.permitted && c.visible
      ensures forall id :: id in mine <==> id in visible && CouldDecide(requests[id], actor, self, c)
    {
      mine := [];
      for i := 0 to |visible|
        invariant forall id :: id in mine <==> id in visible[..i] && IsAwaiting(requests[id], actor, self)
      {
        assert visible[..i + 1] == visible[..i] + [visible[i]];
        var r := requests[visible[i]];
        if r.state != Submitted { continue; }
        if self == Some(r.employee) { continue; }
        if (r.submissions, r.currentStep) !in r.snapshots { continue; }
        if Authorize(r.snapshots[(r.submissions, r.currentStep)], actor, None).Allowed? { mine := mine + [visible[i]]; }
      }
      assert visible[..|visible|] == visible;
      forall id | id in visible
        ensures IsAwaiting(requests[id], actor, self) <==> CouldDecide(requests[id], actor, self, c)
      {
        AwaitingIffDecidable(requests[id], actor, self, c);
      }
    }
  }

  // ---------------------------------------------------------------------------
  // Runs
  // ---------------------------------------------------------------------------

  ghost predicate AllOk(s: System) {
    forall id :: id in s.requests ==> RequestOk(s.requests[id])
  }

  /** A copied step is never changed, by any call on any request, route or type. */
  ghost predicate CopiesStay(s: System, s': System) {
    forall id, key :: id in s.requests && key in s.requests[id].snapshots ==>
      id in s'.requests && key in s'.requests[id].snapshots
        && s'.requests[id].snapshots[key] == s.requests[id].snapshots[key]
  }

  lemma StepKeepsAllOk(s: System, step: Step)
    requires AllOk(s) && Accepted(s, step)
    ensures AllOk(Next(s, step))
  {
    hide RequestOk;
    match step {
      case SubmitRequest(id, typeId, employee) => SubmitIsOk(typeId, s.types[typeId], employee);
      case DecideRequest(id, actor, self, c, input) => DecideKeepsOk(s.requests[id], actor, self, c, input);
      case ResubmitRequest(id) => SubmitAgainKeepsOk(s.requests[id], s.types[s.requests[id].typeId]);
      case CancelRequest(id, self) => CancelKeepsOk(s.requests[id]);
      case _ =>
    }
  }

  lemma StepKeepsCopies(s: System, step: Step)
    requires Accepted(s, step)
    ensures CopiesStay(s, Next(s, step))
    ensures step.UpdateType? || step.ReplaceRoute? ==> Next(s, step).requests == s.requests
  {
    if step.ResubmitRequest? {
      var r := s.requests[step.id];
      CopiedSteps(Apply(r, Resubmit).value, s.types[r.typeId].route, s.types[r.typeId].approvalSteps);
    }
    hide Authorize, IsStored, IsComplete, Copied;
  }

  ghost predicate IsRun(states: seq<System>, steps: seq<Step>) {
    && |states| == |steps| + 1
    && forall i :: 0 <= i < |steps| ==> Accepted(states[i], steps[i]) && states[i + 1] == Next(states[i], steps[i])
  }

  /** In every run the copies made for a submission stay what they were, whatever becomes of routes and types. */
  lemma {:induction false} RunKeepsCopies(states: seq<System>, steps: seq<Step>, i: nat, j: nat)
    requires IsRun(states, steps) && i <= j < |states|
    ensures CopiesStay(states[i], states[j])
    decreases j
  {
    hide Next, Accepted;
    if i < j {
      RunKeepsCopies(states, steps, i, j - 1);
      StepKeepsCopies(states[j - 1], steps[j - 1]);
    }
  }

  /** In every reachable state a request is approved if and only if its current submission holds exactly one approval
      for each of its steps in order; all decisions were authorised against the route copied for their submission. */
  lemma {:induction false} RunApprovesOnlyByRoute(states: seq<System>, steps: seq<Step>, id: nat)
    requires IsRun(states, steps) && states[0] == System(map[], map[])
    requires id in states[|steps|].requests
    ensures var r := states[|steps|].requests[id];
            && (r.state == Approved <==> ApprovedUpTo(DecisionsOf(r.decisions, r.submissions), r.totalSteps))
            && forall i :: 0 <= i < |r.decisions| ==> IsAuthorised(r, r.decisions[i])
  {
    RunIsOk(states, steps, |steps|);
    ApprovedIffEveryStepApproved(states[|steps|].requests[id]);
  }

  lemma {:induction false} RunIsOk(states: seq<System>, steps: seq<Step>, k: nat)
    requires IsRun(states, steps) && states[0] == System(map[], map[]) && k < |states|
    ensures AllOk(states[k])
    decreases k
  {
    if k > 0 {
      RunIsOk(states, steps, k - 1);
      hide RequestOk, Next, Accepted;
      StepKeepsAllOk(states[k - 1], steps[k - 1]);
    }
  }

  ghost predicate AllPaired(s: System) {
    && (forall id, step :: id in s.types && step in s.types[id].route ==> IsPaired(s.types[id].route[step]))
    && (forall id, key :: id in s.requests && key in s.requests[id].snapshots ==>
          IsPaired(s.requests[id].snapshots[key]))
  }

  lemma StepKeepsAllPaired(s: System, step: Step)
    requires AllPaired(s) && Accepted(s, step)
    ensures AllPaired(Next(s, step))
  {
    hide IsPaired, Authorize, IsStored, Copied;
    match step {
      case SubmitRequest(id, typeId, employee) =>
        var t := s.types[typeId];
        CopiedSteps(Request(typeId, employee, Submitted, t.approvalSteps, 1, 1, map[], []), t.route, t.approvalSteps);
      case ResubmitRequest(id) =>
        var r := s.requests[id];
        CopiedSteps(Apply(r, Resubmit).value, s.types[r.typeId].route, s.types[r.typeId].approvalSteps);
      case _ =>
    }
  }

  lemma {:induction false} RunIsPaired(states: seq<System>, steps: seq<Step>, k: nat)
    requires IsRun(states, steps) && states[0] == System(map[], map[]) && k < |states|
    ensures AllPaired(states[k])
    decreases k
  {
    if k > 0 {
      RunIsPaired(states, steps, k - 1);
      hide AllPaired, Next, Accepted;
      StepKeepsAllPaired(states[k - 1], steps[k - 1]);
    }
  }

  /** Somebody can decide the request, in some circumstances and with some input. */
  ghost predicate CanBeDecided(r: Request) {
    exists actor, self, c, input :: Decide(r, actor, self, c, input).Ok?
  }

  /** In every reachable state a submitted request can be decided by somebody if and only if its current step has been
      given an approver. */
  lemma {:induction false} RunIsStuckIff(states: seq<System>, steps: seq<Step>, id: nat)
    requires IsRun(states, steps) && states[0] == System(map[], map[])
    requires id in states[|steps|].requests && states[|steps|].requests[id].state == Submitted
    ensures var r := states[|steps|].requests[id];
            CanBeDecided(r) <==> (r.submissions, r.currentStep) in r.snapshots
  {
    var r := states[|steps|].requests[id];
    RunIsOk(states, steps, |steps|);
    RunIsPaired(states, steps, |steps|);
    assert RequestOk(r);
    if (r.submissions, r.currentStep) in r.snapshots {
      var a := r.snapshots[(r.submissions, r.currentStep)];
      PairedIff(a);
      var actor :| Fits(a, actor);
      hide RequestOk, Decide, IsRun;
      var next := OneApproval(r, actor, None);
    } else {
      forall actor, self, c, input ensures !Decide(r, actor, self, c, input).Ok? {
        StepWithoutApproverIsStuck(r, actor, self, c, input);
      }
    }
  }
}
