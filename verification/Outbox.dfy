/** The webhook outbox: rows that any number of workers claim under a lease, send, and finish
    with a fencing token; retries, abandoning and requeueing; all on the database's clock. */
module Outbox {
  import opened Wrappers

  /** One row of the outbox. The three claim columns are separate, as in the table. */
  datatype Row = Row(
    availableAt: int,
    createdAt: int,
    attempts: nat,
    lastError: Option<string>,
    claimedAt: Option<int>,
    claimExpiresAt: Option<int>,
    claimToken: Option<nat>,
    completedAt: Option<int>,
    abandonedAt: Option<int>)

  type Rows = map<nat, Row>

  /** What a worker keeps of the row it claimed. */
  datatype Claim = Claim(id: nat, token: nat, attempts: nat, at: int)

  // ---------------------------------------------------------------------------
  // The statements, each on one row
  // ---------------------------------------------------------------------------

  predicate IsFree(row: Row, now: int) {
    row.claimExpiresAt == None || row.claimExpiresAt.value <= now
  }

  predicate IsClaimable(rows: Rows, id: nat, now: int) {
    && id in rows && rows[id].completedAt == None && rows[id].abandonedAt == None
    && rows[id].availableAt <= now && IsFree(rows[id], now)
  }

  predicate ComesFirst(a: Row, b: Row) {
    a.availableAt < b.availableAt || (a.availableAt == b.availableAt && a.createdAt <= b.createdAt)
  }

  /** The row `claimNext` picks: the oldest claimable one that no other transaction has locked. */
  predicate IsPick(rows: Rows, now: int, skipped: set<nat>, id: nat) {
    && IsClaimable(rows, id, now) && id !in skipped
    && forall other :: other in rows && IsClaimable(rows, other, now) && other !in skipped ==>
         ComesFirst(rows[id], rows[other])
  }

  /** In columns: nothing that waits for delivery, is due and is under no running lease has been due for longer than the
      picked row; of those due since the same time none is older. */
  lemma PickIsOldest(rows: Rows, now: int, skipped: set<nat>, id: nat)
    requires IsPick(rows, now, skipped, id)
    ensures forall other ::
              && other in rows && other !in skipped
              && rows[other].completedAt == None && rows[other].abandonedAt == None && rows[other].availableAt <= now
              && (rows[other].claimExpiresAt.Some? ==> rows[other].claimExpiresAt.value <= now) ==>
                && rows[id].availableAt <= rows[other].availableAt
                && (rows[id].availableAt == rows[other].availableAt ==> rows[id].createdAt <= rows[other].createdAt)
  {
  }

  function Claimed(row: Row, now: int, leaseMs: int, token: nat): Row {
    row.(claimedAt := Some(now), claimExpiresAt := Some(now + leaseMs), claimToken := Some(token))
  }

  function Released(row: Row): Row {
    row.(claimedAt := None, claimExpiresAt := None, claimToken := None)
  }

  datatype Finish = Complete | Retry(delayMs: int, error: string) | Abandon(error: string)

  /** The WHERE clause of the finishing statements; only `complete` does not look at `abandonedAt`. */
  predicate Accepts(rows: Rows, id: nat, token: nat, finish: Finish) {
    && id in rows && rows[id].claimToken == Some(token) && rows[id].completedAt == None
    && (finish.Complete? || rows[id].abandonedAt == None)
  }

  function Finished(row: Row, now: int, finish: Finish): Row {
    match finish
    case Complete => Released(row).(completedAt := Some(now))
    case Retry(delayMs, error) =>
      Released(row).(attempts := row.attempts + 1, lastError := Some(error), availableAt := now + delayMs)
    case Abandon(error) =>
      Released(row).(attempts := row.attempts + 1, lastError := Some(error), abandonedAt := Some(now))
  }

  function Requeued(row: Row, now: int): Row {
    row.(abandonedAt := None, attempts := 0, availableAt := now, lastError := None)
  }

  function NewRow(now: int): Row {
    Row(now, now, 0, None, None, None, None, None, None)
  }

  // ---------------------------------------------------------------------------
  // What the worker decides
  // ---------------------------------------------------------------------------

  datatype SendResult = Skipped | Succeeded | Failed(statusCode: Option<int>, message: string)

  predicate IsRetryable(statusCode: Option<int>) {
    match statusCode
    case None => true
    case Some(code) => code == 408 || code == 429 || code >= 500
  }

  predicate ShouldAbandon(maximumAttempts: int, attempts: int) {
    attempts >= maximumAttempts
  }

  /** Completed unless another attempt could help; then retried until the attempts are used up. */
  function Decide(maximumAttempts: int, attempts: nat, result: SendResult, delayMs: int): Finish {
    if result.Failed? && IsRetryable(result.statusCode) then
      if ShouldAbandon(maximumAttempts, attempts + 1) then Abandon(result.message) else Retry(delayMs, result.message)
    else Complete
  }

  /** Another attempt could not help: it was delivered, or there is nothing to deliver, or the receiver refused it for a
      reason that does not pass. */
  predicate IsSettled(result: SendResult) {
    match result
    case Skipped => true
    case Succeeded => true
    case Failed(None, _) => false
    case Failed(Some(code), _) => code != 408 && code != 429 && code < 500
  }

  /** The columns after a finishing call: completed when the send is settled; else one more attempt is recorded, with
      its error, and the row waits for the next one or, when the attempts are used up, is abandoned. */
  predicate IsTheEndOf(
    row: Row, row': Row, attempts: nat, result: SendResult, maximumAttempts: int, delayMs: int, now: int)
  {
    && row'.claimedAt == None && row'.claimExpiresAt == None && row'.claimToken == None
    && row'.createdAt == row.createdAt
    && if IsSettled(result) then
         && row'.completedAt == Some(now) && row'.abandonedAt == row.abandonedAt
         && row'.attempts == row.attempts && row'.availableAt == row.availableAt && row'.lastError == row.lastError
       else
         && row'.completedAt == row.completedAt && row'.attempts == row.attempts + 1
         && row'.lastError == Some(result.message)
         && if attempts + 1 < maximumAttempts then
              row'.abandonedAt == row.abandonedAt && row'.availableAt == now + delayMs
            else row'.abandonedAt == Some(now) && row'.availableAt == row.availableAt
  }

  lemma DeliveryInColumns(
    row: Row, attempts: nat, result: SendResult, maximumAttempts: int, delayMs: int, now: int)
    ensures var finish := Decide(maximumAttempts, attempts, result, delayMs);
            IsTheEndOf(row, Finished(row, now, finish), attempts, result, maximumAttempts, delayMs, now)
  {
  }

  // ---------------------------------------------------------------------------
  // The table and the worker, step by step
  // ---------------------------------------------------------------------------

  class Store {
    var rows: Rows

    constructor ()
      ensures rows == map[]
    {
      rows := map[];
    }

    method Enqueue(id: nat, now: int)
      requires id !in rows
      modifies this
      ensures rows == old(rows)[id := NewRow(now)]
    {
      rows := rows[id := NewRow(now)];
    }

    method Pick(now: int, skipped: set<nat>) returns (found: Option<nat>)
      ensures found.Some? ==> IsPick(rows, now, skipped, found.value)
      ensures found == None ==> forall id :: id in rows && id !in skipped ==> !IsClaimable(rows, id, now)
    {
      found := None;
      var rest := rows.Keys;
      while rest != {}
        invariant rest <= rows.Keys
        invariant found.Some? ==> IsClaimable(rows, found.value, now) && found.value !in skipped
        invariant forall id :: id in rows && id !in rest && id !in skipped && IsClaimable(rows, id, now) ==>
                    found.Some? && ComesFirst(rows[found.value], rows[id])
      {
        var id :| id in rest;
        rest := rest - {id};
        if IsClaimable(rows, id, now) && id !in skipped && (found == None || !ComesFirst(rows[found.value], rows[id])) {
          found := Some(id);
        }
      }
    }

    method ClaimNext(now: int, leaseMs: int, token: nat, skipped: set<nat>) returns (claim: Option<Claim>)
      modifies this
      ensures claim == None ==>
                rows == old(rows) && forall id :: id in rows && id !in skipped ==> !IsClaimable(rows, id, now)
      ensures claim.Some? ==>
                && IsPick(old(rows), now, skipped, claim.value.id)
                && claim.value == Claim(claim.value.id, token, old(rows)[claim.value.id].attempts, now)
                && rows == old(rows)[claim.value.id := Claimed(old(rows)[claim.value.id], now, leaseMs, token)]
    {
      var found := Pick(now, skipped);
      if found == None { return None; }
      var row := rows[found.value];
      rows := rows[found.value := Claimed(row, now, leaseMs, token)];
      return Some(Claim(found.value, token, row.attempts, now));
    }

    method FinishRow(id: nat, token: nat, now: int, finish: Finish) returns (accepted: bool)
      modifies this
      ensures accepted == Accepts(old(rows), id, token, finish)
      ensures rows == if accepted then old(rows)[id := Finished(old(rows)[id], now, finish)] else old(rows)
    {
      if !Accepts(rows, id, token, finish) { return false; }
      rows := rows[id := Finished(rows[id], now, finish)];
      return true;
    }

    method Requeue(id: nat, now: int) returns (requeued: bool)
      modifies this
      ensures requeued <==> id in old(rows) && old(rows)[id].abandonedAt.Some?
      ensures rows == if requeued then old(rows)[id := Requeued(old(rows)[id], now)] else old(rows)
    {
      if id !in rows || rows[id].abandonedAt == None { return false; }
      rows := rows[id := Requeued(rows[id], now)];
      return true;
    }

    /** `deliver` after the send: one finishing call, whose refusal is only logged. */
    method Deliver(claim: Claim, result: SendResult, maximumAttempts: int, delayMs: int, now: int)
      returns (accepted: bool)
      modifies this
      ensures var finish := Decide(maximumAttempts, claim.attempts, result, delayMs);
              && accepted == Accepts(old(rows), claim.id, claim.token, finish)
              && rows == if accepted then old(rows)[claim.id := Finished(old(rows)[claim.id], now, finish)]
                 else old(rows)
      ensures accepted ==>
                && claim.id in rows && rows == old(rows)[claim.id := rows[claim.id]]
                && IsTheEndOf(
                     old(rows)[claim.id], rows[claim.id], claim.attempts, result, maximumAttempts, delayMs, now)
    {
      if claim.id in rows { DeliveryInColumns(rows[claim.id], claim.attempts, result, maximumAttempts, delayMs, now); }
      var attempt := claim.attempts + 1;
      var retryable := result.Failed? && IsRetryable(result.statusCode);
      if retryable && !ShouldAbandon(maximumAttempts, attempt) {
        accepted := FinishRow(claim.id, claim.token, now, Retry(delayMs, result.message));
        return;
      }
      if retryable {
        accepted := FinishRow(claim.id, claim.token, now, Abandon(result.message));
        return;
      }
      accepted := FinishRow(claim.id, claim.token, now, Complete);
    }
  }

  // ---------------------------------------------------------------------------
  // Runs of many workers
  // ---------------------------------------------------------------------------

  /** What happened to a row, in the order in which it happened. */
  datatype Entry =
    | WasEnqueued(id: nat)
    | WasClaimed(id: nat, token: nat, at: int, expires: int)
    | WasFinished(id: nat, token: nat, finish: Finish, result: SendResult)
    | WasRequeued(id: nat)

  /** `busy` holds what each working worker claimed; the others are idle or gone. */
  datatype System = System(rows: Rows, now: int, busy: map<nat, Claim>, log: seq<Entry>)

  datatype Config = Config(sendTimeoutMs: int, leaseMs: int, maximumAttempts: int)

  const GRACE_MS := 5_000

  /** The settings `loadWebhookWorkerConfig` lets through, and a policy that allows one attempt. */
  predicate IsLoaded(c: Config) {
    100 <= c.sendTimeoutMs && c.sendTimeoutMs + GRACE_MS <= c.leaseMs && 1 <= c.maximumAttempts
  }

  datatype Step =
    | Tick(to: int)
    | Enqueue(id: nat)
    | ClaimNext(worker: nat, token: nat, skipped: set<nat>, id: nat)
    | Deliver(worker: nat, result: SendResult, delayMs: int)
    | Stop(worker: nat)
    | Requeue(id: nat)

  predicate IsFreshToken(log: seq<Entry>, token: nat) {
    forall i :: 0 <= i < |log| && log[i].WasClaimed? ==> log[i].token != token
  }

  predicate Enabled(s: System, step: Step) {
    match step
    case Tick(to) => s.now <= to
    case Enqueue(id) => id !in s.rows
    case ClaimNext(worker, token, skipped, id) =>
      worker !in s.busy && IsPick(s.rows, s.now, skipped, id) && IsFreshToken(s.log, token)
    case Deliver(worker, result, delayMs) => worker in s.busy
    case Stop(worker) => worker in s.busy
    case Requeue(id) => id in s.rows && s.rows[id].abandonedAt.Some?
  }

  function Next(c: Config, s: System, step: Step): System
    requires Enabled(s, step)
  {
    match step
    case Tick(to) => s.(now := to)
    case Enqueue(id) => s.(rows := s.rows[id := NewRow(s.now)], log := s.log + [WasEnqueued(id)])
    case ClaimNext(worker, token, skipped, id) =>
      s.(rows := s.rows[id := Claimed(s.rows[id], s.now, c.leaseMs, token)],
         busy := s.busy[worker := Claim(id, token, s.rows[id].attempts, s.now)],
         log := s.log + [WasClaimed(id, token, s.now, s.now + c.leaseMs)])
    case Deliver(worker, result, delayMs) =>
      var claim := s.busy[worker];
      var finish := Decide(c.maximumAttempts, claim.attempts, result, delayMs);
      var idle := s.(busy := s.busy - {worker});
      if Accepts(s.rows, claim.id, claim.token, finish) then
        idle.(rows := s.rows[claim.id := Finished(s.rows[claim.id], s.now, finish)],
              log := s.log + [WasFinished(claim.id, claim.token, finish, result)])
      else idle
    case Stop(worker) => s.(busy := s.busy - {worker})
    case Requeue(id) => s.(rows := s.rows[id := Requeued(s.rows[id], s.now)], log := s.log + [WasRequeued(id)])
  }

  predicate Init(s: System) {
    s.rows == map[] && s.busy == map[] && s.log == []
  }

  ghost predicate IsRun(c: Config, states: seq<System>, steps: seq<Step>) {
    && |states| == |steps| + 1
    && forall i :: 0 <= i < |steps| ==> Enabled(states[i], steps[i]) && states[i + 1] == Next(c, states[i], steps[i])
  }

  // ---------------------------------------------------------------------------
  // What every run keeps
  // ---------------------------------------------------------------------------

  /** Attempts recorded since the row was enqueued or last requeued. */
  function AttemptsIn(log: seq<Entry>, id: nat): nat {
    if log == [] then 0
    else
      var last, before := log[|log| - 1], AttemptsIn(log[..|log| - 1], id);
      if last.id != id then before
      else match last
        case WasEnqueued(_) => 0
        case WasRequeued(_) => 0
        case WasClaimed(_, _, _, _) => before
        case WasFinished(_, _, finish, _) => if finish.Complete? then before else before + 1
  }

  /** A row alone: its columns agree with each other. */
  predicate RowAgrees(row: Row, maximumAttempts: int) {
    && (row.claimedAt.Some? <==> row.claimToken.Some?) && (row.claimExpiresAt.Some? <==> row.claimToken.Some?)
    && (row.completedAt == None || row.abandonedAt == None)
    && (row.completedAt.Some? || row.abandonedAt.Some? ==> row.claimToken == None)
    && (row.completedAt == None && row.abandonedAt == None ==> row.attempts < maximumAttempts)
    && (row.abandonedAt.Some? ==> row.attempts == maximumAttempts)
  }

  predicate RowsAgree(rows: Rows, log: seq<Entry>, maximumAttempts: int) {
    && (forall id :: id in rows ==> RowAgrees(rows[id], maximumAttempts))
    && (forall i :: 0 <= i < |log| ==> log[i].id in rows)
  }

  ghost predicate AttemptsAgree(rows: Rows, log: seq<Entry>) {
    forall id :: id in rows ==> rows[id].attempts == AttemptsIn(log, id)
  }

  predicate TokensAreDistinct(log: seq<Entry>) {
    forall i, j :: 0 <= i < j < |log| && log[i].WasClaimed? && log[j].WasClaimed? ==> log[i].token != log[j].token
  }

  /** Claim `i` is the newest of its row and no finishing call has used it. */
  predicate IsOpen(log: seq<Entry>, i: nat) {
    && i < |log| && log[i].WasClaimed?
    && forall j :: i < j < |log| && log[j].id == log[i].id ==> !log[j].WasClaimed? && !log[j].WasFinished?
  }

  predicate IsFinishedBy(log: seq<Entry>, i: nat, j: nat) {
    i < j < |log| && log[i].WasClaimed? && log[j].WasFinished? && log[j].id == log[i].id && log[j].token == log[i].token
  }

  /** A row carries the token of its open claim, and none when it has no open claim. */
  ghost predicate RowsFollowTheLog(rows: Rows, log: seq<Entry>) {
    && (forall id :: id in rows && rows[id].claimToken.Some? ==> exists i: nat :: IsOpen(log, i) && log[i].id == id)
    && (forall i: nat :: IsOpen(log, i) ==>
          && log[i].id in rows && rows[log[i].id].claimToken == Some(log[i].token)
          && rows[log[i].id].claimExpiresAt == Some(log[i].expires))
  }

  /** Claim `i` was finished, or is open, or its lease is over. */
  ghost predicate ClaimEnds(log: seq<Entry>, now: int, i: nat) {
    i < |log| && log[i].WasClaimed? ==>
      IsOpen(log, i) || (exists j: nat :: IsFinishedBy(log, i, j)) || log[i].expires <= now
  }

  ghost predicate ClaimsEnd(log: seq<Entry>, now: int) {
    forall i: nat :: ClaimEnds(log, now, i)
  }

  ghost predicate IsLogged(log: seq<Entry>, claim: Claim) {
    exists i: nat :: i < |log| && log[i].WasClaimed? && log[i].id == claim.id && log[i].token == claim.token
  }

  /** While the worker's claim is the row's, the attempts it read are still the row's. */
  predicate ReadStillHolds(rows: Rows, claim: Claim) {
    claim.id in rows && rows[claim.id].claimToken == Some(claim.token) ==> rows[claim.id].attempts == claim.attempts
  }

  ghost predicate WorkersFollowTheLog(busy: map<nat, Claim>, rows: Rows, log: seq<Entry>) {
    forall w :: w in busy ==> IsLogged(log, busy[w]) && ReadStillHolds(rows, busy[w])
  }

  ghost predicate Inv(c: Config, s: System) {
    && RowsAgree(s.rows, s.log, c.maximumAttempts) && AttemptsAgree(s.rows, s.log) && TokensAreDistinct(s.log)
    && RowsFollowTheLog(s.rows, s.log) && ClaimsEnd(s.log, s.now) && WorkersFollowTheLog(s.busy, s.rows, s.log)
  }

  lemma InitInv(c: Config, s: System)
    requires Init(s)
    ensures Inv(c, s)
  {
  }

  // ---------------------------------------------------------------------------
  // One more entry in the log
  // ---------------------------------------------------------------------------

  predicate Closes(e: Entry, id: nat) {
    e.id == id && (e.WasClaimed? || e.WasFinished?)
  }

  lemma OpenAfter(log: seq<Entry>, e: Entry, i: nat)
    requires i < |log|
    ensures IsOpen(log + [e], i) <==> IsOpen(log, i) && !Closes(e, log[i].id)
  {
    var log' := log + [e];
    assert log'[|log|] == e;
    assert forall j :: i <= j < |log| ==> log'[j] == log[j];
  }

  lemma LastIsOpen(log: seq<Entry>, e: Entry)
    ensures IsOpen(log + [e], |log|) <==> e.WasClaimed?
  {
  }

  lemma FinishedAfter(log: seq<Entry>, e: Entry, i: nat, j: nat)
    requires IsFinishedBy(log, i, j)
    ensures IsFinishedBy(log + [e], i, j)
  {
  }

  lemma AttemptsAfter(log: seq<Entry>, e: Entry, id: nat)
    ensures AttemptsIn(log + [e], id) ==
            if e.id != id || e.WasClaimed? then AttemptsIn(log, id)
            else if e.WasEnqueued? || e.WasRequeued? then 0
            else if e.finish.Complete? then AttemptsIn(log, id) else AttemptsIn(log, id) + 1
  {
    assert (log + [e])[..|log|] == log;
  }

  // ---------------------------------------------------------------------------
  // One row changes, and the log says so
  // ---------------------------------------------------------------------------

  /** The change either claims the row, or leaves it unclaimed after closing its claim or without one. */
  ghost predicate FitsTheLog(rows: Rows, row': Row, e: Entry) {
    if e.WasClaimed? then row'.claimToken == Some(e.token) && row'.claimExpiresAt == Some(e.expires)
    else row'.claimToken == None && (e.WasFinished? || e.id !in rows || rows[e.id].claimToken == None)
  }

  lemma ChangeKeepsRows(rows: Rows, log: seq<Entry>, row': Row, e: Entry, maximumAttempts: int)
    requires RowsAgree(rows, log, maximumAttempts) && RowAgrees(row', maximumAttempts)
    ensures RowsAgree(rows[e.id := row'], log + [e], maximumAttempts)
  {
    hide RowAgrees;
  }

  lemma ChangeKeepsAttempts(rows: Rows, log: seq<Entry>, row': Row, e: Entry)
    requires AttemptsAgree(rows, log) && row'.attempts == AttemptsIn(log + [e], e.id)
    ensures AttemptsAgree(rows[e.id := row'], log + [e])
  {
    hide AttemptsIn;
    forall id | id in rows && id != e.id ensures AttemptsIn(log + [e], id) == AttemptsIn(log, id) {
      AttemptsAfter(log, e, id);
    }
  }

  lemma OpenChangesOnlyHere(rows: Rows, log: seq<Entry>, row': Row, e: Entry, i: nat)
    requires RowsFollowTheLog(rows, log) && FitsTheLog(rows, row', e) && IsOpen(log + [e], i)
    ensures (i == |log| && e.WasClaimed?) || (i < |log| && IsOpen(log, i) && log[i].id != e.id)
  {
    LastIsOpen(log, e);
    assert i <= |log| by { assert i < |log + [e]|; }
    if i < |log| { OpenAfter(log, e, i); }
    hide IsOpen;
  }

  lemma ChangeKeepsFollowing(rows: Rows, log: seq<Entry>, row': Row, e: Entry)
    requires RowsFollowTheLog(rows, log) && FitsTheLog(rows, row', e)
    ensures RowsFollowTheLog(rows[e.id := row'], log + [e])
  {
    hide IsOpen;
    var rows', log' := rows[e.id := row'], log + [e];
    forall id | id in rows' && rows'[id].claimToken.Some?
      ensures exists i: nat :: i < |log'| && IsOpen(log', i) && log'[i].id == id
    {
      if id == e.id {
        LastIsOpen(log, e);
        assert log'[|log|] == e;
      } else {
        OpenIsAnIndex(log);
        var i: nat :| IsOpen(log, i) && log[i].id == id;
        OpenAfter(log, e, i);
        assert log'[i] == log[i];
      }
    }
    forall i: nat | IsOpen(log', i)
      ensures && i < |log'| && log'[i].WasClaimed? && log'[i].id in rows'
              && rows'[log'[i].id].claimToken == Some(log'[i].token)
              && rows'[log'[i].id].claimExpiresAt == Some(log'[i].expires)
    {
      OpenChangesOnlyHere(rows, log, row', e, i);
      OpenIsAnIndex(log');
    }
  }

  lemma OpenIsAnIndex(log: seq<Entry>)
    ensures forall i: nat :: IsOpen(log, i) ==> i < |log| && log[i].WasClaimed?
  {
  }

  lemma ChangeKeepsClaims(log: seq<Entry>, e: Entry, now: int)
    requires ClaimsEnd(log, now)
    requires forall i: nat :: IsOpen(log, i) && Closes(e, log[i].id) ==>
               (e.WasFinished? && e.token == log[i].token) || log[i].expires <= now
    ensures ClaimsEnd(log + [e], now)
  {
    var log' := log + [e];
    forall i: nat ensures ClaimEnds(log', now, i) {
      if i < |log| && log[i].WasClaimed? {
        assert ClaimEnds(log, now, i);
        OpenAfter(log, e, i);
        if j: nat :| IsFinishedBy(log, i, j) {
          FinishedAfter(log, e, i, j);
        } else if IsOpen(log, i) && e.WasFinished? && e.id == log[i].id && e.token == log[i].token {
          assert IsFinishedBy(log', i, |log|);
        }
      } else if i == |log| {
        LastIsOpen(log, e);
      }
    }
  }

  lemma LogKeepsClaims(log: seq<Entry>, e: Entry, claim: Claim)
    requires IsLogged(log, claim)
    ensures IsLogged(log + [e], claim)
  {
    var i: nat :| i < |log| && log[i].WasClaimed? && log[i].id == claim.id && log[i].token == claim.token;
    assert (log + [e])[i] == log[i];
  }

  /** The row is claimed with a token no worker has, or is left unclaimed. */
  lemma ChangeKeepsWorkers(busy: map<nat, Claim>, rows: Rows, log: seq<Entry>, row': Row, e: Entry)
    requires WorkersFollowTheLog(busy, rows, log)
    requires row'.claimToken.Some? ==> IsFreshToken(log, row'.claimToken.value)
    ensures WorkersFollowTheLog(busy, rows[e.id := row'], log + [e])
  {
    forall w | w in busy ensures IsLogged(log + [e], busy[w]) && ReadStillHolds(rows[e.id := row'], busy[w]) {
      LogKeepsClaims(log, e, busy[w]);
      assert ReadStillHolds(rows, busy[w]);
    }
  }

  // ---------------------------------------------------------------------------
  // Every step keeps the invariant
  // ---------------------------------------------------------------------------

  lemma ChangeKeepsInv(c: Config, s: System, row': Row, e: Entry)
    requires Inv(c, s)
    requires RowAgrees(row', c.maximumAttempts) && row'.attempts == AttemptsIn(s.log + [e], e.id)
    requires FitsTheLog(s.rows, row', e)
    requires e.WasClaimed? ==> IsFreshToken(s.log, e.token)
    requires forall i: nat :: IsOpen(s.log, i) && Closes(e, s.log[i].id) ==>
               (e.WasFinished? && e.token == s.log[i].token) || s.log[i].expires <= s.now
    ensures Inv(c, s.(rows := s.rows[e.id := row'], log := s.log + [e]))
  {
    ChangeKeepsRows(s.rows, s.log, row', e, c.maximumAttempts);
    ChangeKeepsAttempts(s.rows, s.log, row', e);
    ChangeKeepsFollowing(s.rows, s.log, row', e);
    ChangeKeepsClaims(s.log, e, s.now);
    ChangeKeepsWorkers(s.busy, s.rows, s.log, row', e);
    hide RowsAgree, AttemptsAgree, RowsFollowTheLog, ClaimsEnd, WorkersFollowTheLog, AttemptsIn, IsOpen, Closes;
  }

  lemma NoWorkIsFine(c: Config, s: System, busy: map<nat, Claim>)
    requires Inv(c, s) && busy.Keys <= s.busy.Keys && forall w :: w in busy ==> busy[w] == s.busy[w]
    ensures Inv(c, s.(busy := busy))
  {
    hide RowsAgree, AttemptsAgree, RowsFollowTheLog, ClaimsEnd, TokensAreDistinct, IsLogged, ReadStillHolds;
  }

  lemma EnqueueKeepsInv(c: Config, s: System, id: nat)
    requires Inv(c, s) && IsLoaded(c) && Enabled(s, Step.Enqueue(id))
    ensures Inv(c, Next(c, s, Step.Enqueue(id)))
  {
    hide RowsAgree, RowsFollowTheLog, Inv, AttemptsIn;
    AttemptsAfter(s.log, WasEnqueued(id), id);
    ChangeKeepsInv(c, s, NewRow(s.now), WasEnqueued(id));
  }

  lemma RequeueKeepsInv(c: Config, s: System, id: nat)
    requires Inv(c, s) && IsLoaded(c) && Enabled(s, Step.Requeue(id))
    ensures Inv(c, Next(c, s, Step.Requeue(id)))
  {
    assert RowAgrees(s.rows[id], c.maximumAttempts);
    hide RowsAgree, RowsFollowTheLog, Inv, AttemptsIn;
    AttemptsAfter(s.log, WasRequeued(id), id);
    ChangeKeepsInv(c, s, Requeued(s.rows[id], s.now), WasRequeued(id));
  }

  lemma TickKeepsInv(c: Config, s: System, to: int)
    requires Inv(c, s) && Enabled(s, Tick(to))
    ensures Inv(c, Next(c, s, Tick(to)))
  {
    hide AttemptsIn, IsOpen, IsFinishedBy, RowsAgree, AttemptsAgree, RowsFollowTheLog, WorkersFollowTheLog;
    forall i: nat ensures ClaimEnds(s.log, to, i) { assert ClaimEnds(s.log, s.now, i); }
  }

  lemma ClaimKeepsInv(c: Config, s: System, worker: nat, token: nat, skipped: set<nat>, id: nat)
    requires Inv(c, s) && Enabled(s, ClaimNext(worker, token, skipped, id))
    ensures Inv(c, Next(c, s, ClaimNext(worker, token, skipped, id)))
  {
    var e, row' := WasClaimed(id, token, s.now, s.now + c.leaseMs), Claimed(s.rows[id], s.now, c.leaseMs, token);
    assert RowAgrees(s.rows[id], c.maximumAttempts);
    AttemptsAfter(s.log, e, id);
    hide AttemptsIn;
    assert row'.attempts == AttemptsIn(s.log + [e], id);
    forall i: nat | IsOpen(s.log, i) && Closes(e, s.log[i].id) ensures s.log[i].expires <= s.now {
      assert s.rows[id].claimExpiresAt == Some(s.log[i].expires);
    }
    hide RowsAgree, RowsFollowTheLog, AttemptsAgree, IsOpen, Inv;
    ChangeKeepsInv(c, s, row', e);
    ClaimingIsLogged(c, s.(rows := s.rows[id := row'], log := s.log + [e]), worker,
      Claim(id, token, s.rows[id].attempts, s.now));
  }

  lemma ClaimingIsLogged(c: Config, s: System, worker: nat, claim: Claim)
    requires Inv(c, s) && |s.log| > 0 && claim.id in s.rows && s.rows[claim.id].attempts == claim.attempts
    requires var e := s.log[|s.log| - 1]; e.WasClaimed? && e.id == claim.id && e.token == claim.token
    ensures Inv(c, s.(busy := s.busy[worker := claim]))
  {
    hide RowsAgree, RowsFollowTheLog, AttemptsAgree, ClaimsEnd, TokensAreDistinct;
  }

  lemma AcceptedMeansOpen(c: Config, s: System, claim: Claim, finish: Finish) returns (i: nat)
    requires Inv(c, s) && Accepts(s.rows, claim.id, claim.token, finish)
    ensures IsOpen(s.log, i) && s.log[i].id == claim.id && s.log[i].token == claim.token
    ensures RowAgrees(s.rows[claim.id], c.maximumAttempts)
    ensures s.rows[claim.id].completedAt == None && s.rows[claim.id].abandonedAt == None
    ensures forall k: nat :: IsOpen(s.log, k) && s.log[k].id == claim.id ==> k == i
  {
    i :| IsOpen(s.log, i) && s.log[i].id == claim.id;
  }

  lemma DeliverKeepsInv(c: Config, s: System, worker: nat, result: SendResult, delayMs: int)
    requires Inv(c, s) && Enabled(s, Step.Deliver(worker, result, delayMs))
    ensures Inv(c, Next(c, s, Step.Deliver(worker, result, delayMs)))
  {
    var claim := s.busy[worker];
    var finish := Decide(c.maximumAttempts, claim.attempts, result, delayMs);
    NoWorkIsFine(c, s, s.busy - {worker});
    if Accepts(s.rows, claim.id, claim.token, finish) {
      var idle := s.(busy := s.busy - {worker});
      var e, row' := WasFinished(claim.id, claim.token, finish, result), Finished(s.rows[claim.id], s.now, finish);
      var k := AcceptedMeansOpen(c, s, claim, finish);
      assert ReadStillHolds(s.rows, claim);
      AttemptsAfter(s.log, e, claim.id);
      assert s.rows[claim.id].attempts == AttemptsIn(s.log, claim.id);
      hide RowsAgree, RowsFollowTheLog, AttemptsAgree, IsOpen, Inv, AttemptsIn;
      ChangeKeepsInv(c, idle, row', e);
    }
  }

  /** A row that is put in or put back waits from now on, with all its attempts, and may be claimed at once; no other
      row changes. */
  lemma WaitsFromNowOn(c: Config, s: System, step: Step)
    requires Inv(c, s) && Enabled(s, step) && (step.Enqueue? || step.Requeue?)
    ensures var rows := Next(c, s, step).rows;
            && IsClaimable(rows, step.id, s.now)
            && rows[step.id].availableAt == s.now && rows[step.id].attempts == 0
            && (step.Enqueue? ==> rows[step.id].createdAt == s.now)
            && (step.Requeue? ==> rows[step.id].createdAt == s.rows[step.id].createdAt)
            && rows.Keys == s.rows.Keys + {step.id}
            && (forall id :: id in s.rows && id != step.id ==> rows[id] == s.rows[id])
  {
    hide AttemptsAgree, TokensAreDistinct, RowsFollowTheLog, ClaimsEnd, WorkersFollowTheLog;
    if step.Requeue? { assert RowAgrees(s.rows[step.id], c.maximumAttempts); }
  }

  lemma StepKeepsInv(c: Config, s: System, step: Step)
    requires Inv(c, s) && IsLoaded(c) && Enabled(s, step)
    ensures Inv(c, Next(c, s, step))
  {
    hide Inv;
    match step {
      case Tick(to) => TickKeepsInv(c, s, to);
      case Enqueue(id) => EnqueueKeepsInv(c, s, id);
      case ClaimNext(worker, token, skipped, id) => ClaimKeepsInv(c, s, worker, token, skipped, id);
      case Deliver(worker, result, delayMs) => DeliverKeepsInv(c, s, worker, result, delayMs);
      case Stop(worker) => NoWorkIsFine(c, s, s.busy - {worker});
      case Requeue(id) => RequeueKeepsInv(c, s, id);
    }
  }

  // ---------------------------------------------------------------------------
  // Fencing over whole runs
  // ---------------------------------------------------------------------------

  /** Between `i` and `j` the log neither claims nor finishes the row of claim `i`. */
  predicate IsUndisturbed(log: seq<Entry>, i: nat, j: nat) {
    i < |log| && j <= |log| && forall k :: i < k < j && log[k].id == log[i].id ==>
      !log[k].WasClaimed? && !log[k].WasFinished?
  }

  /** The finishing call `j` used the newest claim of its row, which nothing had used before. */
  ghost predicate UsedTheNewestClaim(log: seq<Entry>, j: nat) {
    exists i: nat :: IsFinishedBy(log, i, j) && IsUndisturbed(log, i, j)
  }

  predicate FinishedBetween(log: seq<Entry>, i: nat, j: nat)
    requires j <= |log|
  {
    exists k :: i < k < j && IsFinishedBy(log, i, k)
  }

  /** A later claim of the same row came after a finishing call of the earlier one, or after its lease. */
  predicate RespectsTheLease(log: seq<Entry>, i: nat, j: nat) {
    i < j < |log| && log[i].WasClaimed? && log[j].WasClaimed? && log[i].id == log[j].id ==>
      FinishedBetween(log, i, j) || log[i].expires <= log[j].at
  }

  ghost predicate IsFenced(log: seq<Entry>) {
    && (forall j: nat :: j < |log| && log[j].WasFinished? ==> UsedTheNewestClaim(log, j))
    && (forall i: nat, j: nat :: RespectsTheLease(log, i, j))
  }

  /** Everything said about an entry stays true when the log grows. */
  lemma FencingStaysFenced(log: seq<Entry>, e: Entry, i: nat, j: nat)
    requires i < j < |log|
    ensures IsFinishedBy(log, i, j) ==> IsFinishedBy(log + [e], i, j)
    ensures IsUndisturbed(log, i, j) ==> IsUndisturbed(log + [e], i, j)
    ensures RespectsTheLease(log, i, j) ==> RespectsTheLease(log + [e], i, j)
  {
    var log' := log + [e];
    assert forall k :: 0 <= k < |log| ==> log'[k] == log[k];
    if FinishedBetween(log, i, j) {
      var k :| i < k < j && IsFinishedBy(log, i, k);
      assert IsFinishedBy(log', i, k);
    }
  }

  lemma OneMoreEntryIsFenced(log: seq<Entry>, e: Entry)
    requires IsFenced(log)
    requires e.WasFinished? ==> exists i: nat :: IsOpen(log, i) && log[i].id == e.id && log[i].token == e.token
    requires e.WasClaimed? ==> forall i: nat :: i < |log| && log[i].WasClaimed? && log[i].id == e.id ==>
               FinishedBetween(log, i, |log|) || log[i].expires <= e.at
    ensures IsFenced(log + [e])
  {
    var log' := log + [e];
    forall j: nat | j < |log'| && log'[j].WasFinished? ensures UsedTheNewestClaim(log', j) {
      if j < |log| {
        var i: nat :| IsFinishedBy(log, i, j) && IsUndisturbed(log, i, j);
        FencingStaysFenced(log, e, i, j);
      } else {
        var i: nat :| IsOpen(log, i) && log[i].id == e.id && log[i].token == e.token;
        assert IsFinishedBy(log', i, j) && IsUndisturbed(log', i, j);
      }
    }
    forall i: nat, j: nat ensures RespectsTheLease(log', i, j) {
      if i < j < |log| {
        assert RespectsTheLease(log, i, j);
        FencingStaysFenced(log, e, i, j);
      } else if i < j == |log| && FinishedBetween(log, i, |log|) {
        var k :| i < k < |log| && IsFinishedBy(log, i, k);
        FencingStaysFenced(log, e, i, k);
      }
    }
  }

  lemma ClaimRespectsLeases(c: Config, s: System, worker: nat, token: nat, skipped: set<nat>, id: nat, i: nat)
    requires Inv(c, s) && Enabled(s, ClaimNext(worker, token, skipped, id))
    requires i < |s.log| && s.log[i].WasClaimed? && s.log[i].id == id
    ensures FinishedBetween(s.log, i, |s.log|) || s.log[i].expires <= s.now
  {
    assert ClaimEnds(s.log, s.now, i);
    if IsOpen(s.log, i) {
      assert s.rows[id].claimExpiresAt == Some(s.log[i].expires);
    }
  }

  lemma StepIsFenced(c: Config, s: System, step: Step)
    requires Inv(c, s) && Enabled(s, step) && IsFenced(s.log)
    ensures IsFenced(Next(c, s, step).log)
  {
    hide IsFenced, Inv, Decide;
    match step {
      case Tick(_) =>
      case Stop(_) =>
      case Enqueue(id) => OneMoreEntryIsFenced(s.log, WasEnqueued(id));
      case Requeue(id) => OneMoreEntryIsFenced(s.log, WasRequeued(id));
      case ClaimNext(worker, token, skipped, id) =>
        forall i: nat | i < |s.log| && s.log[i].WasClaimed? && s.log[i].id == id
          ensures FinishedBetween(s.log, i, |s.log|) || s.log[i].expires <= s.now
        {
          ClaimRespectsLeases(c, s, worker, token, skipped, id, i);
        }
        OneMoreEntryIsFenced(s.log, WasClaimed(id, token, s.now, s.now + c.leaseMs));
      case Deliver(worker, result, delayMs) =>
        var claim := s.busy[worker];
        var finish := Decide(c.maximumAttempts, claim.attempts, result, delayMs);
        if Accepts(s.rows, claim.id, claim.token, finish) {
          var i := AcceptedMeansOpen(c, s, claim, finish);
          OneMoreEntryIsFenced(s.log, WasFinished(claim.id, claim.token, finish, result));
        }
    }
  }

  /** Any number of workers, in any interleaving, stopping wherever they like. */
  lemma {:induction false} RunIsFenced(c: Config, states: seq<System>, steps: seq<Step>)
    requires IsLoaded(c) && IsRun(c, states, steps) && Init(states[0])
    ensures Inv(c, states[|steps|]) && IsFenced(states[|steps|].log)
    decreases |steps|
  {
    hide Inv, Next;
    if steps == [] {
      InitInv(c, states[0]);
    } else {
      var n := |steps| - 1;
      RunIsFenced(c, states[..n + 1], steps[..n]);
      StepKeepsInv(c, states[n], steps[n]);
      StepIsFenced(c, states[n], steps[n]);
    }
  }

  /** One claim lets at most one finishing call succeed. */
  lemma EachTokenFinishesOnce(c: Config, states: seq<System>, steps: seq<Step>, j: nat, k: nat)
    requires IsLoaded(c) && IsRun(c, states, steps) && Init(states[0])
    requires var log := states[|steps|].log;
             j < |log| && k < |log| && log[j].WasFinished? && log[k].WasFinished? && log[j].token == log[k].token
    ensures j == k
  {
    RunIsFenced(c, states, steps);
    var log := states[|steps|].log;
    FinishesCannotShareAToken(log, j, k);
  }

  lemma FinishesCannotShareAToken(log: seq<Entry>, j: nat, k: nat)
    requires IsFenced(log) && TokensAreDistinct(log)
    requires j < |log| && k < |log| && log[j].WasFinished? && log[k].WasFinished? && log[j].token == log[k].token
    ensures j == k
  {
    var a: nat :| IsFinishedBy(log, a, j) && IsUndisturbed(log, a, j);
    var b: nat :| IsFinishedBy(log, b, k) && IsUndisturbed(log, b, k);
    assert a == b;
  }

  /** Every row there ever was is still there; it is never both completed and abandoned, its claim columns
      are set or null together, and its attempts are those recorded since it was last enqueued or requeued:
      below the maximum while it is pending, and exactly the maximum when it is abandoned. */
  lemma EveryRowIsAccountedFor(c: Config, states: seq<System>, steps: seq<Step>, k: nat, id: nat)
    requires IsLoaded(c) && IsRun(c, states, steps) && Init(states[0])
    requires k < |states| && id in states[k].rows
    ensures var s := states[|steps|];
            && id in s.rows
            && RowAgrees(s.rows[id], c.maximumAttempts)
            && s.rows[id].attempts == AttemptsIn(s.log, id)
  {
    RunIsFenced(c, states, steps);
    hide IsFenced, TokensAreDistinct, RowsFollowTheLog, ClaimsEnd, WorkersFollowTheLog, AttemptsIn;
    RowsStay(c, states, steps, k);
  }

  lemma {:induction false} RowsStay(c: Config, states: seq<System>, steps: seq<Step>, k: nat)
    requires IsRun(c, states, steps) && k < |states|
    ensures states[k].rows.Keys <= states[|steps|].rows.Keys
    decreases |steps|
  {
    if k < |steps| {
      var n := |steps| - 1;
      RowsStay(c, states[..n + 1], steps[..n], k);
      assert states[n].rows.Keys <= Next(c, states[n], steps[n]).rows.Keys;
    }
  }

  // ---------------------------------------------------------------------------
  // Why a row is completed
  // ---------------------------------------------------------------------------

  /** Send `j` of row `id` was settled, and its finishing call was accepted. */
  predicate IsDelivery(log: seq<Entry>, id: nat, j: nat) {
    j < |log| && log[j].WasFinished? && log[j].id == id && IsSettled(log[j].result)
  }

  ghost predicate RowsAreCompletedBySends(rows: Rows, log: seq<Entry>) {
    && (forall i :: 0 <= i < |log| ==> log[i].id in rows)
    && forall id :: id in rows ==> (rows[id].completedAt.Some? <==> exists j: nat :: IsDelivery(log, id, j))
  }

  /** Attempts recorded since the row was enqueued or last requeued: the sends that were not settled. */
  function UnsettledSends(log: seq<Entry>, id: nat): nat {
    if log == [] then 0
    else
      var last, before := log[|log| - 1], UnsettledSends(log[..|log| - 1], id);
      if last.id != id then before
      else match last
        case WasEnqueued(_) => 0
        case WasRequeued(_) => 0
        case WasClaimed(_, _, _, _) => before
        case WasFinished(_, _, _, result) => if IsSettled(result) then before else before + 1
  }

  /** What is recorded of a finishing call agrees with the result of the send. */
  predicate FinishesFitResults(log: seq<Entry>) {
    forall j :: 0 <= j < |log| && log[j].WasFinished? ==> (log[j].finish.Complete? <==> IsSettled(log[j].result))
  }

  lemma {:induction false} AttemptsAreUnsettled(log: seq<Entry>, id: nat)
    requires FinishesFitResults(log)
    ensures AttemptsIn(log, id) == UnsettledSends(log, id)
  {
    if log != [] {
      assert FinishesFitResults(log[..|log| - 1]);
      AttemptsAreUnsettled(log[..|log| - 1], id);
    }
  }

  lemma DeliveriesAfter(log: seq<Entry>, e: Entry, id: nat)
    ensures (exists j: nat :: IsDelivery(log + [e], id, j)) <==>
            (exists j: nat :: IsDelivery(log, id, j)) || (e.WasFinished? && e.id == id && IsSettled(e.result))
  {
    hide IsSettled;
    var log' := log + [e];
    if j: nat :| IsDelivery(log, id, j) { assert IsDelivery(log', id, j); }
    if e.WasFinished? && e.id == id && IsSettled(e.result) { assert IsDelivery(log', id, |log|); }
    if j: nat :| IsDelivery(log', id, j) {
      if j < |log| { assert IsDelivery(log, id, j); }
    }
  }

  lemma OneRowCompletes(rows: Rows, log: seq<Entry>, row': Row, e: Entry)
    requires RowsAreCompletedBySends(rows, log)
    requires row'.completedAt.Some? <==>
             (e.id in rows && rows[e.id].completedAt.Some?) || (e.WasFinished? && IsSettled(e.result))
    ensures RowsAreCompletedBySends(rows[e.id := row'], log + [e])
  {
    hide IsSettled, IsDelivery;
    var rows' := rows[e.id := row'];
    if e.id !in rows { NoRowNoDelivery(rows, log, e.id); }
    forall id | id in rows'
      ensures rows'[id].completedAt.Some? <==> exists j: nat :: IsDelivery(log + [e], id, j)
    {
      DeliveriesAfter(log, e, id);
    }
  }

  lemma NoRowNoDelivery(rows: Rows, log: seq<Entry>, id: nat)
    requires RowsAreCompletedBySends(rows, log) && id !in rows
    ensures !exists j: nat :: IsDelivery(log, id, j)
  {
  }

  lemma StepCompletesBySends(c: Config, s: System, step: Step)
    requires Enabled(s, step) && RowsAreCompletedBySends(s.rows, s.log) && FinishesFitResults(s.log)
    ensures RowsAreCompletedBySends(Next(c, s, step).rows, Next(c, s, step).log)
    ensures FinishesFitResults(Next(c, s, step).log)
  {
    match step {
      case Tick(_) =>
      case Stop(_) =>
      case Enqueue(id) => OneRowCompletes(s.rows, s.log, NewRow(s.now), WasEnqueued(id));
      case Requeue(id) => OneRowCompletes(s.rows, s.log, Requeued(s.rows[id], s.now), WasRequeued(id));
      case ClaimNext(worker, token, skipped, id) =>
        var e := WasClaimed(id, token, s.now, s.now + c.leaseMs);
        OneRowCompletes(s.rows, s.log, Claimed(s.rows[id], s.now, c.leaseMs, token), e);
      case Deliver(worker, result, delayMs) =>
        var claim := s.busy[worker];
        var finish := Decide(c.maximumAttempts, claim.attempts, result, delayMs);
        if Accepts(s.rows, claim.id, claim.token, finish) {
          DeliveryInColumns(s.rows[claim.id], claim.attempts, result, c.maximumAttempts, delayMs, s.now);
          var row', e := Finished(s.rows[claim.id], s.now, finish), WasFinished(claim.id, claim.token, finish, result);
          hide RowsAreCompletedBySends;
          OneRowCompletes(s.rows, s.log, row', e);
        }
    }
  }

  /** Over any run a row is completed if and only if one of its sends was settled and finished under its claim; and its
      attempts are the sends since it was enqueued or requeued that were not: it is abandoned after exactly the maximum
      of them and pending only below that. */
  lemma {:induction false} CompletedIffDelivered(c: Config, states: seq<System>, steps: seq<Step>, id: nat)
    requires IsLoaded(c) && IsRun(c, states, steps) && Init(states[0]) && id in states[|steps|].rows
    ensures var row, log := states[|steps|].rows[id], states[|steps|].log;
            && (row.completedAt.Some? <==> exists j: nat :: IsDelivery(log, id, j))
            && row.attempts == UnsettledSends(log, id)
            && (row.abandonedAt.Some? ==> UnsettledSends(log, id) == c.maximumAttempts)
            && (row.completedAt == None && row.abandonedAt == None ==> UnsettledSends(log, id) < c.maximumAttempts)
  {
    RunCompletesBySends(c, states, steps);
    RunIsFenced(c, states, steps);
    AttemptsAreUnsettled(states[|steps|].log, id);
    hide IsRun, IsFenced, TokensAreDistinct, RowsFollowTheLog, ClaimsEnd, WorkersFollowTheLog;
  }

  lemma {:induction false} RunCompletesBySends(c: Config, states: seq<System>, steps: seq<Step>)
    requires IsRun(c, states, steps) && Init(states[0])
    ensures RowsAreCompletedBySends(states[|steps|].rows, states[|steps|].log)
    ensures FinishesFitResults(states[|steps|].log)
    decreases |steps|
  {
    if steps != [] {
      var n := |steps| - 1;
      RunCompletesBySends(c, states[..n + 1], steps[..n]);
      hide Next, Enabled, RowsAreCompletedBySends, FinishesFitResults;
      StepCompletesBySends(c, states[n], steps[n]);
    }
  }

  // ---------------------------------------------------------------------------
  // The time bound
  // ---------------------------------------------------------------------------

  /** The worker's claim is on the row, with the whole lease, and the row is pending. */
  predicate HoldsItsRow(c: Config, rows: Rows, claim: Claim) {
    && claim.id in rows && rows[claim.id].claimToken == Some(claim.token)
    && rows[claim.id].claimExpiresAt == Some(claim.at + c.leaseMs)
    && rows[claim.id].completedAt == None && rows[claim.id].abandonedAt == None
  }

  /** Each working worker holds its row, and no two work on one row. */
  predicate Exclusive(c: Config, s: System) {
    && (forall w :: w in s.busy ==> HoldsItsRow(c, s.rows, s.busy[w]))
    && (forall w, v :: w in s.busy && v in s.busy && w != v ==> s.busy[w].id != s.busy[v].id)
  }

  /** The send and everything else a worker does take less than the send timeout and the grace together. */
  predicate InTime(c: Config, s: System) {
    forall w :: w in s.busy ==> s.now - s.busy[w].at < c.sendTimeoutMs + GRACE_MS
  }

  lemma StepKeepsExclusive(c: Config, s: System, step: Step)
    requires IsLoaded(c) && Enabled(s, step) && InTime(c, s) && Exclusive(c, s)
    ensures Exclusive(c, Next(c, s, step))
  {
    var s' := Next(c, s, step);
    if step.ClaimNext? {
      forall w | w in s.busy ensures s.busy[w].id != step.id {
        assert HoldsItsRow(c, s.rows, s.busy[w]);
      }
    }
    forall w | w in s'.busy ensures HoldsItsRow(c, s'.rows, s'.busy[w]) {
      if w in s.busy && !step.ClaimNext? {
        assert HoldsItsRow(c, s.rows, s.busy[w]);
      }
    }
  }

  /** With a loaded configuration and work that keeps to its time, sends of one row never overlap
      and no worker's finishing call is ever refused. */
  lemma {:induction false} TimelyWorkersNeverCollide(c: Config, states: seq<System>, steps: seq<Step>, k: nat)
    requires IsLoaded(c) && IsRun(c, states, steps) && Init(states[0])
    requires forall i :: 0 <= i < |states| ==> InTime(c, states[i])
    requires k < |states|
    ensures Exclusive(c, states[k])
    ensures forall w, finish :: w in states[k].busy ==>
              Accepts(states[k].rows, states[k].busy[w].id, states[k].busy[w].token, finish)
    decreases k
  {
    hide Next, InTime;
    if k > 0 {
      TimelyWorkersNeverCollide(c, states, steps, k - 1);
      StepKeepsExclusive(c, states[k - 1], steps[k - 1]);
    }
  }

  /** The bound is exact: at the very end of the lease another worker may claim the row,
      and then the first worker's finishing call is refused. */
  lemma AtTheDeadlineTheClaimIsLost(c: Config, s: System, w: nat, v: nat, token: nat)
    requires w in s.busy && v !in s.busy && HoldsItsRow(c, s.rows, s.busy[w])
    requires s.rows[s.busy[w].id].availableAt <= s.now <= s.busy[w].at + c.leaseMs
    requires IsFreshToken(s.log, token) && token != s.busy[w].token
    ensures var id := s.busy[w].id;
            var s1, others := Next(c, s, Tick(s.busy[w].at + c.leaseMs)), s.rows.Keys - {id};
            && Enabled(s1, ClaimNext(v, token, others, id))
            && var s2 := Next(c, s1, ClaimNext(v, token, others, id));
               && w in s2.busy && v in s2.busy && s2.busy[w].id == s2.busy[v].id
               && forall finish :: !Accepts(s2.rows, id, s2.busy[w].token, finish)
  {
  }
}
