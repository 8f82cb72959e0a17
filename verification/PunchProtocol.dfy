/** The store-and-forward protocol end to end: the station that numbers and spools a punch,
    the sender that flushes the spool in order, a network that may lose, delay and duplicate
    anything, and the server's receipts. The agent may stop between any two steps. */
module PunchProtocol {
  import opened Wrappers
  import opened Receipts
  import Corrections

  // ---------------------------------------------------------------------------
  // Outcomes of one send
  // ---------------------------------------------------------------------------

  datatype SendOutcome = SendAccepted | SendRejected | SendRetry

  /** The HTTP status the server gives an answer. */
  function StatusOf(a: Answer): int {
    match a
    case Ok(created, _, _, _) => if created then 201 else 200
    case Denied(reason) => if reason == UnknownSubject then 404 else 409
    case Unauthenticated => 401
    case InvalidTime => 400
    case NotFound => 404
  }

  /** `outcomeOfError`: a status the client raised as an error, or no response at all. */
  function OutcomeOfError(status: Option<int>): SendOutcome {
    match status
    case None => SendRetry
    case Some(code) => if code >= 500 || code == 429 || code == 408 then SendRetry else SendRejected
  }

  function OutcomeOf(a: Answer): SendOutcome {
    if StatusOf(a) < 300 then SendAccepted else OutcomeOfError(Some(StatusOf(a)))
  }

  /** What comes back for one send. */
  datatype Response = NoResponse | Status(code: int)

  function OutcomeOfResponse(r: Response): SendOutcome {
    match r
    case NoResponse => OutcomeOfError(None)
    case Status(code) => if 200 <= code < 300 then SendAccepted else OutcomeOfError(Some(code))
  }

  function Outcomes(responses: seq<Response>): seq<SendOutcome> {
    seq(|responses|, i requires 0 <= i < |responses| => OutcomeOfResponse(responses[i]))
  }

  // ---------------------------------------------------------------------------
  // The system and its steps
  // ---------------------------------------------------------------------------

  /** `pending` is what is left of the list the current flush read; its head is being sent. */
  datatype Agent = Agent(
    next: int,
    taken: Option<int>,
    spool: seq<Request>,
    pending: seq<Request>,
    outcome: Option<SendOutcome>)

  /** What became of every punch that was ever spooled, in the order of spooling. */
  datatype History = History(
    queue: seq<Request>,
    sent: set<Request>,
    dropped: set<Request>,
    unreadable: set<Request>)

  /** `net` holds every request ever handed to the network and `replies` every answer ever given;
      delivering from them any number of times, or never, is loss, delay and duplication. */
  datatype System = System(
    agent: Agent,
    net: set<Request>,
    device: Device,
    replies: set<(string, Answer)>,
    history: History)

  datatype Step =
    | Allocate
    | Spool(q: Request)
    | StopProducer
    | StartFlush(damaged: set<string>)
    | Send
    | Receive(request: Request, w: World, found: Option<nat>)
    | Reply(a: Answer)
    | Fail(status: Option<int>)
    | Finish
    | StopSender
    | Other(e: Event)

  function Except(spool: seq<Request>, ids: set<string>): seq<Request> {
    if spool == [] then []
    else (if spool[0].requestId in ids then [] else [spool[0]]) + Except(spool[1..], ids)
  }

  lemma ExceptFrom(spool: seq<Request>, ids: set<string>, i: nat)
    requires i < |spool|
    ensures Except(spool[i..], ids) ==
            (if spool[i].requestId in ids then [] else [spool[i]]) + Except(spool[i + 1..], ids)
  {
    assert spool[i..][1..] == spool[i + 1..];
  }

  predicate IsFreshId(queue: seq<Request>, requestId: string) {
    forall i :: 0 <= i < |queue| ==> queue[i].requestId != requestId
  }

  function Concluded(h: History, q: Request, outcome: SendOutcome): History {
    match outcome
    case SendAccepted => h.(sent := h.sent + {q})
    case SendRejected => h.(dropped := h.dropped + {q})
    case SendRetry => h
  }

  function Flushed(a: Agent): Agent
    requires a.pending != [] && a.outcome.Some?
  {
    if a.outcome.value == SendRetry then a.(pending := [], outcome := None)
    else a.(spool := Except(a.spool, {a.pending[0].requestId}), pending := a.pending[1..], outcome := None)
  }

  /** What `step` may do in `s`. A flush step needs a list being flushed, a reply needs the server to have given it. */
  ghost predicate Enabled(s: System, step: Step) {
    var a := s.agent;
    match step
    case Allocate => a.taken == None
    case Spool(q) => a.taken == Some(q.sequence) && IsFreshId(s.history.queue, q.requestId)
    case StopProducer => true
    case StartFlush(damaged) => a.pending == []
    case Send => a.pending != [] && a.outcome == None
    case Receive(q, w, found) => q in s.net && IsLookup(s.device, q, w, found)
    case Reply(answer) => a.pending != [] && a.outcome == None && (a.pending[0].requestId, answer) in s.replies
    case Fail(status) => a.pending != [] && a.outcome == None
    case Finish => a.pending != [] && a.outcome.Some?
    case StopSender => true
    case Other(e) => IsForeign(s.device.id, e.key)
  }

  ghost function Next(s: System, step: Step): System
    requires Enabled(s, step)
  {
    var a := s.agent;
    match step
    case Allocate => s.(agent := a.(taken := Some(a.next), next := a.next + 1))
    case Spool(q) =>
      s.(agent := a.(taken := None, spool := a.spool + [q]),
         history := s.history.(queue := s.history.queue + [q]))
    case StopProducer => s.(agent := a.(taken := None))
    case StartFlush(damaged) =>
      var readable := Except(a.spool, damaged);
      s.(agent := a.(spool := readable, pending := readable, outcome := None),
         history := s.history.(unreadable := s.history.unreadable + set q | q in a.spool && q.requestId in damaged))
    case Send => s.(net := s.net + {a.pending[0]})
    case Receive(q, w, found) =>
      var (device, answer) := Handle(s.device, q, w, found);
      s.(device := device, replies := s.replies + {(q.requestId, answer)})
    case Reply(answer) => s.(agent := a.(outcome := Some(OutcomeOf(answer))))
    case Fail(status) => s.(agent := a.(outcome := Some(OutcomeOfError(status))))
    case Finish => s.(agent := Flushed(a), history := Concluded(s.history, a.pending[0], a.outcome.value))
    case StopSender => s.(agent := a.(pending := [], outcome := None))
    case Other(e) => s.(device := s.device.(events := s.device.events + [e]))
  }

  ghost predicate Init(s: System, start: int) {
    && s.agent == Agent(start + 1, None, [], [], None)
    && s.net == {} && s.replies == {}
    && s.history == History([], {}, {}, {})
    && s.device.lastSequence == start && s.device.receipts == map[]
    && forall i :: 0 <= i < |s.device.events| ==> IsForeign(s.device.id, s.device.events[i].key)
  }

  ghost predicate IsRun(states: seq<System>, steps: seq<Step>) {
    && |states| == |steps| + 1
    && forall i :: 0 <= i < |steps| ==> Enabled(states[i], steps[i]) && states[i + 1] == Next(states[i], steps[i])
  }

  // ---------------------------------------------------------------------------
  // The agent's own procedures
  // ---------------------------------------------------------------------------

  /** Where a flush stops: at the first send that has to be tried again. */
  function FirstRetry(outcomes: seq<SendOutcome>): (k: nat)
    ensures k <= |outcomes| && (k < |outcomes| ==> outcomes[k] == SendRetry)
    ensures forall i :: 0 <= i < k ==> outcomes[i] != SendRetry
  {
    if outcomes == [] || outcomes[0] == SendRetry then 0 else 1 + FirstRetry(outcomes[1..])
  }

  /** In statuses: a flush goes on after a success and after a final refusal, and stops at the first send without a
      response or with one that says to come back later. */
  lemma StopsAtTheFirstOutage(responses: seq<Response>)
    ensures var k := FirstRetry(Outcomes(responses));
            && (k < |responses| ==>
                  responses[k] == NoResponse || responses[k].code in {408, 429} || responses[k].code >= 500)
            && (forall i :: 0 <= i < k ==>
                  && responses[i].Status? && responses[i].code < 500 && responses[i].code !in {408, 429}
                  && (Outcomes(responses)[i] == SendAccepted <==> 200 <= responses[i].code < 300))
  {
    var outcomes := Outcomes(responses);
    var k := FirstRetry(outcomes);
    forall i | 0 <= i < k ensures outcomes[i] == OutcomeOfResponse(responses[i]) && outcomes[i] != SendRetry {}
  }

  function Concatenated(parts: seq<seq<Request>>): seq<Request> {
    if parts == [] then [] else Concatenated(parts[..|parts| - 1]) + parts[|parts| - 1]
  }

  class Station {
    var nextSequence: int
    var spool: seq<Request>

    constructor (lastSequence: int)
      ensures nextSequence == lastSequence + 1 && spool == []
    {
      nextSequence, spool := lastSequence + 1, [];
    }

    method AllocateSequence() returns (sequence: int)
      modifies this`nextSequence
      ensures sequence == old(nextSequence) && nextSequence == sequence + 1
    {
      sequence := nextSequence;
      nextSequence := sequence + 1;
    }

    /** `stopped` is where the process ends, if it does: a number that was taken is never taken again. */
    method ReadCardIntoSpool(card: Option<string>, requestId: string, stopped: bool) returns (queued: bool)
      modifies this
      ensures queued <==> card.Some? && !stopped
      ensures nextSequence == old(nextSequence) + (if card.Some? then 1 else 0)
      ensures spool == old(spool) +
              (if queued then [Request(ByCard, old(nextSequence), requestId, card.value, None)] else [])
    {
      if card == None { return false; }
      var sequence := AllocateSequence();
      if stopped { return false; }
      spool := spool + [Request(ByCard, sequence, requestId, card.value, None)];
      return true;
    }

    method Remove(requestId: string)
      modifies this`spool
      ensures spool == Except(old(spool), {requestId})
    {
      assert Except([], {requestId}) == [];
      hide *;
      var before, rest: seq<Request> := spool, [];
      assert before[0..] == before;
      for i := 0 to |before|
        invariant spool == before
        invariant Except(before, {requestId}) == rest + Except(before[i..], {requestId})
      {
        ExceptFrom(before, {requestId}, i);
        if before[i].requestId != requestId { rest := rest + [before[i]]; }
      }
      assert before[|before|..] == [];
      spool := rest;
    }

    /** `responses[i]` is what sending the i-th listed punch leads to, and `arrivals[i]` what the
        station spools meanwhile. Exactly the punches before the first retry leave the spool. */
    method FlushSpool(responses: seq<Response>, arrivals: seq<seq<Request>>)
      returns (sent: nat, dropped: nat, remaining: nat)
      requires |responses| == |arrivals| == |spool|
      requires DistinctIds(spool + Concatenated(arrivals))
      modifies this`spool
      ensures var outcomes := Outcomes(responses);
              var k := FirstRetry(outcomes);
              && spool == Remaining(old(spool), arrivals, k, if k < |outcomes| then k + 1 else k)
              && sent == Count(outcomes[..k], SendAccepted)
              && dropped == Count(outcomes[..k], SendRejected)
              && remaining == |old(spool)| - k
    {
      hide Concatenated, Except, DistinctIds;
      var pending := spool;
      ghost var outcomes := Outcomes(responses);
      sent, dropped := 0, 0;
      var i := 0;
      NothingArrived(pending, arrivals);
      while i < |pending|
        invariant 0 <= i <= FirstRetry(outcomes)
        invariant spool == Remaining(pending, arrivals, i, i)
        invariant sent == Count(outcomes[..i], SendAccepted) && dropped == Count(outcomes[..i], SendRejected)
        invariant sent + dropped == i
      {
        Arrive(pending, arrivals, i);
        spool := spool + arrivals[i];
        var outcome := OutcomeOfResponse(responses[i]);
        assert outcome == outcomes[i];
        if outcome == SendRetry { break; }
        FlushRemovesTheHead(pending, arrivals, i);
        CountOneMore(outcomes, i);
        Remove(pending[i].requestId);
        if outcome == SendAccepted { sent := sent + 1; } else { dropped := dropped + 1; }
        i := i + 1;
      }
      remaining := |pending| - sent - dropped;
    }
  }

  function Count(outcomes: seq<SendOutcome>, outcome: SendOutcome): nat {
    multiset(outcomes)[outcome]
  }

  lemma CountOneMore(outcomes: seq<SendOutcome>, i: nat)
    requires i < |outcomes|
    ensures forall o :: Count(outcomes[..i + 1], o) == Count(outcomes[..i], o) + if outcomes[i] == o then 1 else 0
  {
    assert outcomes[..i + 1] == outcomes[..i] + [outcomes[i]];
  }

  /** The spool once `i` punches have left it and the station has spooled during `j` sends. */
  function Remaining(pending: seq<Request>, arrivals: seq<seq<Request>>, i: nat, j: nat): seq<Request>
    requires i <= |pending| && j <= |arrivals|
  {
    pending[i..] + Concatenated(arrivals[..j])
  }

  lemma NothingArrived(pending: seq<Request>, arrivals: seq<seq<Request>>)
    ensures Remaining(pending, arrivals, 0, 0) == pending
  {
  }

  lemma Arrive(pending: seq<Request>, arrivals: seq<seq<Request>>, i: nat)
    requires i < |pending| == |arrivals|
    ensures Remaining(pending, arrivals, i, i) + arrivals[i] == Remaining(pending, arrivals, i, i + 1)
  {
    assert arrivals[..i + 1][..i] == arrivals[..i];
  }

  lemma {:induction false} ConcatenatedPrefix(parts: seq<seq<Request>>, i: nat)
    requires i <= |parts|
    ensures Concatenated(parts[..i]) <= Concatenated(parts)
  {
    if i < |parts| {
      ConcatenatedPrefix(parts[..|parts| - 1], i);
      assert parts[..|parts| - 1][..i] == parts[..i];
    } else {
      assert parts[..i] == parts;
    }
  }

  lemma FlushRemovesTheHead(pending: seq<Request>, arrivals: seq<seq<Request>>, i: nat)
    requires i < |pending| == |arrivals| && DistinctIds(pending + Concatenated(arrivals))
    ensures Except(Remaining(pending, arrivals, i, i + 1), {pending[i].requestId}) ==
            Remaining(pending, arrivals, i + 1, i + 1)
  {
    hide Concatenated, Except;
    ConcatenatedPrefix(arrivals, i + 1);
    var all, spool := pending + Concatenated(arrivals), Remaining(pending, arrivals, i, i + 1);
    forall k | 0 < k < |spool| ensures spool[k].requestId != pending[i].requestId {
      assert spool[k] == all[i + k] && all[i] == pending[i];
    }
    assert spool[1..] == Remaining(pending, arrivals, i + 1, i + 1);
    RemoveHead(spool);
  }

  // ---------------------------------------------------------------------------
  // What every run keeps
  // ---------------------------------------------------------------------------

  predicate Increasing(queue: seq<Request>) {
    forall i, j :: 0 <= i < j < |queue| ==> queue[i].sequence < queue[j].sequence
  }

  predicate DistinctIds(queue: seq<Request>) {
    forall i, j :: 0 <= i < j < |queue| ==> queue[i].requestId != queue[j].requestId
  }

  /** The next number the station will use; an allocated one is not used again. */
  function Bound(a: Agent): int {
    if a.taken.Some? then a.taken.value else a.next
  }

  predicate Numbered(a: Agent, queue: seq<Request>, start: int) {
    && Increasing(queue) && DistinctIds(queue)
    && start < Bound(a) <= a.next && (a.taken.Some? ==> a.taken.value < a.next)
    && forall i :: 0 <= i < |queue| ==> start < queue[i].sequence < Bound(a)
  }

  predicate Spooled(a: Agent, queue: seq<Request>) {
    && Increasing(a.spool) && a.pending <= a.spool
    && (a.outcome.Some? ==> a.pending != [])
    && forall i :: 0 <= i < |a.spool| ==> a.spool[i] in queue
  }

  /** Each spooled punch is in exactly one place. */
  ghost predicate Conserved(a: Agent, h: History) {
    && (forall q :: q in h.queue <==> q in a.spool || q in h.sent || q in h.dropped || q in h.unreadable)
    && (forall q :: q in a.spool ==> q !in h.sent && q !in h.dropped && q !in h.unreadable)
    && h.sent !! h.dropped && h.sent !! h.unreadable && h.dropped !! h.unreadable
  }

  /** Nothing newer than the head of the spool has ever left the agent. */
  predicate SentInOrder(a: Agent, net: set<Request>, queue: seq<Request>) {
    forall q :: q in net ==> q in queue && (a.spool != [] ==> q.sequence <= a.spool[0].sequence)
  }

  /** A receipt is the receipt of a request that was sent. */
  ghost predicate ReceiptsAreSent(d: Device, net: set<Request>) {
    forall r :: r in d.receipts ==> exists q :: q in net && q.requestId == r && d.receipts[r].sequence == q.sequence
  }

  predicate IsReplayRejection(d: Device, r: string) {
    r in d.receipts && d.receipts[r].result == Refused(SequenceReplay)
  }

  predicate NoSpooledReplay(a: Agent, d: Device) {
    forall i :: 0 <= i < |a.spool| ==> !IsReplayRejection(d, a.spool[i].requestId)
  }

  /** An answer that was given agrees with the stored receipt. */
  predicate RepliesMatch(d: Device, replies: set<(string, Answer)>) {
    forall p :: p in replies && (p.1.Ok? || p.1.Denied?) ==>
      p.0 in d.receipts && Replayed(d.receipts[p.0]) == Resent(p.1)
  }

  predicate SentAreAccepted(a: Agent, h: History, d: Device) {
    && (forall q :: q in h.sent ==> Accepted(d, q.requestId))
    && (a.outcome == Some(SendAccepted) ==> a.pending != [] && Accepted(d, a.pending[0].requestId))
  }

  /** What holds in every reachable state. */
  ghost predicate Safe(s: System, start: int) {
    && Numbered(s.agent, s.history.queue, start)
    && Spooled(s.agent, s.history.queue)
    && Conserved(s.agent, s.history)
    && SentInOrder(s.agent, s.net, s.history.queue)
    && Inv(s.device, start)
    && ReceiptsAreSent(s.device, s.net)
    && NoSpooledReplay(s.agent, s.device)
    && RepliesMatch(s.device, s.replies)
    && SentAreAccepted(s.agent, s.history, s.device)
  }

  lemma InitIsSafe(s: System, start: int)
    requires Init(s, start)
    ensures Safe(s, start)
  {
  }

  // ---------------------------------------------------------------------------
  // Taking punches out of the spool
  // ---------------------------------------------------------------------------

  lemma {:induction false} ExceptKeepsTheRest(spool: seq<Request>, ids: set<string>)
    ensures forall q :: q in Except(spool, ids) <==> q in spool && q.requestId !in ids
  {
    if spool != [] {
      ExceptKeepsTheRest(spool[1..], ids);
      assert spool == [spool[0]] + spool[1..];
    }
  }

  lemma {:induction false} ExceptKeepsOrder(spool: seq<Request>, ids: set<string>)
    requires Increasing(spool)
    ensures Increasing(Except(spool, ids))
  {
    if spool != [] {
      var rest := Except(spool[1..], ids);
      ExceptKeepsOrder(spool[1..], ids);
      forall i | 0 <= i < |rest| ensures spool[0].sequence < rest[i].sequence {
        ExceptKeepsTheRest(spool[1..], ids);
        assert rest[i] in spool[1..];
      }
    }
  }

  lemma {:induction false} ExceptNothing(spool: seq<Request>, id: string)
    requires forall i :: 0 <= i < |spool| ==> spool[i].requestId != id
    ensures Except(spool, {id}) == spool
  {
    if spool != [] {
      ExceptNothing(spool[1..], id);
    }
  }

  /** `remove` of the head takes the head and nothing else. */
  lemma RemoveHead(spool: seq<Request>)
    requires spool != [] && forall i :: 0 < i < |spool| ==> spool[i].requestId != spool[0].requestId
    ensures Except(spool, {spool[0].requestId}) == spool[1..]
  {
    ExceptNothing(spool[1..], spool[0].requestId);
  }

  lemma SameSequenceSameRequest(queue: seq<Request>, p: Request, q: Request)
    requires Increasing(queue) && DistinctIds(queue) && p in queue && q in queue
    ensures p.sequence == q.sequence <==> p == q
    ensures p.requestId == q.requestId <==> p == q
  {
    var i :| 0 <= i < |queue| && queue[i] == p;
    var j :| 0 <= j < |queue| && queue[j] == q;
    if i < j {
    } else if j < i {
    }
  }

  // ---------------------------------------------------------------------------
  // Every step keeps it
  // ---------------------------------------------------------------------------

  lemma SpoolIsSafe(s: System, q: Request, start: int)
    requires Safe(s, start) && Enabled(s, Spool(q))
    ensures Safe(Next(s, Spool(q)), start)
  {
    hide Inv;
    var s' := Next(s, Spool(q));
    forall i | 0 <= i < |s.agent.spool| ensures s.agent.spool[i].sequence < q.sequence {
      assert s.agent.spool[i] in s.history.queue;
    }
    assert q !in s.history.queue;
    assert q.requestId !in s.device.receipts;
  }

  lemma StartFlushIsSafe(s: System, damaged: set<string>, start: int)
    requires Safe(s, start) && Enabled(s, StartFlush(damaged))
    ensures Safe(Next(s, StartFlush(damaged)), start)
  {
    hide Inv, Except;
    var s' := Next(s, StartFlush(damaged));
    var spool, readable := s.agent.spool, s'.agent.spool;
    ExceptKeepsTheRest(spool, damaged);
    ExceptKeepsOrder(spool, damaged);
    forall i | 0 <= i < |readable|
      ensures readable[i] in s.history.queue && !IsReplayRejection(s.device, readable[i].requestId)
    {
      assert readable[i] in spool;
    }
    if readable != [] {
      assert readable[0] in spool;
      assert spool[0].sequence <= readable[0].sequence;
    }
  }

  lemma SendIsSafe(s: System, start: int)
    requires Safe(s, start) && Enabled(s, Send)
    ensures Safe(Next(s, Send), start)
  {
    hide Inv;
    assert s.agent.pending[0] == s.agent.spool[0];
  }

  /** A final answer moves the head of the spool to where it ends; a retry moves nothing. */
  lemma FinishConserves(a: Agent, h: History)
    requires Conserved(a, h) && a.pending != [] && a.pending <= a.spool && a.outcome.Some?
    requires forall i :: 0 < i < |a.spool| ==> a.spool[i].requestId != a.spool[0].requestId
    ensures Conserved(Flushed(a), Concluded(h, a.pending[0], a.outcome.value))
  {
    hide Except;
    var q := a.spool[0];
    assert a.pending[0] == q;
    if a.outcome.value != SendRetry {
      RemoveHead(a.spool);
      assert a.spool == [q] + a.spool[1..];
      assert q !in a.spool[1..];
    }
  }

  lemma HeadIdIsDistinct(s: System, start: int)
    requires Safe(s, start)
    ensures forall i :: 0 < i < |s.agent.spool| ==> s.agent.spool[i].requestId != s.agent.spool[0].requestId
  {
    hide Inv;
    forall i | 0 < i < |s.agent.spool| ensures s.agent.spool[i].requestId != s.agent.spool[0].requestId {
      SameSequenceSameRequest(s.history.queue, s.agent.spool[i], s.agent.spool[0]);
    }
  }

  lemma FinishIsSafe(s: System, start: int)
    requires Safe(s, start) && Enabled(s, Finish)
    ensures Safe(Next(s, Finish), start)
  {
    hide Inv, Except, Conserved, ReceiptsAreSent, RepliesMatch, DistinctIds, Accepted, IsReplayRejection;
    var s' := Next(s, Finish);
    HeadIdIsDistinct(s, start);
    FinishConserves(s.agent, s.history);
    RemoveHead(s.agent.spool);
    assert s'.agent.spool == s.agent.spool || s'.agent.spool == s.agent.spool[1..];
  }

  // ---------------------------------------------------------------------------
  // The server never refuses the head of the spool as a replay
  // ---------------------------------------------------------------------------

  /** The largest accepted sequence is below the head of the spool while the head has no receipt. */
  lemma HeadIsAhead(s: System, start: int, q: Request)
    requires Safe(s, start) && q in s.net && q in s.agent.spool
    requires q.requestId !in s.device.receipts
    ensures s.device.lastSequence < q.sequence
  {
    var d := s.device;
    assert q == s.agent.spool[0];
    if d.lastSequence != start {
      var r :| Accepted(d, r) && SequenceOf(d, r) == d.lastSequence;
      var p :| p in s.net && p.requestId == r && d.receipts[r].sequence == p.sequence;
      SameSequenceSameRequest(s.history.queue, p, q);
    }
  }

  /** What one request does to the receipts: nothing, or one new receipt, its own. */
  lemma HandleAddsOneReceipt(d: Device, q: Request, w: World, found: Option<nat>)
    requires IsLookup(d, q, w, found)
    ensures var d' := Handle(d, q, w, found).0;
            d'.receipts == d.receipts ||
            (&& q.requestId !in d.receipts
             && d'.receipts.Keys == d.receipts.Keys + {q.requestId}
             && d'.receipts[q.requestId].sequence == q.sequence
             && (IsReplayRejection(d', q.requestId) ==> q.sequence <= d.lastSequence))
  {
  }

  lemma ReceiveKeepsReceiptsSent(s: System, q: Request, w: World, found: Option<nat>)
    requires ReceiptsAreSent(s.device, s.net) && q in s.net && IsLookup(s.device, q, w, found)
    requires Extends(s.device, Handle(s.device, q, w, found).0)
    ensures ReceiptsAreSent(Handle(s.device, q, w, found).0, s.net)
  {
    HandleAddsOneReceipt(s.device, q, w, found);
    hide Handle, IsLookup;
    var d' := Handle(s.device, q, w, found).0;
    forall r | r in d'.receipts
      ensures exists p :: p in s.net && p.requestId == r && d'.receipts[r].sequence == p.sequence
    {
      if r in s.device.receipts {
        var p :| p in s.net && p.requestId == r && s.device.receipts[r].sequence == p.sequence;
      }
    }
  }

  lemma ReceiveNeverReplaysTheSpool(s: System, q: Request, w: World, found: Option<nat>, start: int)
    requires Safe(s, start) && Enabled(s, Receive(q, w, found))
    requires Extends(s.device, Handle(s.device, q, w, found).0)
    ensures NoSpooledReplay(s.agent, Handle(s.device, q, w, found).0)
  {
    var spool, d' := s.agent.spool, Handle(s.device, q, w, found).0;
    HandleAddsOneReceipt(s.device, q, w, found);
    hide Handle, Inv, IsLookup, Conserved, ReceiptsAreSent, RepliesMatch, SentAreAccepted, Except;
    forall i | 0 <= i < |spool| ensures !IsReplayRejection(d', spool[i].requestId) {
      if spool[i].requestId in s.device.receipts {
        assert !IsReplayRejection(s.device, spool[i].requestId);
      } else if spool[i].requestId == q.requestId {
        SameSequenceSameRequest(s.history.queue, spool[i], q);
        HeadIsAhead(s, start, q);
      }
    }
  }

  lemma ReceiveKeepsReplies(s: System, q: Request, w: World, found: Option<nat>)
    requires RepliesMatch(s.device, s.replies) && IsLookup(s.device, q, w, found)
    requires Extends(s.device, Handle(s.device, q, w, found).0)
    ensures var (d', a) := Handle(s.device, q, w, found); RepliesMatch(d', s.replies + {(q.requestId, a)})
  {
    var (d', a) := Handle(s.device, q, w, found);
    if a.Ok? || a.Denied? { FirstAnswerIsStored(s.device, q, w, found); }
    hide Handle, IsLookup;
  }

  lemma ReceiveIsSafe(s: System, q: Request, w: World, found: Option<nat>, start: int)
    requires Safe(s, start) && Enabled(s, Receive(q, w, found))
    ensures Safe(Next(s, Receive(q, w, found)), start)
  {
    HandleKeepsInv(s.device, start, q, w, found);
    ReceiveKeepsReceiptsSent(s, q, w, found);
    ReceiveNeverReplaysTheSpool(s, q, w, found, start);
    ReceiveKeepsReplies(s, q, w, found);
    hide Handle, Inv, IsLookup, Conserved, ReceiptsAreSent, RepliesMatch, NoSpooledReplay, Numbered, Spooled,
      SentInOrder, Except;
  }

  lemma ReplyIsSafe(s: System, answer: Answer, start: int)
    requires Safe(s, start) && Enabled(s, Reply(answer))
    ensures Safe(Next(s, Reply(answer)), start)
  {
    hide Inv, ReceiptsAreSent, IsReplayRejection, Except;
    var id := s.agent.pending[0].requestId;
    if answer.Ok? {
      var p := (id, answer);
      assert p in s.replies;
      assert Replayed(s.device.receipts[id]) == Resent(answer);
    }
  }

  lemma OtherIsSafe(s: System, e: Event, start: int)
    requires Safe(s, start) && Enabled(s, Other(e))
    ensures Safe(Next(s, Other(e)), start)
  {
    ForeignEventKeepsAcceptances(s.device, e);
    SameAcceptancesKeepInv(s.device, Next(s, Other(e)).device, start);
    hide Inv, IsForeign, Conserved, Numbered, SentInOrder, Spooled, Except;
  }

  lemma StepIsSafe(s: System, step: Step, start: int)
    requires Safe(s, start) && Enabled(s, step)
    ensures Safe(Next(s, step), start)
  {
    match step {
      case Spool(q) => SpoolIsSafe(s, q, start);
      case StartFlush(damaged) => StartFlushIsSafe(s, damaged, start);
      case Send => SendIsSafe(s, start);
      case Receive(q, w, found) => ReceiveIsSafe(s, q, w, found, start);
      case Reply(answer) => ReplyIsSafe(s, answer, start);
      case Finish => FinishIsSafe(s, start);
      case Other(e) => OtherIsSafe(s, e, start);
      case _ => LocalStepIsSafe(s, step, start);
    }
  }

  lemma LocalStepIsSafe(s: System, step: Step, start: int)
    requires Safe(s, start) && Enabled(s, step)
    requires step.Allocate? || step.StopProducer? || step.Fail? || step.StopSender?
    ensures Safe(Next(s, step), start)
  {
    hide Inv, ReceiptsAreSent, RepliesMatch, Except, IsReplayRejection;
  }

  /** Whatever is lost, delayed, repeated or interrupted, every reachable state is safe. */
  lemma {:induction false} RunIsSafe(states: seq<System>, steps: seq<Step>, start: int)
    requires IsRun(states, steps) && Init(states[0], start)
    ensures Safe(states[|steps|], start)
    decreases |steps|
  {
    if steps == [] {
      InitIsSafe(states[0], start);
    } else {
      var n := |steps| - 1;
      RunIsSafe(states[..n + 1], steps[..n], start);
      StepIsSafe(states[n], steps[n], start);
    }
  }

  // ---------------------------------------------------------------------------
  // What this means for a punch
  // ---------------------------------------------------------------------------

  predicate IsEventOf(d: Device, q: Request, i: nat) {
    i < |d.events| && IsKeyOf(d.id, q.requestId, d.events[i].key)
  }

  lemma EventHasItsReceipt(d: Device, start: int, q: Request, i: nat)
    requires Inv(d, start) && IsEventOf(d, q, i)
    ensures Accepted(d, q.requestId) && EventOf(d, q.requestId) == i
  {
    hide IsKeyOf;
    assert IsKeyOf(d.id, q.requestId, d.events[i].key);
  }

  /** Every spooled punch has at most one attendance event, wherever it ended up. */
  lemma AtMostOneEventPerPunch(states: seq<System>, steps: seq<Step>, start: int, q: Request, i: nat, j: nat)
    requires IsRun(states, steps) && Init(states[0], start)
    requires IsEventOf(states[|steps|].device, q, i) && IsEventOf(states[|steps|].device, q, j)
    ensures i == j
  {
    RunIsSafe(states, steps, start);
    EventHasItsReceipt(states[|steps|].device, start, q, i);
    EventHasItsReceipt(states[|steps|].device, start, q, j);
  }

  /** A punch removed as sent has exactly one attendance event. */
  lemma SentHasExactlyOneEvent(states: seq<System>, steps: seq<Step>, start: int, q: Request) returns (i: nat)
    requires IsRun(states, steps) && Init(states[0], start)
    requires q in states[|steps|].history.sent
    ensures forall k: nat :: IsEventOf(states[|steps|].device, q, k) <==> k == i
  {
    RunIsSafe(states, steps, start);
    var d := states[|steps|].device;
    AcceptedReceiptsAndEventsCorrespond(d, start);
    i := EventOf(d, q.requestId);
  }

  /** No answer the server ever gave to a punch still in the spool refuses it as a replay. */
  lemma NoSpooledPunchIsEverRefusedAsAReplay(states: seq<System>, steps: seq<Step>, start: int, q: Request)
    requires IsRun(states, steps) && Init(states[0], start)
    requires q in states[|steps|].agent.spool
    ensures (q.requestId, Denied(SequenceReplay)) !in states[|steps|].replies
  {
    RunIsSafe(states, steps, start);
    assert !IsReplayRejection(states[|steps|].device, q.requestId);
  }

  /** Recorded punches stand in the attendance table in the order in which they were spooled. */
  lemma RecordedInQueueOrder(states: seq<System>, steps: seq<Step>, start: int, i: nat, j: nat, e: nat, f: nat)
    requires IsRun(states, steps) && Init(states[0], start)
    requires i < j < |states[|steps|].history.queue|
    requires IsEventOf(states[|steps|].device, states[|steps|].history.queue[i], e)
    requires IsEventOf(states[|steps|].device, states[|steps|].history.queue[j], f)
    ensures e < f
  {
    RunIsSafe(states, steps, start);
    var s := states[|steps|];
    var d, p, q := s.device, s.history.queue[i], s.history.queue[j];
    EventHasItsReceipt(d, start, p, e);
    EventHasItsReceipt(d, start, q, f);
    AcceptedReceiptsAndEventsCorrespond(d, start);
    hide Inv, IsKeyOf;
    ReceiptHasTheSequence(s, start, p);
    ReceiptHasTheSequence(s, start, q);
  }

  lemma ReceiptHasTheSequence(s: System, start: int, q: Request)
    requires Safe(s, start) && q in s.history.queue && q.requestId in s.device.receipts
    ensures s.device.receipts[q.requestId].sequence == q.sequence
  {
    hide Inv;
    var p :| p in s.net && p.requestId == q.requestId && s.device.receipts[q.requestId].sequence == p.sequence;
    SameSequenceSameRequest(s.history.queue, p, q);
  }

  /** Every punch ever spooled is still spooled, or sent, or dropped, or set aside as unreadable; in one place only. */
  lemma NoPunchIsLost(states: seq<System>, steps: seq<Step>, start: int, q: Request)
    requires IsRun(states, steps) && Init(states[0], start)
    ensures var s := states[|steps|];
            var places := [q in s.agent.spool, q in s.history.sent, q in s.history.dropped, q in s.history.unreadable];
            multiset(places)[true] == if q in s.history.queue then 1 else 0
  {
    RunIsSafe(states, steps, start);
  }

  // ---------------------------------------------------------------------------
  // Why a punch leaves the spool
  // ---------------------------------------------------------------------------

  /** The end of a send that failed: nothing moves and the flush ends when there was no response or the server asks to
      come back later; any other status drops the head and nothing else. */
  lemma FailedSend(s: System, status: Option<int>, start: int) returns (s': System)
    requires Safe(s, start) && Enabled(s, Fail(status))
    ensures Enabled(Next(s, Fail(status)), Finish) && s' == Next(Next(s, Fail(status)), Finish)
    ensures s'.device == s.device && s'.net == s.net && s'.agent.outcome == None
    ensures status == None || status.value in {408, 429} || status.value >= 500 ==>
              s'.history == s.history && s'.agent.spool == s.agent.spool && s'.agent.pending == []
    ensures status.Some? && status.value < 500 && status.value !in {408, 429} ==>
              && s'.history == s.history.(dropped := s.history.dropped + {s.agent.spool[0]})
              && s'.agent.spool == s.agent.spool[1..] && s'.agent.pending == s.agent.pending[1..]
  {
    s' := Next(Next(s, Fail(status)), Finish);
    HeadIdIsDistinct(s, start);
    RemoveHead(s.agent.spool);
    hide Inv, Except, Conserved, RepliesMatch, ReceiptsAreSent;
  }

  /** The end of a send that was answered: an acceptance leaves the head sent, everything else dropped. */
  lemma AnsweredSend(s: System, answer: Answer, start: int) returns (s': System)
    requires Safe(s, start) && Enabled(s, Reply(answer))
    ensures Enabled(Next(s, Reply(answer)), Finish) && s' == Next(Next(s, Reply(answer)), Finish)
    ensures s'.device == s.device && s'.net == s.net && s'.agent.outcome == None
    ensures s'.agent.spool == s.agent.spool[1..] && s'.agent.pending == s.agent.pending[1..]
    ensures s'.history == if answer.Ok? then s.history.(sent := s.history.sent + {s.agent.spool[0]})
                          else s.history.(dropped := s.history.dropped + {s.agent.spool[0]})
  {
    s' := Next(Next(s, Reply(answer)), Finish);
    HeadIdIsDistinct(s, start);
    RemoveHead(s.agent.spool);
    hide Inv, Except, Conserved, RepliesMatch, ReceiptsAreSent;
  }

  /** The step tells the agent that the server will never take the punch it is sending: `q`. */
  predicate IsFinalRefusal(s: System, step: Step, q: Request) {
    && s.agent.pending != [] && s.agent.pending[0] == q
    && match step
       case Fail(status) => status.Some? && status.value < 500 && status.value !in {408, 429}
       case Reply(answer) => !answer.Ok?
       case _ => false
  }

  predicate IsAcceptance(s: System, step: Step, q: Request) {
    s.agent.pending != [] && s.agent.pending[0] == q && step.Reply? && step.a.Ok?
  }

  ghost predicate HadAFinalRefusal(states: seq<System>, steps: seq<Step>, q: Request) {
    exists i :: 0 <= i < |steps| && i < |states| && IsFinalRefusal(states[i], steps[i], q)
  }

  ghost predicate HadAnAcceptance(states: seq<System>, steps: seq<Step>, q: Request) {
    exists i :: 0 <= i < |steps| && i < |states| && IsAcceptance(states[i], steps[i], q)
  }

  lemma HistoryGrows(states: seq<System>, steps: seq<Step>, q: Request)
    requires steps != [] && |states| == |steps| + 1
    ensures HadAFinalRefusal(states, steps, q) <==>
            || HadAFinalRefusal(states[..|steps|], steps[..|steps| - 1], q)
            || IsFinalRefusal(states[|steps| - 1], steps[|steps| - 1], q)
    ensures HadAnAcceptance(states, steps, q) <==>
            || HadAnAcceptance(states[..|steps|], steps[..|steps| - 1], q)
            || IsAcceptance(states[|steps| - 1], steps[|steps| - 1], q)
  {
    hide IsFinalRefusal, IsAcceptance;
    var n := |steps| - 1;
    assert forall i :: 0 <= i < n ==> states[..n + 1][i] == states[i] && steps[..n][i] == steps[i];
  }

  /** A punch is dropped only after a final refusal of its own and sent only after an acceptance of its own; so while
      all that goes wrong is that the server is away, nothing is dropped. */
  lemma {:induction false} PunchesLeaveForAReason(states: seq<System>, steps: seq<Step>, start: int)
    requires IsRun(states, steps) && Init(states[0], start)
    ensures forall q :: q in states[|steps|].history.dropped ==> HadAFinalRefusal(states, steps, q)
    ensures forall q :: q in states[|steps|].history.sent ==> HadAnAcceptance(states, steps, q)
    ensures var a := states[|steps|].agent;
            && (a.outcome == Some(SendRejected) ==> a.pending != [] && HadAFinalRefusal(states, steps, a.pending[0]))
            && (a.outcome == Some(SendAccepted) ==> a.pending != [] && HadAnAcceptance(states, steps, a.pending[0]))
    decreases |steps|
  {
    if steps != [] {
      var n := |steps| - 1;
      PunchesLeaveForAReason(states[..n + 1], steps[..n], start);
      forall q
        ensures HadAFinalRefusal(states[..n + 1], steps[..n], q) || IsFinalRefusal(states[n], steps[n], q) ==>
                  HadAFinalRefusal(states, steps, q)
        ensures HadAnAcceptance(states[..n + 1], steps[..n], q) || IsAcceptance(states[n], steps[n], q) ==>
                  HadAnAcceptance(states, steps, q)
      {
        HistoryGrows(states, steps, q);
      }
      hide HadAFinalRefusal, HadAnAcceptance, IsRun;
      StepLeavesForAReason(states[n], steps[n]);
    }
  }

  /** What one step adds to the dropped and the sent, and what it leaves as the outcome of a send. */
  lemma StepLeavesForAReason(s: System, step: Step)
    requires Enabled(s, step)
    ensures var s' := Next(s, step);
            && (forall q :: q in s'.history.dropped ==>
                  || q in s.history.dropped
                  || (s.agent.outcome == Some(SendRejected) && s.agent.pending != [] && q == s.agent.pending[0]))
            && (forall q :: q in s'.history.sent ==>
                  || q in s.history.sent
                  || (s.agent.outcome == Some(SendAccepted) && s.agent.pending != [] && q == s.agent.pending[0]))
            && (s'.agent.outcome.Some? ==>
                  || (s'.agent.outcome == s.agent.outcome && s'.agent.pending == s.agent.pending)
                  || (&& s'.agent.pending != []
                      && (s'.agent.outcome == Some(SendRejected) ==> IsFinalRefusal(s, step, s'.agent.pending[0]))
                      && (s'.agent.outcome == Some(SendAccepted) ==> IsAcceptance(s, step, s'.agent.pending[0]))))
  {
    hide Handle, Except, IsLookup, IsForeign;
  }

  /** A run in which nothing but outages goes wrong: no response, or one that says to come back later. */
  lemma OutagesDropNothing(states: seq<System>, steps: seq<Step>, start: int)
    requires IsRun(states, steps) && Init(states[0], start)
    requires forall i :: 0 <= i < |steps| ==>
               && (steps[i].Reply? ==> steps[i].a.Ok?)
               && (steps[i].Fail? ==>
                     steps[i].status == None || steps[i].status.value in {408, 429} || steps[i].status.value >= 500)
    ensures states[|steps|].history.dropped == {}
  {
    PunchesLeaveForAReason(states, steps, start);
    hide IsRun, Init;
  }

  // ---------------------------------------------------------------------------
  // The head of the spool can get through
  // ---------------------------------------------------------------------------

  /** The server takes the punch unless its number or an earlier answer speaks against it. */
  ghost predicate IsFavourable(w: World, q: Request) {
    w.authentic && w.timeAccepted && w.employee.Some? && HasAType(q, w) && w.recording.Allowed?
  }

  lemma LookupOf(d: Device, q: Request, w: World) returns (found: Option<nat>)
    ensures IsLookup(d, q, w, found)
  {
    var key := KeyOf(q.kind, d.id, q.requestId);
    hide KeyOf, IsStored;
    if w.employee.Some? && HasEvent(d.events, w.employee.value, key) {
      var i: nat :| IsStored(d.events, w.employee.value, key, i);
      found := Some(i);
    } else {
      found := None;
    }
  }

  lemma {:induction false} ExceptNobody(spool: seq<Request>)
    ensures Except(spool, {}) == spool
  {
    if spool != [] { ExceptNobody(spool[1..]); }
  }

  lemma HeadIsAnswered(s: System, start: int, q: Request, w: World, found: Option<nat>)
    requires Safe(s, start) && q in s.net && q in s.agent.spool
    requires IsFavourable(w, q) && IsLookup(s.device, q, w, found)
    ensures var (device, answer) := Handle(s.device, q, w, found);
            && (answer.Ok? <==> q.requestId in s.device.receipts ==> Accepted(s.device, q.requestId))
            && (answer.Ok? <==> Accepted(device, q.requestId))
  {
    if q.requestId !in s.device.receipts {
      HeadIsAhead(s, start, q);
      hide Handle;
      FreshAnswerIs(s.device, start, q, w, found);
    }
  }

  lemma HeadIsSent(s: System, start: int) returns (s1: System, s2: System)
    requires Safe(s, start) && s.agent.pending == [] && s.agent.spool != []
    ensures Enabled(s, StartFlush({})) && s1 == Next(s, StartFlush({}))
    ensures Enabled(s1, Send) && s2 == Next(s1, Send) && Safe(s2, start)
    ensures s2.agent == s.agent.(pending := s.agent.spool, outcome := None) && s2.history == s.history
    ensures s2.device == s.device && s.agent.spool[0] in s2.net
  {
    hide Safe;
    ExceptNobody(s.agent.spool);
    s1 := Next(s, StartFlush({}));
    s2 := Next(s1, Send);
    assert s1.history == s.history;
    StepIsSafe(s, StartFlush({}), start);
    StepIsSafe(s1, Send, start);
  }

  lemma FoundIsARow(d: Device, q: Request, w: World, found: Option<nat>)
    requires IsLookup(d, q, w, found)
    ensures found.Some? ==> found.value < |d.events|
  {
    hide KeyOf;
  }

  lemma ReceivedIs(s: System, q: Request, w: World, found: Option<nat>) returns (answer: Answer, s1: System)
    requires q in s.net && IsLookup(s.device, q, w, found) && (found.Some? ==> found.value < |s.device.events|)
    ensures Enabled(s, Receive(q, w, found)) && s1 == Next(s, Receive(q, w, found))
    ensures answer == Handle(s.device, q, w, found).1
    ensures s1 == s.(device := Handle(s.device, q, w, found).0, replies := s.replies + {(q.requestId, answer)})
  {
    hide Handle, IsLookup;
    answer := Handle(s.device, q, w, found).1;
    s1 := Next(s, Receive(q, w, found));
  }

  lemma ReplyMayCome(s: System, answer: Answer)
    requires s.agent.pending != [] && s.agent.outcome == None && (s.agent.pending[0].requestId, answer) in s.replies
    ensures Enabled(s, Reply(answer))
  {
  }

  lemma HeadIsReceived(s: System, start: int, w: World, found: Option<nat>) returns (answer: Answer, s1: System)
    requires Safe(s, start) && s.agent.pending != [] && s.agent.outcome == None
    requires var q := s.agent.pending[0];
             q in s.net && q in s.agent.spool && IsFavourable(w, q) && IsLookup(s.device, q, w, found)
    ensures var q := s.agent.pending[0];
            && Enabled(s, Receive(q, w, found)) && s1 == Next(s, Receive(q, w, found)) && Safe(s1, start)
            && Enabled(s1, Reply(answer)) && s1.agent == s.agent && s1.history == s.history
            && (answer.Ok? <==> q.requestId in s.device.receipts ==> Accepted(s.device, q.requestId))
            && (answer.Ok? <==> Accepted(s1.device, q.requestId))
  {
    hide *;
    var q := s.agent.pending[0];
    FoundIsARow(s.device, q, w, found);
    HeadIsAnswered(s, start, q, w, found);
    answer, s1 := ReceivedIs(s, q, w, found);
    StepIsSafe(s, Receive(q, w, found), start);
    ReplyMayCome(s1, answer);
  }

  lemma HeadIsConcluded(s: System, start: int, w: World, found: Option<nat>)
    returns (answer: Answer, s1: System, s2: System, s3: System)
    requires Safe(s, start) && s.agent.pending != [] && s.agent.outcome == None
    requires var q := s.agent.pending[0];
             q in s.net && q in s.agent.spool && IsFavourable(w, q) && IsLookup(s.device, q, w, found)
    ensures var q := s.agent.pending[0];
            && Enabled(s, Receive(q, w, found)) && s1 == Next(s, Receive(q, w, found))
            && Enabled(s1, Reply(answer)) && s2 == Next(s1, Reply(answer))
            && Enabled(s2, Finish) && s3 == Next(s2, Finish)
            && s3.agent.spool == s.agent.spool[1..]
            && if q.requestId in s.device.receipts ==> Accepted(s.device, q.requestId)
               then s3.history == s.history.(sent := s.history.sent + {s.agent.spool[0]})
                    && Accepted(s3.device, q.requestId)
               else s3.history == s.history.(dropped := s.history.dropped + {s.agent.spool[0]})
  {
    hide Safe, IsLookup, IsFavourable, Accepted, Next;
    answer, s1 := HeadIsReceived(s, start, w, found);
    s3 := AnsweredSend(s1, answer, start);
    s2 := Next(s1, Reply(answer));
  }

  /** From every safe state in which no flush is under way and the spool is not empty, the head can reach its end, when
      nothing is lost and the server takes it: it leaves the spool, alone, and ends as sent and accepted, unless an
      answer on record refuses it. */
  lemma HeadCanGetThrough(s: System, start: int, w: World) returns (states: seq<System>, steps: seq<Step>)
    requires Safe(s, start) && s.agent.pending == [] && s.agent.spool != [] && IsFavourable(w, s.agent.spool[0])
    ensures IsRun(states, steps) && states[0] == s
    ensures var s', q := states[|steps|], s.agent.spool[0];
            && s'.agent.spool == s.agent.spool[1..]
            && if q.requestId in s.device.receipts ==> Accepted(s.device, q.requestId)
               then s'.history == s.history.(sent := s.history.sent + {q}) && Accepted(s'.device, q.requestId)
               else s'.history == s.history.(dropped := s.history.dropped + {q})
  {
    hide Safe, IsFavourable, IsLookup, Next, Accepted;
    var q := s.agent.spool[0];
    var s1, s2 := HeadIsSent(s, start);
    var found := LookupOf(s2.device, q, w);
    var answer, s3, s4, s5 := HeadIsConcluded(s2, start, w, found);
    states := [s, s1, s2, s3, s4, s5];
    steps := [StartFlush({}), Send, Receive(q, w, found), Reply(answer), Finish];
  }

  // ---------------------------------------------------------------------------
  // What dropped means
  // ---------------------------------------------------------------------------

  ghost predicate HasARow(d: Device, q: Request) {
    exists i: nat :: IsEventOf(d, q, i)
  }

  lemma HasARowIffAccepted(d: Device, start: int, q: Request)
    requires Inv(d, start)
    ensures HasARow(d, q) <==> Accepted(d, q.requestId)
  {
    if HasARow(d, q) {
      var i: nat :| IsEventOf(d, q, i);
      EventHasItsReceipt(d, start, q, i);
    }
    if Accepted(d, q.requestId) {
      assert PointsAtItsEvent(d, q.requestId);
      assert IsEventOf(d, q, EventOf(d, q.requestId));
    }
  }

  /** Exactly when the answer to a resend of a recorded punch makes the agent drop it: signature and time are checked
      before the receipt is looked up. */
  lemma ResendIsRefusedIff(d: Device, q: Request, w: World, found: Option<nat>)
    requires Accepted(d, q.requestId) && IsLookup(d, q, w, found)
    ensures OutcomeOf(Handle(d, q, w, found).1) == SendRejected <==> !w.authentic || !w.timeAccepted
    ensures Handle(d, q, w, found).1.Ok? <==> w.authentic && w.timeAccepted
  {
  }

  /** The agent drops a punch on nothing but a rejection that the server has stored. */
  predicate DropsOnlyStoredRejections(step: Step) {
    && (step.Reply? ==> step.a.Ok? || step.a.Denied?)
    && (step.Fail? ==> step.status == None || step.status.value in {408, 429} || step.status.value >= 500)
  }

  predicate IsRefused(d: Device, requestId: string) {
    requestId in d.receipts && d.receipts[requestId].result.Refused?
  }

  predicate DroppedAreRefused(s: System) {
    && (forall q :: q in s.history.dropped ==> IsRefused(s.device, q.requestId))
    && (s.agent.outcome == Some(SendRejected) ==>
          s.agent.pending != [] && IsRefused(s.device, s.agent.pending[0].requestId))
  }

  lemma ReceiveKeepsRefusals(d: Device, q: Request, w: World, found: Option<nat>, r: string)
    requires IsLookup(d, q, w, found) && IsRefused(d, r)
    ensures IsRefused(Handle(d, q, w, found).0, r)
  {
    HandleAddsOneReceipt(d, q, w, found);
    FreshReceiptIsTheOnlyChange(d, q, w, found);
    hide Handle, IsLookup;
  }

  lemma FreshReceiptIsTheOnlyChange(d: Device, q: Request, w: World, found: Option<nat>)
    requires IsLookup(d, q, w, found)
    ensures var d' := Handle(d, q, w, found).0;
            && (forall r :: r in d.receipts ==> r in d'.receipts && d'.receipts[r] == d.receipts[r])
            && (forall r :: r in d'.receipts ==> r in d.receipts || r == q.requestId)
            && d.lastSequence <= d'.lastSequence
  {
  }

  lemma StepKeepsDroppedRefused(s: System, step: Step, start: int)
    requires Safe(s, start) && Enabled(s, step) && DroppedAreRefused(s) && DropsOnlyStoredRejections(step)
    ensures DroppedAreRefused(Next(s, step))
  {
    hide Inv, Except, Conserved, Numbered, Spooled, SentInOrder, NoSpooledReplay, SentAreAccepted;
    match step {
      case Receive(q, w, found) =>
        forall r | IsRefused(s.device, r) ensures IsRefused(Next(s, step).device, r) {
          ReceiveKeepsRefusals(s.device, q, w, found, r);
        }
        hide Handle;
      case Reply(answer) =>
        if OutcomeOf(answer) == SendRejected { DenialIsStored(s, answer); }
      case _ =>
    }
  }

  lemma DenialIsStored(s: System, answer: Answer)
    requires RepliesMatch(s.device, s.replies) && Enabled(s, Reply(answer)) && answer.Denied?
    ensures IsRefused(s.device, s.agent.pending[0].requestId)
  {
    var p := (s.agent.pending[0].requestId, answer);
    assert p in s.replies;
  }

  /** As long as the agent drops punches only on stored rejections, no dropped punch has an attendance row. */
  lemma {:induction false} DroppedIsUnrecorded(states: seq<System>, steps: seq<Step>, start: int)
    requires IsRun(states, steps) && Init(states[0], start)
    requires forall i :: 0 <= i < |steps| ==> DropsOnlyStoredRejections(steps[i])
    ensures DroppedAreRefused(states[|steps|])
    ensures forall q :: q in states[|steps|].history.dropped ==> !HasARow(states[|steps|].device, q)
    decreases |steps|
  {
    var s := states[|steps|];
    if steps != [] {
      var n := |steps| - 1;
      DroppedIsUnrecorded(states[..n + 1], steps[..n], start);
      RunIsSafe(states[..n + 1], steps[..n], start);
      StepKeepsDroppedRefused(states[n], steps[n], start);
    }
    RunIsSafe(states, steps, start);
    hide Safe, HasARow, Next, Enabled;
    forall q | q in s.history.dropped ensures !HasARow(s.device, q) { HasARowIffAccepted(s.device, start, q); }
  }

  /** A copy of `q` is on its way that the server would still record. */
  predicate MayStillBeTaken(s: System, q: Request) {
    && q in s.net && q.requestId !in s.device.receipts && s.device.lastSequence < q.sequence
    && (q.kind == ByCard || q.eventType.Some?)
  }

  /** `q` has left the spool without a row and none will be recorded. */
  predicate IsOver(s: System, q: Request) {
    && q in s.history.queue && q !in s.agent.spool && !Accepted(s.device, q.requestId)
    && !MayStillBeTaken(s, q)
  }

  lemma ReceiveKeepsOver(s: System, q: Request, p: Request, w: World, found: Option<nat>, start: int)
    requires Safe(s, start) && IsOver(s, q) && Enabled(s, Receive(p, w, found))
    ensures IsOver(Next(s, Receive(p, w, found)), q)
  {
    FreshReceiptIsTheOnlyChange(s.device, p, w, found);
    if p.requestId == q.requestId { SameSequenceSameRequest(s.history.queue, p, q); }
    hide Inv, Conserved, ReceiptsAreSent, RepliesMatch, NoSpooledReplay, SentAreAccepted, Numbered, Spooled, Except,
      KeyOf;
  }

  lemma StepKeepsOver(s: System, q: Request, step: Step, start: int)
    requires Safe(s, start) && IsOver(s, q) && Enabled(s, step)
    ensures IsOver(Next(s, step), q)
  {
    hide Inv, Conserved, ReceiptsAreSent, RepliesMatch, NoSpooledReplay, SentAreAccepted, Numbered, Except, Handle;
    match step {
      case Receive(p, w, found) => ReceiveKeepsOver(s, q, p, w, found, start);
      case StartFlush(damaged) => ExceptKeepsTheRest(s.agent.spool, damaged);
      case Finish => ExceptKeepsTheRest(s.agent.spool, {s.agent.pending[0].requestId});
      case Send => assert s.agent.pending[0] == s.agent.spool[0];
      case _ =>
    }
  }

  ghost predicate LeadsToARow(states: seq<System>, steps: seq<Step>, s: System, q: Request) {
    IsRun(states, steps) && states[0] == s && HasARow(states[|steps|].device, q)
  }

  /** Some continuation, of no step or of many, ends with an attendance row of `q`. */
  ghost predicate HasOrGetsARow(s: System, q: Request) {
    exists states, steps :: LeadsToARow(states, steps, s, q)
  }

  lemma {:induction false} OverIsForGood(states: seq<System>, steps: seq<Step>, q: Request, start: int)
    requires IsRun(states, steps) && Safe(states[0], start) && IsOver(states[0], q)
    ensures Safe(states[|steps|], start) && IsOver(states[|steps|], q)
    decreases |steps|
  {
    if steps != [] {
      var n := |steps| - 1;
      OverIsForGood(states[..n + 1], steps[..n], q, start);
      StepIsSafe(states[n], steps[n], start);
      StepKeepsOver(states[n], q, steps[n], start);
    }
  }

  /** One way for the server to take a request: known employee, in time, nothing against it. */
  const FAVOURABLE := World(true, true, 0, Some("e"), Some(Corrections.ClockIn), Allowed(0))

  lemma FavourableRequestIsTaken(d: Device, start: int, q: Request)
    requires Inv(d, start) && q.requestId !in d.receipts && d.lastSequence < q.sequence
    requires q.kind == ByCard || q.eventType.Some?
    ensures IsLookup(d, q, FAVOURABLE, None) && Accepted(Handle(d, q, FAVOURABLE, None).0, q.requestId)
  {
    var key := KeyOf(q.kind, d.id, q.requestId);
    hide Inv, KeyOf;
    if HasEvent(d.events, "e", key) {
      var i: nat :| IsStored(d.events, "e", key, i);
      StoredRowHasAReceipt(d, start, "e", q.kind, q.requestId, i);
    }
  }

  lemma LateCopyIsRecorded(s: System, q: Request, start: int)
    requires Safe(s, start) && MayStillBeTaken(s, q)
    ensures HasOrGetsARow(s, q)
  {
    hide Safe, Inv, IsLookup, Handle, Accepted, HasARow, LeadsToARow;
    var step := Receive(q, FAVOURABLE, None);
    SafeDevice(s, start);
    FavourableRequestIsTaken(s.device, start, q);
    StepIsSafe(s, step, start);
    var s' := Next(s, step);
    SafeDevice(s', start);
    HasARowIffAccepted(s'.device, start, q);
    LeadsByOneStep(s, s', step, q);
  }

  lemma SafeDevice(s: System, start: int)
    requires Safe(s, start)
    ensures Inv(s.device, start)
  {
  }

  lemma LeadsByOneStep(s: System, s': System, step: Step, q: Request)
    requires Enabled(s, step) && s' == Next(s, step) && HasARow(s'.device, q)
    ensures LeadsToARow([s, s'], [step], s, q) && HasOrGetsARow(s, q)
  {
    hide Enabled, Next, HasARow;
    assert LeadsToARow([s, s'], [step], s, q);
  }

  /** Exactly which dropped punches have a row or may still get one: those recorded before, and those of which a copy is
      under way that is ahead of everything accepted and was refused without a receipt. */
  lemma DroppedHasOrGetsARowIff(s: System, q: Request, start: int)
    requires Safe(s, start) && q in s.history.dropped
    ensures HasOrGetsARow(s, q) <==> Accepted(s.device, q.requestId) || MayStillBeTaken(s, q)
  {
    HasARowIffAccepted(s.device, start, q);
    assert q in s.history.queue && q !in s.agent.spool;
    if Accepted(s.device, q.requestId) {
      assert LeadsToARow([s], [], s, q);
    } else if MayStillBeTaken(s, q) {
      LateCopyIsRecorded(s, q, start);
    } else if HasOrGetsARow(s, q) {
      var states: seq<System>, steps: seq<Step> :| LeadsToARow(states, steps, s, q);
      OverIsForGood(states, steps, q, start);
      HasARowIffAccepted(states[|steps|].device, start, q);
    }
  }

  ghost predicate Leads(states: seq<System>, steps: seq<Step>, s: System, start: int) {
    IsRun(states, steps) && Init(states[0], start) && states[|steps|] == s
  }

  ghost predicate IsReachable(s: System, start: int) {
    exists states, steps :: Leads(states, steps, s, start)
  }

  lemma OneStepFurther(s: System, step: Step, start: int)
    requires IsReachable(s, start) && Enabled(s, step)
    ensures IsReachable(Next(s, step), start)
  {
    var states: seq<System>, steps: seq<Step> :| Leads(states, steps, s, start);
    hide Enabled, Next, Init;
    var more, further := states + [Next(s, step)], steps + [step];
    forall i | 0 <= i < |further| ensures Enabled(more[i], further[i]) && more[i + 1] == Next(more[i], further[i]) {
      if i < |steps| { assert states[i + 1] == Next(states[i], steps[i]); }
    }
    assert Leads(more, further, Next(s, step), start);
  }

  /** Dropped does not mean unrecorded: the time check runs before the receipt is looked up, so a resend
      that arrives too late drops a punch whose first delivery was recorded and whose answer was lost. */
  lemma LateResendDropsARecordedPunch(s: System, q: Request, w: World, found: Option<nat>, start: int)
    returns (received: System, replied: System, finished: System)
    requires Safe(s, start) && Enabled(s, Receive(q, w, found))
    requires s.agent.pending != [] && q == s.agent.pending[0] && s.agent.outcome == None
    requires Accepted(s.device, q.requestId) && w.authentic && !w.timeAccepted
    ensures received == Next(s, Receive(q, w, found))
    ensures Enabled(received, Reply(InvalidTime)) && replied == Next(received, Reply(InvalidTime))
    ensures Enabled(replied, Finish) && finished == Next(replied, Finish)
    ensures q in finished.history.dropped && q !in finished.agent.spool
    ensures Accepted(finished.device, q.requestId)
            && IsEventOf(finished.device, q, EventOf(finished.device, q.requestId))
  {
    received := Next(s, Receive(q, w, found));
    assert received == s.(replies := s.replies + {(q.requestId, InvalidTime)});
    replied := Next(received, Reply(InvalidTime));
    finished := Next(replied, Finish);
    assert PointsAtItsEvent(s.device, q.requestId);
    HeadIdIsDistinct(s, start);
    hide Inv, Except, Handle, IsKeyOf;
    FinishConserves(replied.agent, replied.history);
  }

  /** From the start: the first punch of a station, on its way to the server for the first time. */
  lemma FirstPunchIsSent(deviceId: string, start: int, requestId: string) returns (s: System, q: Request)
    ensures IsReachable(s, start) && q in s.net && s.agent.pending == [q] == s.agent.spool && s.agent.outcome == None
    ensures q == Request(ByCard, start + 1, requestId, "card", None)
    ensures s.device == Device(deviceId, start, map[], [])
  {
    q := Request(ByCard, start + 1, requestId, "card", None);
    s := System(Agent(start + 1, None, [], [], None), {}, Device(deviceId, start, map[], []), {},
      History([], {}, {}, {}));
    assert Leads([s], [], s, start);
    s := Taken(s, Allocate, start);
    s := Taken(s, Spool(q), start);
    assert [] + [q] == [q] && Except([q], {}) == [q];
    s := Taken(s, StartFlush({}), start);
    s := Taken(s, Send, start);
  }

  lemma Taken(s: System, step: Step, start: int) returns (s': System)
    requires IsReachable(s, start) && Enabled(s, step)
    ensures s' == Next(s, step) && IsReachable(s', start)
  {
    OneStepFurther(s, step, start);
    s' := Next(s, step);
  }

  /** A run in which a punch is recorded, its answer lost, and the punch dropped on a resend that comes too late. */
  lemma RecordedThenDropped(deviceId: string, start: int, requestId: string) returns (s: System, q: Request)
    ensures IsReachable(s, start) && q in s.history.dropped && HasARow(s.device, q)
  {
    var sent, first := FirstPunchIsSent(deviceId, start, requestId);
    q := first;
    var recorded := Taken(sent, Receive(q, FAVOURABLE, None), start);
    assert Accepted(recorded.device, requestId);
    s := LateResendIsDropped(recorded, q, start);
  }

  lemma LateResendIsDropped(s: System, q: Request, start: int) returns (finished: System)
    requires IsReachable(s, start) && q in s.net && s.agent.pending == [q] && s.agent.outcome == None
    requires Accepted(s.device, q.requestId)
    ensures IsReachable(finished, start) && q in finished.history.dropped && HasARow(finished.device, q)
  {
    var w := World(true, false, 0, None, None, Missing);
    ReachableIsSafe(s, start);
    var received, replied, last := LateResendDropsARecordedPunch(s, q, w, None, start);
    OneStepFurther(s, Receive(q, w, None), start);
    OneStepFurther(received, Reply(InvalidTime), start);
    OneStepFurther(replied, Finish, start);
    finished := last;
  }

  lemma ReachableIsSafe(s: System, start: int)
    requires IsReachable(s, start)
    ensures Safe(s, start)
  {
    var states: seq<System>, steps: seq<Step> :| Leads(states, steps, s, start);
    RunIsSafe(states, steps, start);
  }

  /** A run in which a punch is dropped because its first delivery was out of time, while a copy of it can still be
      recorded; no delivery of a recorded punch is out of time here. */
  lemma DroppedThenRecorded(deviceId: string, start: int, requestId: string) returns (s: System, q: Request)
    ensures IsReachable(s, start) && q in s.history.dropped && !HasARow(s.device, q) && HasOrGetsARow(s, q)
  {
    var sent, first := FirstPunchIsSent(deviceId, start, requestId);
    q := first;
    s := Taken(sent, Receive(q, World(true, false, 0, None, None, Missing), None), start);
    s := Taken(s, Reply(InvalidTime), start);
    s := Taken(s, Finish, start);
    ReachableIsSafe(s, start);
    HasARowIffAccepted(s.device, start, q);
    LateCopyIsRecorded(s, q, start);
  }
}
