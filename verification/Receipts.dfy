/** The server side of the punch protocol: one device, its receipts, its last
    accepted sequence, and the attendance events it shares with every other source.

    Device events and card events of the same device go through one table of
    receipts and one `lastSequence`. A transaction runs under the device's row
    lock, so each one is a single step here. */
module Receipts {
  import opened Wrappers
  import opened Corrections

  datatype Kind = ByEmployeeNumber | ByCard

  datatype Request = Request(
    kind: Kind,
    sequence: int,
    requestId: string,
    subject: string,
    eventType: Option<EventType>)

  datatype Event = Event(employee: string, key: string, eventType: EventType, businessDate: int)

  datatype Reason = SequenceReplay | UnknownSubject | PunchRejected

  datatype Recorded = Recorded(eventIndex: nat, eventType: EventType, businessDate: int)

  datatype Receipt = Receipt(sequence: int, step: int, skew: int, duplicate: bool, result: ReceiptResult)

  datatype ReceiptResult = Took(recorded: Recorded) | Refused(reason: Reason)

  /** `events` is the workspace's attendance table in insertion order, whatever the source. */
  datatype Device = Device(id: string, lastSequence: int, receipts: map<string, Receipt>, events: seq<Event>)

  /** What the rest of the server decides about one request; any combination may occur. */
  datatype World = World(
    authentic: bool,
    timeAccepted: bool,
    skew: int,
    employee: Option<string>,
    cardPunch: Option<EventType>,
    recording: Recording)

  datatype Recording = Allowed(businessDate: int) | Conflict | Missing

  datatype Answer =
    | Ok(created: bool, recorded: Recorded, step: int, skew: int)
    | Denied(reason: Reason)
    | Unauthenticated
    | InvalidTime
    | NotFound

  // ---------------------------------------------------------------------------
  // Keys
  // ---------------------------------------------------------------------------

  /** The idempotency key under which a punch of this device enters the attendance table. */
  function KeyOf(kind: Kind, deviceId: string, requestId: string): string {
    (if kind == ByCard then "card:" else "device:") + deviceId + ":" + requestId
  }

  /** Two keys agree only when kind, device and request agree; device ids are uuids, all of one length. */
  lemma KeysAreInjective(k1: Kind, d1: string, r1: string, k2: Kind, d2: string, r2: string)
    requires |d1| == |d2|
    requires KeyOf(k1, d1, r1) == KeyOf(k2, d2, r2)
    ensures k1 == k2 && d1 == d2 && r1 == r2
  {
    var a, b := KeyOf(k1, d1, r1), KeyOf(k2, d2, r2);
    assert a[0] == if k1 == ByCard then 'c' else 'd';
    assert b[0] == if k2 == ByCard then 'c' else 'd';
    var prefix := if k1 == ByCard then "card:" else "device:";
    PartsOfAKey(prefix, d1, r1);
    PartsOfAKey(prefix, d2, r2);
  }

  lemma PartsOfAKey(prefix: string, deviceId: string, requestId: string)
    ensures var key, p := prefix + deviceId + ":" + requestId, |prefix|;
            key[p..p + |deviceId|] == deviceId && key[p + |deviceId| + 1..] == requestId
  {
  }

  predicate IsKeyOf(deviceId: string, requestId: string, key: string) {
    key == KeyOf(ByEmployeeNumber, deviceId, requestId) || key == KeyOf(ByCard, deviceId, requestId)
  }

  /** A key that a web client, a correction or another device may use. */
  ghost predicate IsForeign(deviceId: string, key: string) {
    forall kind, requestId :: key != KeyOf(kind, deviceId, requestId)
  }

  // ---------------------------------------------------------------------------
  // The transaction as a function
  // ---------------------------------------------------------------------------

  datatype Verdict = Expected | Gap | Replay

  function EvaluateSequence(lastSequence: int, incoming: int): Verdict {
    if incoming <= lastSequence then Replay
    else if incoming == lastSequence + 1 then Expected
    else Gap
  }

  predicate IsStored(events: seq<Event>, employee: string, key: string, i: nat) {
    i < |events| && events[i].employee == employee && events[i].key == key
  }

  ghost predicate HasEvent(events: seq<Event>, employee: string, key: string) {
    exists i: nat :: IsStored(events, employee, key, i)
  }

  function Replayed(r: Receipt): Answer {
    match r.result
    case Refused(reason) => Denied(reason)
    case Took(recorded) => Ok(false, recorded, r.step, r.skew)
  }

  function Reject(d: Device, q: Request, w: World, reason: Reason): (Device, Answer) {
    var receipt := Receipt(q.sequence, q.sequence - d.lastSequence, w.skew, false, Refused(reason));
    (d.(receipts := d.receipts[q.requestId := receipt]), Denied(reason))
  }

  function Take(
      d: Device, q: Request, w: World, recorded: Recorded, created: bool, events: seq<Event>): (Device, Answer)
  {
    var step := q.sequence - d.lastSequence;
    var receipt := Receipt(q.sequence, step, w.skew, !created, Took(recorded));
    (Device(d.id, q.sequence, d.receipts[q.requestId := receipt], events), Ok(created, recorded, step, w.skew))
  }

  /** The type of punch to record: given, or for a card decided from the state of the day. */
  function TypeOf(q: Request, w: World): Option<EventType> {
    if q.kind == ByCard && q.eventType == None then w.cardPunch else q.eventType
  }

  /** Everything one request does. `found` is the row that already has this key, if there is one. */
  function Handle(d: Device, q: Request, w: World, found: Option<nat>): (Device, Answer)
    requires found.Some? ==> found.value < |d.events|
  {
    if !w.authentic then (d, Unauthenticated)
    else if !w.timeAccepted then (d, InvalidTime)
    else if q.requestId in d.receipts then (d, Replayed(d.receipts[q.requestId]))
    else if EvaluateSequence(d.lastSequence, q.sequence) == Replay then Reject(d, q, w, SequenceReplay)
    else if w.employee == None then Reject(d, q, w, UnknownSubject)
    else if TypeOf(q, w) == None then Reject(d, q, w, PunchRejected)
    else if found.Some? then
      var e := d.events[found.value];
      Take(d, q, w, Recorded(found.value, e.eventType, e.businessDate), false, d.events)
    else
      match w.recording
      case Conflict => Reject(d, q, w, PunchRejected)
      case Missing => (d, NotFound)
      case Allowed(date) =>
        var e := Event(w.employee.value, KeyOf(q.kind, d.id, q.requestId), TypeOf(q, w).value, date);
        Take(d, q, w, Recorded(|d.events|, e.eventType, date), true, d.events + [e])
  }

  /** The row that `findEventByRequestId` returns. */
  ghost predicate IsLookup(d: Device, q: Request, w: World, found: Option<nat>) {
    var key := KeyOf(q.kind, d.id, q.requestId);
    match found
    case Some(i) => w.employee.Some? && IsStored(d.events, w.employee.value, key, i)
    case None => w.employee.Some? ==> !HasEvent(d.events, w.employee.value, key)
  }

  // ---------------------------------------------------------------------------
  // The procedure, step by step
  // ---------------------------------------------------------------------------

  class DeviceStore {
    const id: string
    var lastSequence: int
    var receipts: map<string, Receipt>
    var events: seq<Event>

    constructor (deviceId: string)
      ensures View() == Device(deviceId, 0, map[], [])
    {
      id, lastSequence, receipts, events := deviceId, 0, map[], [];
    }

    function View(): Device
      reads this
    {
      Device(id, lastSequence, receipts, events)
    }

    method FindEventByKey(employee: string, key: string) returns (found: Option<nat>)
      ensures found.Some? ==>
                && IsStored(events, employee, key, found.value)
                && events[found.value].employee == employee && events[found.value].key == key
      ensures found == None ==> !HasEvent(events, employee, key)
    {
      for i := 0 to |events|
        invariant forall j :: 0 <= j < i ==> !IsStored(events, employee, key, j)
      {
        if events[i].employee == employee && events[i].key == key { return Some(i); }
      }
      return None;
    }

    method InsertReceipt(requestId: string, receipt: Receipt)
      requires requestId !in receipts
      modifies this`receipts
      ensures receipts == old(receipts)[requestId := receipt]
    {
      receipts := receipts[requestId := receipt];
    }

    /** The shared recording step: the stored row, a new row, a conflict or a missing employee. */
    method RecordAttendance(employee: string, key: string, eventType: EventType, recording: Recording)
      returns (recorded: Option<Recorded>, created: bool, missing: bool, ghost found: Option<nat>)
      modifies this`events
      ensures match found
              case Some(i) => IsStored(old(events), employee, key, i)
              case None => !HasEvent(old(events), employee, key)
      ensures match found
              case Some(i) =>
                && events == old(events) && !created && !missing
                && recorded == Some(Recorded(i, events[i].eventType, events[i].businessDate))
              case None =>
                match recording
                case Conflict => events == old(events) && recorded == None && !missing
                case Missing => events == old(events) && recorded == None && missing
                case Allowed(date) =>
                  && events == old(events) + [Event(employee, key, eventType, date)] && created && !missing
                  && recorded == Some(Recorded(|old(events)|, eventType, date))
    {
      var existing := FindEventByKey(employee, key);
      found := existing;
      if existing.Some? {
        var e := events[existing.value];
        return Some(Recorded(existing.value, e.eventType, e.businessDate)), false, false, existing;
      }
      match recording {
        case Missing => return None, false, true, existing;
        case Conflict => return None, false, false, existing;
        case Allowed(date) =>
          events := events + [Event(employee, key, eventType, date)];
          return Some(Recorded(|events| - 1, eventType, date)), true, false, existing;
      }
    }

    /** `recordEvent` and `recordCardEvent`: authenticate, then one transaction under the device lock. */
    method Record(q: Request, w: World) returns (answer: Answer, ghost found: Option<nat>)
      requires q.kind == ByEmployeeNumber ==> q.eventType.Some?
      modifies this
      ensures IsLookup(old(View()), q, w, found)
      ensures (View(), answer) == Handle(old(View()), q, w, found)
    {
      found := Lookup(q, w);
      if !w.authentic { return Unauthenticated, found; }
      if !w.timeAccepted { return InvalidTime, found; }
      if q.requestId in receipts { return Replayed(receipts[q.requestId]), found; }

      var step := q.sequence - lastSequence;
      if EvaluateSequence(lastSequence, q.sequence) == Replay {
        InsertReceipt(q.requestId, Receipt(q.sequence, step, w.skew, false, Refused(SequenceReplay)));
        return Denied(SequenceReplay), found;
      }
      if w.employee == None {
        InsertReceipt(q.requestId, Receipt(q.sequence, step, w.skew, false, Refused(UnknownSubject)));
        return Denied(UnknownSubject), found;
      }
      var eventType := q.eventType;
      if q.kind == ByCard && eventType == None { eventType := w.cardPunch; }
      if eventType == None {
        InsertReceipt(q.requestId, Receipt(q.sequence, step, w.skew, false, Refused(PunchRejected)));
        return Denied(PunchRejected), found;
      }

      var recorded, created, missing, row :=
        RecordAttendance(w.employee.value, KeyOf(q.kind, id, q.requestId), eventType.value, w.recording);
      found := row;
      if missing { return NotFound, found; }
      if recorded == None {
        InsertReceipt(q.requestId, Receipt(q.sequence, step, w.skew, false, Refused(PunchRejected)));
        return Denied(PunchRejected), found;
      }
      InsertReceipt(q.requestId, Receipt(q.sequence, step, w.skew, !created, Took(recorded.value)));
      lastSequence := q.sequence;
      return Ok(created, recorded.value, step, w.skew), found;
    }

    ghost method Lookup(q: Request, w: World) returns (found: Option<nat>)
      ensures IsLookup(View(), q, w, found)
    {
      var key := KeyOf(q.kind, id, q.requestId);
      if w.employee.Some? && HasEvent(events, w.employee.value, key) {
        var i: nat :| IsStored(events, w.employee.value, key, i);
        found := Some(i);
      } else {
        found := None;
      }
    }
  }

  // ---------------------------------------------------------------------------
  // The receipt invariant
  // ---------------------------------------------------------------------------

  predicate Accepted(d: Device, requestId: string) {
    requestId in d.receipts && d.receipts[requestId].result.Took?
  }

  function SequenceOf(d: Device, requestId: string): int
    requires Accepted(d, requestId)
  {
    d.receipts[requestId].sequence
  }

  function EventOf(d: Device, requestId: string): nat
    requires Accepted(d, requestId)
  {
    d.receipts[requestId].result.recorded.eventIndex
  }

  /** The attendance row an accepted receipt points at carries one of the request's keys. */
  ghost predicate PointsAtItsEvent(d: Device, requestId: string)
    requires Accepted(d, requestId)
  {
    var recorded := d.receipts[requestId].result.recorded;
    && !d.receipts[requestId].duplicate
    && recorded.eventIndex < |d.events|
    && IsKeyOf(d.id, requestId, d.events[recorded.eventIndex].key)
    && d.events[recorded.eventIndex].eventType == recorded.eventType
    && d.events[recorded.eventIndex].businessDate == recorded.businessDate
  }

  ghost predicate ReceiptsPointAtEvents(d: Device) {
    forall r :: Accepted(d, r) ==> PointsAtItsEvent(d, r)
  }

  ghost predicate EventsHaveReceipts(d: Device) {
    forall i: nat, r :: i < |d.events| && IsKeyOf(d.id, r, d.events[i].key) ==> Accepted(d, r) && EventOf(d, r) == i
  }

  ghost predicate SequencesFollowEvents(d: Device) {
    forall r, s :: Accepted(d, r) && Accepted(d, s) ==>
      (SequenceOf(d, r) < SequenceOf(d, s) <==> EventOf(d, r) < EventOf(d, s))
  }

  ghost predicate IsAcceptedSequence(d: Device, sequence: int) {
    exists r :: Accepted(d, r) && SequenceOf(d, r) == sequence
  }

  /** `start` is the sequence the device was enrolled with. */
  ghost predicate LastIsLargest(d: Device, start: int) {
    && (forall r :: Accepted(d, r) ==> start < SequenceOf(d, r) <= d.lastSequence)
    && (d.lastSequence == start || IsAcceptedSequence(d, d.lastSequence))
  }

  /** The step of an accepted receipt reaches back to the acceptance before it, or to the start, skipping none. */
  ghost predicate ReachesBack(d: Device, start: int, requestId: string)
    requires Accepted(d, requestId)
  {
    var sequence, step := SequenceOf(d, requestId), d.receipts[requestId].step;
    && 1 <= step
    && (sequence - step == start || IsAcceptedSequence(d, sequence - step))
    && forall s :: Accepted(d, s) ==> SequenceOf(d, s) <= sequence - step || sequence <= SequenceOf(d, s)
  }

  ghost predicate StepsReachBack(d: Device, start: int) {
    forall r :: Accepted(d, r) ==> ReachesBack(d, start, r)
  }

  /** What holds in every reachable state. */
  ghost predicate Inv(d: Device, start: int) {
    && ReceiptsPointAtEvents(d) && EventsHaveReceipts(d) && SequencesFollowEvents(d) && LastIsLargest(d, start)
    && StepsReachBack(d, start)
  }

  lemma InitialInv(id: string, start: int, events: seq<Event>)
    requires forall i :: 0 <= i < |events| ==> IsForeign(id, events[i].key)
    ensures Inv(Device(id, start, map[], events), start)
  {
  }

  lemma OwnKey(deviceId: string, kind: Kind, requestId: string, r: string)
    ensures IsKeyOf(deviceId, r, KeyOf(kind, deviceId, requestId)) <==> r == requestId
  {
    if IsKeyOf(deviceId, r, KeyOf(kind, deviceId, requestId)) {
      var k :| KeyOf(k, deviceId, r) == KeyOf(kind, deviceId, requestId);
      KeysAreInjective(k, deviceId, r, kind, deviceId, requestId);
    }
  }

  lemma ForeignKeyIsNotOwn(deviceId: string, key: string, r: string)
    requires IsForeign(deviceId, key)
    ensures !IsKeyOf(deviceId, r, key)
  {
  }

  lemma StoredRowHasAReceipt(d: Device, start: int, employee: string, kind: Kind, requestId: string, i: nat)
    requires Inv(d, start) && IsStored(d.events, employee, KeyOf(kind, d.id, requestId), i)
    ensures Accepted(d, requestId) && EventOf(d, requestId) == i
  {
    hide KeyOf, IsKeyOf;
    OwnKey(d.id, kind, requestId, requestId);
    assert IsKeyOf(d.id, requestId, d.events[i].key);
  }

  /** A fresh request finds no row under its key, so it is never recorded as a duplicate. */
  lemma FreshReceiptIsNeverADuplicate(d: Device, start: int, q: Request, w: World, found: Option<nat>)
    requires Inv(d, start) && q.requestId !in d.receipts
    requires IsLookup(d, q, w, found)
    ensures found == None
  {
    hide Inv, KeyOf, IsStored;
    if found.Some? {
      StoredRowHasAReceipt(d, start, w.employee.value, q.kind, q.requestId, found.value);
    }
  }

  // ---------------------------------------------------------------------------
  // What a request is answered, and what it leaves
  // ---------------------------------------------------------------------------

  /** The one type a punch can be recorded with: the one it names; a card that names none takes the one the day
      decides. */
  predicate IsTypeFor(q: Request, w: World, t: EventType) {
    q.eventType == Some(t) || (q.kind == ByCard && q.eventType == None && w.cardPunch == Some(t))
  }

  /** The row of a request, under its own key and of its own type, for the employee and the date it was resolved to. */
  ghost predicate IsRowFor(d: Device, q: Request, w: World, e: Event) {
    && w.employee == Some(e.employee) && e.key == KeyOf(q.kind, d.id, q.requestId)
    && IsTypeFor(q, w, e.eventType) && w.recording == Allowed(e.businessDate)
  }

  ghost predicate HasAType(q: Request, w: World) {
    exists t :: IsTypeFor(q, w, t)
  }

  /** Which answer a request gets that no receipt knows, the first reason that applies: its authenticity and time, its
      number, its subject, its type, and what the day says. */
  ghost predicate IsAnswerTo(d: Device, q: Request, w: World, a: Answer) {
    if !w.authentic then a == Unauthenticated
    else if !w.timeAccepted then a == InvalidTime
    else if q.sequence <= d.lastSequence then a == Denied(SequenceReplay)
    else if w.employee == None then a == Denied(UnknownSubject)
    else if !HasAType(q, w) || w.recording == Conflict then a == Denied(PunchRejected)
    else if w.recording == Missing then a == NotFound
    else a.Ok? && a.created && a.step == q.sequence - d.lastSequence && a.skew == w.skew
  }

  lemma TypeIsFor(q: Request, w: World)
    ensures forall t :: IsTypeFor(q, w, t) <==> TypeOf(q, w) == Some(t)
    ensures HasAType(q, w) <==> TypeOf(q, w).Some?
  {
    if TypeOf(q, w).Some? { assert IsTypeFor(q, w, TypeOf(q, w).value); }
  }

  /** What an accepted request left: one row, the last, and a receipt that names it. */
  ghost predicate IsRecorded(d: Device, q: Request, w: World, d': Device, recorded: Recorded) {
    && |d'.events| == |d.events| + 1 && d.events <= d'.events && IsRowFor(d, q, w, d'.events[|d.events|])
    && recorded.eventIndex == |d.events|
    && recorded.eventType == d'.events[|d.events|].eventType
    && recorded.businessDate == d'.events[|d.events|].businessDate
    && d'.lastSequence == q.sequence
  }

  /** What a request that no receipt knows is answered and leaves. Only one that is accepted moves the number or adds a
      row; only an accepted one and a refused one leave a receipt, their own, and it holds the answer. The step of an
      accepted one is 1 when its number was the expected one, and otherwise one more than were passed over. */
  lemma FreshAnswerIs(d: Device, start: int, q: Request, w: World, found: Option<nat>)
    requires Inv(d, start) && IsLookup(d, q, w, found) && q.requestId !in d.receipts
    ensures var (d', a) := Handle(d, q, w, found);
            && IsAnswerTo(d, q, w, a)
            && (if a.Ok? then IsRecorded(d, q, w, d', a.recorded)
                else d'.lastSequence == d.lastSequence && d'.events == d.events)
            && (if a.Ok? || a.Denied? then
                  && d'.receipts.Keys == d.receipts.Keys + {q.requestId}
                  && (forall r :: r in d.receipts ==> d'.receipts[r] == d.receipts[r])
                  && d'.receipts[q.requestId].sequence == q.sequence
                  && d'.receipts[q.requestId].step == q.sequence - d.lastSequence
                  && d'.receipts[q.requestId].skew == w.skew && !d'.receipts[q.requestId].duplicate
                  && d'.receipts[q.requestId].result == if a.Ok? then Took(a.recorded) else Refused(a.reason)
                else d' == d)
            && (a.Ok? ==> 1 <= a.step && (a.step == 1 <==> EvaluateSequence(d.lastSequence, q.sequence) == Expected))
  {
    FreshReceiptIsNeverADuplicate(d, start, q, w, found);
    TypeIsFor(q, w);
    hide Inv, IsLookup, KeyOf, TypeOf, IsTypeFor;
  }

  // ---------------------------------------------------------------------------
  // Each kind of change keeps the invariant
  // ---------------------------------------------------------------------------

  /** `d'` has the same accepted requests as `d`, and no row of this device that `d` does not have. */
  ghost predicate SameAcceptances(d: Device, d': Device) {
    && d'.id == d.id && d'.lastSequence == d.lastSequence && d.events <= d'.events
    && (forall r :: Accepted(d', r) <==> Accepted(d, r))
    && (forall r :: Accepted(d, r) ==> d'.receipts[r] == d.receipts[r])
    && (forall i: nat, r :: |d.events| <= i < |d'.events| ==> !IsKeyOf(d.id, r, d'.events[i].key))
  }

  lemma SameAcceptancesKeepInv(d: Device, d': Device, start: int)
    requires Inv(d, start) && SameAcceptances(d, d')
    ensures Inv(d', start)
  {
    hide ReceiptsPointAtEvents, EventsHaveReceipts, StepsReachBack, SameAcceptances, LastIsLargest,
      SequencesFollowEvents;
    SameRows(d, d');
    SameSequences(d, d', start);
    SameAcceptancesReachBack(d, d', start);
  }

  lemma SameRows(d: Device, d': Device)
    requires ReceiptsPointAtEvents(d) && EventsHaveReceipts(d) && SequencesFollowEvents(d) && SameAcceptances(d, d')
    ensures ReceiptsPointAtEvents(d') && EventsHaveReceipts(d') && SequencesFollowEvents(d')
  {
    hide KeyOf, IsKeyOf;
    assert ReceiptsPointAtEvents(d') by {
      forall r | Accepted(d', r) ensures PointsAtItsEvent(d', r) { assert PointsAtItsEvent(d, r); }
    }
    assert EventsHaveReceipts(d') by {
      forall i: nat, r | i < |d'.events| && IsKeyOf(d'.id, r, d'.events[i].key)
        ensures Accepted(d', r) && EventOf(d', r) == i
      {
        assert i < |d.events| && d'.events[i] == d.events[i];
      }
    }
  }

  /** The same acceptances have the same sequences and steps. */
  lemma SameAccepted(d: Device, d': Device)
    requires SameAcceptances(d, d')
    ensures forall r :: Accepted(d', r) <==> Accepted(d, r)
    ensures forall r :: Accepted(d, r) ==>
            SequenceOf(d', r) == SequenceOf(d, r) && d'.receipts[r].step == d.receipts[r].step
    ensures forall x :: IsAcceptedSequence(d, x) ==> IsAcceptedSequence(d', x)
    ensures d'.lastSequence == d.lastSequence
  {
    hide IsKeyOf;
    forall x | IsAcceptedSequence(d, x) ensures IsAcceptedSequence(d', x) {
      var r :| Accepted(d, r) && SequenceOf(d, r) == x;
      assert Accepted(d', r) && SequenceOf(d', r) == x;
    }
  }

  lemma SameSequences(d: Device, d': Device, start: int)
    requires LastIsLargest(d, start) && SameAcceptances(d, d')
    ensures LastIsLargest(d', start)
  {
    SameAccepted(d, d');
    hide SameAcceptances, Accepted, SequenceOf, IsAcceptedSequence;
  }

  lemma SameAcceptanceReachesBack(d: Device, d': Device, start: int, r: string)
    requires SameAcceptances(d, d') && Accepted(d, r) && ReachesBack(d, start, r)
    ensures Accepted(d', r) && ReachesBack(d', start, r)
  {
    SameAccepted(d, d');
    hide SameAcceptances, IsAcceptedSequence;
    var sequence, step := SequenceOf(d, r), d.receipts[r].step;
    forall s | Accepted(d', s) ensures SequenceOf(d', s) <= sequence - step || sequence <= SequenceOf(d', s) {
      assert Accepted(d, s) && SequenceOf(d', s) == SequenceOf(d, s);
    }
  }

  lemma SameAcceptancesReachBack(d: Device, d': Device, start: int)
    requires StepsReachBack(d, start) && SameAcceptances(d, d')
    ensures StepsReachBack(d', start)
  {
    forall r | Accepted(d', r) ensures ReachesBack(d', start, r) {
      assert Accepted(d, r) by { SameAccepted(d, d'); }
      hide SameAcceptances, Accepted, ReachesBack;
      SameAcceptanceReachesBack(d, d', start, r);
    }
  }

  lemma RefusalKeepsAcceptances(d: Device, q: Request, w: World, reason: Reason)
    requires q.requestId !in d.receipts
    ensures SameAcceptances(d, Reject(d, q, w, reason).0)
  {
    hide KeyOf, IsKeyOf;
  }

  /** A row from any other source leaves the acceptances as they are. */
  lemma ForeignEventKeepsAcceptances(d: Device, e: Event)
    requires IsForeign(d.id, e.key)
    ensures SameAcceptances(d, d.(events := d.events + [e]))
  {
    hide IsKeyOf, IsForeign;
    forall r ensures !IsKeyOf(d.id, r, e.key) { ForeignKeyIsNotOwn(d.id, e.key, r); }
  }

  /** `d'` accepted one more request, `q`, with one more row. */
  ghost predicate OneMoreAcceptance(d: Device, d': Device, requestId: string) {
    && d'.id == d.id && |d'.events| == |d.events| + 1 && d.events <= d'.events
    && !Accepted(d, requestId) && Accepted(d', requestId) && PointsAtItsEvent(d', requestId)
    && (forall r :: Accepted(d', r) <==> Accepted(d, r) || r == requestId)
    && (forall r :: Accepted(d, r) ==> d'.receipts[r] == d.receipts[r])
    && (forall r :: IsKeyOf(d.id, r, d'.events[|d.events|].key) ==> r == requestId)
    && d.lastSequence < d'.lastSequence == SequenceOf(d', requestId)
    && EventOf(d', requestId) == |d.events|
    && d'.receipts[requestId].step == d'.lastSequence - d.lastSequence
  }

  /** The old acceptances have the sequences and steps they had; the new one has its own. */
  lemma OneMoreAccepted(d: Device, d': Device, requestId: string)
    requires OneMoreAcceptance(d, d', requestId)
    ensures forall r :: Accepted(d', r) <==> Accepted(d, r) || r == requestId
    ensures forall r :: Accepted(d, r) ==>
            SequenceOf(d', r) == SequenceOf(d, r) && d'.receipts[r].step == d.receipts[r].step
    ensures forall x :: IsAcceptedSequence(d, x) ==> IsAcceptedSequence(d', x)
    ensures SequenceOf(d', requestId) == d'.lastSequence > d.lastSequence && IsAcceptedSequence(d', d'.lastSequence)
    ensures d'.receipts[requestId].step == d'.lastSequence - d.lastSequence
  {
    hide IsKeyOf, PointsAtItsEvent;
    forall x | IsAcceptedSequence(d, x) ensures IsAcceptedSequence(d', x) {
      var r :| Accepted(d, r) && SequenceOf(d, r) == x;
      assert Accepted(d', r) && SequenceOf(d', r) == x;
    }
    assert Accepted(d', requestId) && SequenceOf(d', requestId) == d'.lastSequence;
  }

  lemma NewAcceptanceReachesBack(d: Device, d': Device, requestId: string, start: int)
    requires LastIsLargest(d, start) && OneMoreAcceptance(d, d', requestId)
    ensures ReachesBack(d', start, requestId) && LastIsLargest(d', start)
  {
    OneMoreAccepted(d, d', requestId);
    hide OneMoreAcceptance, IsAcceptedSequence;
  }

  lemma OldAcceptanceReachesBack(d: Device, d': Device, requestId: string, start: int, r: string)
    requires LastIsLargest(d, start) && OneMoreAcceptance(d, d', requestId)
    requires Accepted(d, r) && ReachesBack(d, start, r)
    ensures Accepted(d', r) && ReachesBack(d', start, r)
  {
    OneMoreAccepted(d, d', requestId);
    hide OneMoreAcceptance, IsAcceptedSequence;
  }

  lemma OneMoreAcceptanceReachesBack(d: Device, d': Device, requestId: string, start: int)
    requires LastIsLargest(d, start) && StepsReachBack(d, start) && OneMoreAcceptance(d, d', requestId)
    ensures StepsReachBack(d', start) && LastIsLargest(d', start)
  {
    OneMoreAccepted(d, d', requestId);
    hide OneMoreAcceptance, Accepted, SequenceOf, IsAcceptedSequence, ReachesBack, LastIsLargest;
    NewAcceptanceReachesBack(d, d', requestId, start);
    forall r | Accepted(d', r) ensures ReachesBack(d', start, r) {
      if r != requestId { OldAcceptanceReachesBack(d, d', requestId, start, r); }
    }
  }

  lemma OneMoreRow(d: Device, d': Device, requestId: string, start: int)
    requires ReceiptsPointAtEvents(d) && EventsHaveReceipts(d) && SequencesFollowEvents(d) && LastIsLargest(d, start)
    requires OneMoreAcceptance(d, d', requestId)
    ensures ReceiptsPointAtEvents(d') && EventsHaveReceipts(d') && SequencesFollowEvents(d')
  {
    hide KeyOf, IsKeyOf, IsAcceptedSequence;
    forall r | Accepted(d, r)
      ensures PointsAtItsEvent(d', r) && EventOf(d', r) == EventOf(d, r) < |d.events|
    {
      assert PointsAtItsEvent(d, r);
    }
    assert EventsHaveReceipts(d') by {
      forall i: nat, r | i < |d'.events| && IsKeyOf(d'.id, r, d'.events[i].key)
        ensures Accepted(d', r) && EventOf(d', r) == i
      {
        if i < |d.events| { assert d'.events[i] == d.events[i]; }
      }
    }
  }

  lemma OneMoreAcceptanceKeepsInv(d: Device, d': Device, requestId: string, start: int)
    requires Inv(d, start) && OneMoreAcceptance(d, d', requestId)
    ensures Inv(d', start)
  {
    hide ReceiptsPointAtEvents, EventsHaveReceipts, StepsReachBack, OneMoreAcceptance, LastIsLargest,
      SequencesFollowEvents;
    OneMoreRow(d, d', requestId, start);
    OneMoreAcceptanceReachesBack(d, d', requestId, start);
  }

  lemma TakeIsOneMoreAcceptance(d: Device, q: Request, w: World, e: Event)
    requires q.requestId !in d.receipts && d.lastSequence < q.sequence
    requires e.key == KeyOf(q.kind, d.id, q.requestId)
    ensures OneMoreAcceptance(d,
              Take(d, q, w, Recorded(|d.events|, e.eventType, e.businessDate), true, d.events + [e]).0, q.requestId)
  {
    hide KeyOf, IsKeyOf;
    forall r ensures IsKeyOf(d.id, r, e.key) <==> r == q.requestId { OwnKey(d.id, q.kind, q.requestId, r); }
  }

  /** What no step changes: a stored receipt, a stored row, the device's name; and the sequence only grows. */
  ghost predicate Extends(d: Device, d': Device) {
    && d'.id == d.id && d.lastSequence <= d'.lastSequence && d.events <= d'.events
    && (forall r :: r in d.receipts ==> r in d'.receipts && d'.receipts[r] == d.receipts[r])
  }

  /** Every transaction keeps the invariant and changes neither a stored receipt nor a stored row. */
  lemma HandleKeepsInv(d: Device, start: int, q: Request, w: World, found: Option<nat>)
    requires Inv(d, start) && IsLookup(d, q, w, found)
    ensures Inv(Handle(d, q, w, found).0, start) && Extends(d, Handle(d, q, w, found).0)
  {
    var d' := Handle(d, q, w, found).0;
    hide Inv, IsLookup, SameAcceptances, OneMoreAcceptance, KeyOf;
    if d' == d { return; }
    FreshReceiptIsNeverADuplicate(d, start, q, w, found);
    if Accepted(d', q.requestId) {
      TakeIsOneMoreAcceptance(d, q, w, d'.events[|d.events|]);
      OneMoreAcceptanceKeepsInv(d, d', q.requestId, start);
    } else {
      RefusalKeepsAcceptances(d, q, w, d'.receipts[q.requestId].result.reason);
      SameAcceptancesKeepInv(d, d', start);
    }
  }

  /** The two tables name each other: an accepted request has exactly one row, each row of this
      device belongs to exactly one accepted request, and rows appear in the order of the sequences. */
  lemma AcceptedReceiptsAndEventsCorrespond(d: Device, start: int)
    requires Inv(d, start)
    ensures forall r :: Accepted(d, r) ==> EventOf(d, r) < |d.events| && !d.receipts[r].duplicate
    ensures forall r, i: nat :: Accepted(d, r) && i < |d.events| ==>
              (IsKeyOf(d.id, r, d.events[i].key) <==> i == EventOf(d, r))
    ensures forall i: nat, r :: i < |d.events| && IsKeyOf(d.id, r, d.events[i].key) ==> Accepted(d, r)
    ensures forall r, s :: Accepted(d, r) && Accepted(d, s) ==>
              (SequenceOf(d, r) < SequenceOf(d, s) <==> EventOf(d, r) < EventOf(d, s))
    ensures forall r, s :: Accepted(d, r) && Accepted(d, s) && SequenceOf(d, r) == SequenceOf(d, s) ==> r == s
    ensures forall r :: Accepted(d, r) ==> start < SequenceOf(d, r) <= d.lastSequence
    ensures d.lastSequence == start || IsAcceptedSequence(d, d.lastSequence)
    ensures forall r :: Accepted(d, r) ==> ReachesBack(d, start, r)
  {
    hide KeyOf, IsKeyOf, ReachesBack;
    forall r | Accepted(d, r)
      ensures EventOf(d, r) < |d.events| && IsKeyOf(d.id, r, d.events[EventOf(d, r)].key) && !d.receipts[r].duplicate
    {
      assert PointsAtItsEvent(d, r);
    }
    forall r, s | Accepted(d, r) && Accepted(d, s) && SequenceOf(d, r) == SequenceOf(d, s) ensures r == s {
      assert EventOf(d, r) == EventOf(d, s);
      KeyNamesOneRequest(d.id, d.events[EventOf(d, r)].key, r, s);
    }
  }

  lemma KeyNamesOneRequest(deviceId: string, key: string, r: string, s: string)
    requires IsKeyOf(deviceId, r, key) && IsKeyOf(deviceId, s, key)
    ensures r == s
  {
    var k :| key == KeyOf(k, deviceId, r);
    OwnKey(deviceId, k, r, s);
  }

  // ---------------------------------------------------------------------------
  // Runs, and what a resend is told
  // ---------------------------------------------------------------------------

  datatype Step = Deliver(q: Request, w: World, found: Option<nat>) | Elsewhere(e: Event)

  ghost predicate Enabled(d: Device, step: Step) {
    match step
    case Deliver(q, w, found) => IsLookup(d, q, w, found)
    case Elsewhere(e) => IsForeign(d.id, e.key)
  }

  function Next(d: Device, step: Step): Device
    requires step.Deliver? && step.found.Some? ==> step.found.value < |d.events|
  {
    match step
    case Deliver(q, w, found) => Handle(d, q, w, found).0
    case Elsewhere(e) => d.(events := d.events + [e])
  }

  ghost predicate IsStep(d: Device, step: Step, d': Device) {
    Enabled(d, step) && d' == Next(d, step)
  }

  lemma StepKeepsInv(d: Device, step: Step, d': Device, start: int)
    requires Inv(d, start) && IsStep(d, step, d')
    ensures Inv(d', start) && Extends(d, d')
  {
    hide Inv, Handle, IsLookup, IsForeign, SameAcceptances;
    match step {
      case Deliver(q, w, found) => HandleKeepsInv(d, start, q, w, found);
      case Elsewhere(e) =>
        ForeignEventKeepsAcceptances(d, e);
        SameAcceptancesKeepInv(d, d', start);
    }
  }

  ghost predicate IsRun(states: seq<Device>, steps: seq<Step>) {
    && |states| == |steps| + 1
    && forall i :: 0 <= i < |steps| ==> IsStep(states[i], steps[i], states[i + 1])
  }

  /** Any run of requests, resends and rows from elsewhere, in any order. */
  lemma {:induction false} RunKeepsReceipts(states: seq<Device>, steps: seq<Step>, start: int)
    requires IsRun(states, steps) && Inv(states[0], start)
    ensures Inv(states[|steps|], start) && Extends(states[0], states[|steps|])
    decreases |steps|
  {
    hide Inv, IsStep;
    if steps != [] {
      var n := |steps| - 1;
      RunKeepsReceipts(states[..n + 1], steps[..n], start);
      StepKeepsInv(states[n], steps[n], states[n + 1], start);
    }
  }

  /** The answer to a resend of a request that was first answered with `a`. */
  function Resent(a: Answer): Answer
    requires a.Ok? || a.Denied?
  {
    match a
    case Ok(_, recorded, step, skew) => Ok(false, recorded, step, skew)
    case Denied(reason) => Denied(reason)
  }

  lemma FirstAnswerIsStored(d: Device, q: Request, w: World, found: Option<nat>)
    requires IsLookup(d, q, w, found)
    requires var a := Handle(d, q, w, found).1; a.Ok? || a.Denied?
    ensures var (d', a) := Handle(d, q, w, found);
            q.requestId in d'.receipts && Replayed(d'.receipts[q.requestId]) == Resent(a)
  {
  }

  /** Whatever happens in between, a request id that was once accepted or refused is answered
      the same way again: the same rejection, or the same event, type, date and sequence step. */
  lemma ResendIsDeterministic(
    d: Device, q: Request, w: World, found: Option<nat>,
    states: seq<Device>, steps: seq<Step>, start: int,
    again: Request, w': World, found': Option<nat>)
    requires Inv(d, start) && IsLookup(d, q, w, found)
    requires IsRun(states, steps) && states[0] == Handle(d, q, w, found).0
    requires again.requestId == q.requestId && w'.authentic && w'.timeAccepted
    requires found'.Some? ==> found'.value < |states[|steps|].events|
    requires var a := Handle(d, q, w, found).1; a.Ok? || a.Denied?
    ensures Handle(states[|steps|], again, w', found') ==
            (states[|steps|], Resent(Handle(d, q, w, found).1))
  {
    var later := states[|steps|];
    assert Extends(states[0], later) by {
      hide *;
      HandleKeepsInv(d, start, q, w, found);
      RunKeepsReceipts(states, steps, start);
    }
    hide Inv, IsLookup, IsRun, KeyOf;
    FirstAnswerIsStored(d, q, w, found);
    assert q.requestId in states[0].receipts;
  }
}
