/** Interleaved StartTransaction handlers, the transaction-id allocator and the remote-start tracker. */
module TransactionIds {
  import opened Text
  import opened RemoteStart

  /** One StartTransaction handler. It allocates its id and links it in pieces that never suspend; between
      them it waits for the database. */
  datatype Phase =
    | Resolving                 // looking up connector and user
    | Unknown                   // one of them is unknown
    | Allocated(id: int)        // creating the session row
    | Created(id: int)          // about to link
    | Abandoned(id: int)        // the session row could not be created
    | Finished(id: int)         // answered Accepted

  datatype Handler = Handler(target: Target, phase: Phase)

  /** One process: the allocator, its handlers, the tracked records, the next unused UUID and the clock. */
  datatype Process = Process(next: int, handlers: seq<Handler>, tracked: seq<Record>, uuids: nat, clock: int)

  datatype Event =
    | Arrive(target: Target)
    | Advance(index: nat, succeeds: bool, elapsed: nat)
    | RemoteStartAccepted(target: Target, attemptCount: nat, ttlMs: int, elapsed: nat)
    | Lookup(elapsed: nat)

  function HasId(phase: Phase): bool {
    phase.Allocated? || phase.Created? || phase.Abandoned? || phase.Finished?
  }

  /** Payload checks (connector, meter and idTag) come first; a handler that fails them never gets here. */
  function Step(p: Process, e: Event): Process {
    match e
    case Arrive(target) =>
      p.(handlers := p.handlers + [Handler(target, Resolving)])
    case Advance(index, succeeds, elapsed) =>
      if index >= |p.handlers| then p else AdvanceHandler(p, index, succeeds, elapsed)
    case RemoteStartAccepted(target, attemptCount, ttlMs, elapsed) =>
      var now := p.clock + elapsed;
      var record := Record(p.uuids, target, attemptCount, now, now + ttlMs, now, None);
      p.(tracked := Prune(p.tracked, now) + [record], uuids := p.uuids + 1, clock := now)
    case Lookup(elapsed) =>
      p.(tracked := Prune(p.tracked, p.clock + elapsed), clock := p.clock + elapsed)
  }

  function AdvanceHandler(p: Process, index: nat, succeeds: bool, elapsed: nat): Process
    requires index < |p.handlers|
  {
    var h := p.handlers[index];
    match h.phase
    case Resolving =>
      if !succeeds then p.(handlers := p.handlers[index := h.(phase := Unknown)])
      else p.(next := p.next + 1, handlers := p.handlers[index := h.(phase := Allocated(p.next))])
    case Allocated(id) =>
      p.(handlers := p.handlers[index := h.(phase := if succeeds then Created(id) else Abandoned(id))])
    case Created(id) =>
      var now := p.clock + elapsed;
      p.(handlers := p.handlers[index := h.(phase := Finished(id))],
         tracked := Link(p.tracked, h.target, id, now, now).0, clock := now)
    case Unknown => p
    case Abandoned(_) => p
    case Finished(_) => p
  }

  /** A process starts with its allocator at max(1, seconds since the epoch). */
  function Start(epochSeconds: int, clock: int): Process {
    Process(if epochSeconds < 1 then 1 else epochSeconds, [], [], 0, clock)
  }

  function Run(p: Process, events: seq<Event>): Process {
    if events == [] then p else Step(Run(p, events[..|events| - 1]), events[|events| - 1])
  }

  // ----- the invariant -----

  predicate IdsOk(p: Process) {
    && 1 <= p.next
    && (forall i :: 0 <= i < |p.handlers| && HasId(p.handlers[i].phase) ==> 1 <= p.handlers[i].phase.id < p.next)
    && (forall i, j :: 0 <= i < j < |p.handlers| && HasId(p.handlers[i].phase) && HasId(p.handlers[j].phase) ==>
         p.handlers[i].phase.id != p.handlers[j].phase.id)
  }

  /** Tracked ids are fresh UUIDs in order, and each linked transaction id is below the allocator, on one
      record only, and not that of a handler that has still to link. */
  predicate RecordsOk(p: Process) {
    && Distinct(p.tracked)
    && (forall j :: 0 <= j < |p.tracked| ==> p.tracked[j].id < p.uuids)
    && (forall j :: 0 <= j < |p.tracked| && p.tracked[j].transactionId.Some? ==>
        1 <= p.tracked[j].transactionId.value < p.next)
    && OneRecordPerId(p.tracked)
    && (forall i, j :: 0 <= i < |p.handlers| && 0 <= j < |p.tracked| && StillToLink(p.handlers[i].phase) ==>
         p.tracked[j].transactionId != Some(p.handlers[i].phase.id))
  }

  predicate StillToLink(phase: Phase) {
    phase.Allocated? || phase.Created?
  }

  predicate OneRecordPerId(records: seq<Record>) {
    forall j, k :: 0 <= j < k < |records| && records[j].transactionId.Some? ==>
      records[j].transactionId != records[k].transactionId
  }

  predicate Invariant(p: Process) {
    IdsOk(p) && RecordsOk(p)
  }

  /** Every record kept by `after` stood in `before`, in the same order. */
  lemma PruneIsSubsequence(records: seq<Record>, now: int)
    requires Distinct(records) && OneRecordPerId(records)
    ensures var kept := Prune(records, now);
      && Distinct(kept) && OneRecordPerId(kept)
      && forall j :: 0 <= j < |kept| ==> kept[j] in records
  {
    PruneDistinct(records, now);
    PruneSubset(records, now);
    var kept := Prune(records, now);
    forall j, k | 0 <= j < k < |kept| && kept[j].transactionId.Some?
      ensures kept[j].transactionId != kept[k].transactionId
    {
      assert kept[j] in kept && kept[k] in kept;
      var a :| 0 <= a < |records| && records[a] == kept[j];
      var b :| 0 <= b < |records| && records[b] == kept[k];
      if a < b { assert records[a].id != records[b].id; } else if b < a { assert records[b].id != records[a].id; }
    }
  }

  lemma PruneKeepsRecordsOk(p: Process, now: int)
    requires RecordsOk(p)
    ensures RecordsOk(p.(tracked := Prune(p.tracked, now)))
  {
    PruneIsSubsequence(p.tracked, now);
  }

  function AfterLink(p: Process, index: nat, tracked: seq<Record>): Process
    requires index < |p.handlers| && p.handlers[index].phase.Created?
  {
    var h := p.handlers[index];
    p.(handlers := p.handlers[index := h.(phase := Finished(h.phase.id))], tracked := tracked)
  }

  lemma FinishKeepsInvariant(p: Process, index: nat)
    requires Invariant(p) && index < |p.handlers| && p.handlers[index].phase.Created?
    ensures Invariant(AfterLink(p, index, p.tracked))
  {}

  /** Writing the handler's id on one unlinked record. */
  lemma WritingIdKeepsInvariant(p: Process, index: nat, r: Record, now: int)
    requires Invariant(p) && index < |p.handlers| && p.handlers[index].phase.Created?
    requires r in p.tracked && r.transactionId.None?
    ensures Invariant(AfterLink(p, index, Put(p.tracked, Linked(r, p.handlers[index].phase.id, now))))
  {
    FinishKeepsInvariant(p, index);
    var id := p.handlers[index].phase.id;
    var linked := Linked(r, id, now);
    var k := Position(p.tracked, r.id);
    var tracked := Put(p.tracked, linked);
    assert k < |p.tracked| && tracked == p.tracked[k := linked];
    PutKeepsDistinct(p.tracked, linked);
    assert forall j :: 0 <= j < |p.tracked| ==> p.tracked[j].transactionId != Some(id);
    assert OneRecordPerId(tracked);
  }

  /** Linking writes one id, which no record carries yet, on one pending record. */
  lemma LinkKeepsRecordsOk(p: Process, index: nat, now: int)
    requires Invariant(p) && index < |p.handlers| && p.handlers[index].phase.Created?
    ensures var h := p.handlers[index];
      Invariant(AfterLink(p, index, Link(p.tracked, h.target, h.phase.id, now, now).0))
  {
    var h := p.handlers[index];
    var pruned := Prune(p.tracked, now);
    var p' := p.(tracked := pruned);
    PruneKeepsRecordsOk(p, now);
    LatestPendingIn(pruned, h.target);
    var latest := LatestPending(pruned, h.target);
    if latest.Some? {
      WritingIdKeepsInvariant(p', index, latest.value, now);
    } else {
      FinishKeepsInvariant(p', index);
    }
  }

  lemma AcceptKeepsRecordsOk(p: Process, r: Record)
    requires Invariant(p) && r.id == p.uuids && r.transactionId.None?
    ensures Invariant(p.(tracked := p.tracked + [r], uuids := p.uuids + 1))
  {}

  lemma WaitingKeepsInvariant(p: Process, index: nat, succeeds: bool)
    requires Invariant(p) && index < |p.handlers| && !p.handlers[index].phase.Created?
    ensures Invariant(AdvanceHandler(p, index, succeeds, 0))
  {
    var p' := AdvanceHandler(p, index, succeeds, 0);
    var h, h' := p.handlers[index], p'.handlers[index];
    assert HasId(h'.phase) ==> h'.phase.id == p.next || (HasId(h.phase) && h.phase.id == h'.phase.id);
    assert StillToLink(h'.phase) ==> h'.phase.id == p.next || (StillToLink(h.phase) && h.phase.id == h'.phase.id);
    assert IdsOk(p');
    assert RecordsOk(p');
  }

  lemma ArriveKeepsInvariant(p: Process, target: Target)
    requires Invariant(p)
    ensures Invariant(p.(handlers := p.handlers + [Handler(target, Resolving)]))
  {}

  lemma RemoteStartKeepsInvariant(p: Process, e: Event)
    requires Invariant(p) && e.RemoteStartAccepted?
    ensures Invariant(Step(p, e))
  {
    var now := p.clock + e.elapsed;
    PruneKeepsRecordsOk(p, now);
    AcceptKeepsRecordsOk(p.(tracked := Prune(p.tracked, now)),
                         Record(p.uuids, e.target, e.attemptCount, now, now + e.ttlMs, now, None));
  }

  lemma AnyClockKeepsInvariant(p: Process, now: int)
    requires Invariant(p)
    ensures Invariant(p.(clock := now))
  {}

  lemma AdvanceKeepsInvariant(p: Process, index: nat, succeeds: bool, elapsed: nat)
    requires Invariant(p) && index < |p.handlers|
    ensures Invariant(AdvanceHandler(p, index, succeeds, elapsed))
  {
    var h, now := p.handlers[index], p.clock + elapsed;
    if h.phase.Created? {
      var linked := AfterLink(p, index, Link(p.tracked, h.target, h.phase.id, now, now).0);
      LinkKeepsRecordsOk(p, index, now);
      AnyClockKeepsInvariant(linked, now);
      assert AdvanceHandler(p, index, succeeds, elapsed) == linked.(clock := now);
    } else {
      assert AdvanceHandler(p, index, succeeds, elapsed) == AdvanceHandler(p, index, succeeds, 0);
      WaitingKeepsInvariant(p, index, succeeds);
    }
  }

  lemma StepKeepsInvariant(p: Process, e: Event)
    requires Invariant(p)
    ensures Invariant(Step(p, e))
  {
    match e
    case Arrive(target) => ArriveKeepsInvariant(p, target);
    case Lookup(elapsed) => PruneKeepsRecordsOk(p, p.clock + elapsed);
    case RemoteStartAccepted(_, _, _, _) => RemoteStartKeepsInvariant(p, e);
    case Advance(index, succeeds, elapsed) =>
      if index < |p.handlers| {
        AdvanceKeepsInvariant(p, index, succeeds, elapsed);
      }
  }

  lemma {:induction false} RunKeepsInvariant(p: Process, events: seq<Event>)
    requires Invariant(p)
    ensures Invariant(Run(p, events))
  {
    if events != [] {
      RunKeepsInvariant(p, events[..|events| - 1]);
      StepKeepsInvariant(Run(p, events[..|events| - 1]), events[|events| - 1]);
    }
  }

  // ----- what each event does, in terms of the process -----

  /** A process starts with no handlers and no records, and with an id of at least 1. */
  lemma StartsWith(epochSeconds: int, clock: int)
    ensures Start(epochSeconds, clock)
         == Process(if 1 <= epochSeconds then epochSeconds else 1, [], [], 0, clock)
  {}

  /** An accepted remote start is tracked last, under a new id, from now until its lifetime has passed, once the
      expired records are gone. */
  lemma AcceptedIsTracked(p: Process, e: Event)
    requires e.RemoteStartAccepted?
    ensures var p', now := Step(p, e), p.clock + e.elapsed;
      && p'.tracked
         == Prune(p.tracked, now) + [Record(p.uuids, e.target, e.attemptCount, now, now + e.ttlMs, now, None)]
      && p'.uuids == p.uuids + 1 && p'.clock == now && p'.next == p.next && p'.handlers == p.handlers
  {}

  /** A lookup drops what has expired by its time, and a new handler starts behind the others; neither does more. */
  lemma LookupPrunes(p: Process, elapsed: nat, target: Target)
    ensures Step(p, Lookup(elapsed))
         == p.(tracked := Prune(p.tracked, p.clock + elapsed), clock := p.clock + elapsed)
    ensures Step(p, Arrive(target)) == p.(handlers := p.handlers + [Handler(target, Resolving)])
  {}

  /** A handler whose connector and user are known takes the allocator's id, and the allocator moves on by one; it
      then creates its session or is abandoned, and after that links its id. */
  lemma HandlerTakesNextId(p: Process, index: nat, succeeds: bool, elapsed: nat)
    requires index < |p.handlers|
    ensures var h, p' := p.handlers[index], Step(p, Advance(index, succeeds, elapsed));
      && |p'.handlers| == |p.handlers|
      && (forall i :: 0 <= i < |p.handlers| && i != index ==> p'.handlers[i] == p.handlers[i])
      && p'.handlers[index].target == h.target && p'.uuids == p.uuids
      && (h.phase == Resolving && succeeds ==>
           p'.handlers[index].phase == Allocated(p.next) && p'.next == p.next + 1 && p'.tracked == p.tracked)
      && (h.phase == Resolving && !succeeds ==>
           p'.handlers[index].phase == Unknown && p'.next == p.next && p'.tracked == p.tracked)
      && (h.phase.Allocated? ==>
           && p'.handlers[index].phase == (if succeeds then Created(h.phase.id) else Abandoned(h.phase.id))
           && p'.next == p.next && p'.tracked == p.tracked)
      && (h.phase.Created? ==>
           && p'.handlers[index].phase == Finished(h.phase.id) && p'.next == p.next
           && p'.clock == p.clock + elapsed
           && p'.tracked == Link(p.tracked, h.target, h.phase.id, p.clock + elapsed, p.clock + elapsed).0)
      && (h.phase.Unknown? || h.phase.Abandoned? || h.phase.Finished? ==> p' == p)
  {}

  // ----- main results -----

  /** In every interleaving the allocated ids are positive and pairwise distinct, and no id is on two records. */
  lemma IdsAreUnique(epochSeconds: int, clock: int, events: seq<Event>)
    ensures var p := Run(Start(epochSeconds, clock), events);
      && (forall i :: 0 <= i < |p.handlers| && HasId(p.handlers[i].phase) ==> 1 <= p.handlers[i].phase.id)
      && (forall i, j :: 0 <= i < j < |p.handlers| && HasId(p.handlers[i].phase) && HasId(p.handlers[j].phase) ==>
           p.handlers[i].phase.id != p.handlers[j].phase.id)
      && OneRecordPerId(p.tracked)
  {
    RunKeepsInvariant(Start(epochSeconds, clock), events);
  }

  /** A linked record stays, with the id it was given, through every later event. */
  lemma LinkIsPermanent(p: Process, e: Event, r: Record)
    requires Distinct(p.tracked) && r in p.tracked && r.transactionId.Some?
    ensures r in Step(p, e).tracked
  {
    var now := p.clock + (if e.Arrive? then 0 else e.elapsed);
    PruneSubset(p.tracked, now);
    if e.Advance? && e.index < |p.handlers| && p.handlers[e.index].phase.Created? {
      LinkKeepsLinked(p.tracked, p.handlers[e.index].target, p.handlers[e.index].phase.id, now, r);
    }
  }

  /** Over whole runs: a record's transaction id never changes once set. */
  lemma {:induction false} LinkOutlivesRuns(p: Process, events: seq<Event>, r: Record)
    requires Invariant(p) && r in p.tracked && r.transactionId.Some?
    ensures r in Run(p, events).tracked
  {
    if events != [] {
      var before := events[..|events| - 1];
      LinkOutlivesRuns(p, before, r);
      RunKeepsInvariant(p, before);
      LinkIsPermanent(Run(p, before), events[|events| - 1], r);
    }
  }

  lemma LinkKeepsLinked(records: seq<Record>, target: Target, id: int, now: int, r: Record)
    requires Distinct(records) && r in records && r.transactionId.Some?
    ensures r in Link(records, target, id, now, now).0
  {
    var pruned := Prune(records, now);
    PruneSubset(records, now);
    PruneDistinct(records, now);
    LatestPendingIn(pruned, target);
    var latest := LatestPending(pruned, target);
    if latest.Some? {
      PutElsewhere(pruned, latest.value, Linked(latest.value, id, now), r);
    }
  }

  lemma PutElsewhere(records: seq<Record>, oldRecord: Record, newRecord: Record, other: Record)
    requires Distinct(records) && oldRecord in records && other in records && other != oldRecord
      && newRecord.id == oldRecord.id
    ensures other in Put(records, newRecord)
  {
    var j :| 0 <= j < |records| && records[j] == other;
    var i :| 0 <= i < |records| && records[i] == oldRecord;
    assert other.id != oldRecord.id by {
      if i < j { assert records[i].id != records[j].id; } else { assert records[j].id != records[i].id; }
    }
    assert Put(records, newRecord)[j] == other;
  }

  /** So a lookup by charge point and transaction id has at most one record to choose from, and sorting the
      candidates by updatedAt decides nothing. */
  lemma LookupIsUnique(epochSeconds: int, clock: int, events: seq<Event>, chargePoint: string, id: int)
    ensures var found := WithTransaction(Run(Start(epochSeconds, clock), events).tracked, chargePoint, id);
      && |found| <= 1
      && MostRecentlyUpdated(found) == (if found == [] then None else Some(found[0]))
      && forall r :: r in Run(Start(epochSeconds, clock), events).tracked ==>
           r.target.chargePoint == chargePoint && r.transactionId == Some(id) ==> found == [r]
  {
    RunKeepsInvariant(Start(epochSeconds, clock), events);
    AtMostOne(Run(Start(epochSeconds, clock), events).tracked, chargePoint, id);
  }

  lemma {:induction false} AtMostOne(records: seq<Record>, chargePoint: string, id: int)
    requires OneRecordPerId(records)
    ensures |WithTransaction(records, chargePoint, id)| <= 1
    ensures forall r :: r in records && HasTransaction(r, chargePoint, id) ==>
      WithTransaction(records, chargePoint, id) == [r]
    ensures forall r :: r in WithTransaction(records, chargePoint, id) ==>
      r in records && HasTransaction(r, chargePoint, id)
  {
    if records != [] {
      var front, last := records[..|records| - 1], records[|records| - 1];
      AtMostOne(front, chargePoint, id);
      assert records == front + [last];
      if HasTransaction(last, chargePoint, id) {
        forall j | 0 <= j < |front| ensures !HasTransaction(front[j], chargePoint, id) {
          assert records[j] == front[j] && records[|front|] == last;
        }
        NoneFound(front, chargePoint, id);
      }
    }
  }

  lemma NoneFound(records: seq<Record>, chargePoint: string, id: int)
    requires forall j :: 0 <= j < |records| ==> !HasTransaction(records[j], chargePoint, id)
    ensures WithTransaction(records, chargePoint, id) == []
  {}
}
