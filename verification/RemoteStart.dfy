/** The in-memory tracker of accepted remote starts: an insertion-ordered map, pruned only when it is used. */
module RemoteStart {
  import opened Text

  const DEFAULT_MAX_ATTEMPTS := 3
  const DEFAULT_RETRY_DELAY_MS := 300
  const DEFAULT_TIMEOUT_MS := 10000
  const DEFAULT_TRACKING_TTL_MS := 300000

  /** Request ids are compared for equality only. */
  type Uuid = nat

  /** What a remote start is matched by. */
  datatype Target = Target(chargePoint: string, connectorId: int, idTag: string)

  /** One tracked request; instants are milliseconds. */
  datatype Record = Record(id: Uuid, target: Target, attemptCount: nat, requestedAt: int, expiresAt: int,
                           updatedAt: int, transactionId: Option<int>)

  // ----- the map as the sequence of its records, in insertion order -----

  /** A record is visible once linked, and before that until its expiry is reached. */
  predicate Visible(r: Record, now: int) {
    r.transactionId.Some? || now < r.expiresAt
  }

  function Prune(records: seq<Record>, now: int): (r: seq<Record>)
    ensures |r| <= |records|
  {
    if records == [] then []
    else
      var last := records[|records| - 1];
      var kept := Prune(records[..|records| - 1], now);
      if Visible(last, now) then kept + [last] else kept
  }

  /** The position of the record with the given id, or the length when there is none. */
  function Position(records: seq<Record>, id: Uuid): (k: nat)
    ensures k <= |records|
    ensures k < |records| ==> records[k].id == id
    ensures forall j :: 0 <= j < k ==> records[j].id != id
  {
    if records == [] || records[0].id == id then 0 else 1 + Position(records[1..], id)
  }

  /** Map.set: an existing key keeps its place, a new one goes last. */
  function Put(records: seq<Record>, r: Record): seq<Record> {
    var k := Position(records, r.id);
    if k < |records| then records[k := r] else records + [r]
  }

  predicate Distinct(records: seq<Record>) {
    forall j, k :: 0 <= j < k < |records| ==> records[j].id != records[k].id
  }

  function FindById(records: seq<Record>, id: Uuid): Option<Record> {
    var k := Position(records, id);
    if k < |records| then Some(records[k]) else None
  }

  predicate Pending(r: Record, target: Target) {
    r.target == target && r.transactionId.None?
  }

  /** The newest pending record for a target. */
  function LatestPending(records: seq<Record>, target: Target): Option<Record> {
    if records == [] then None
    else
      var last := records[|records| - 1];
      if Pending(last, target) then Some(last) else LatestPending(records[..|records| - 1], target)
  }

  predicate HasTransaction(r: Record, chargePoint: string, transactionId: int) {
    r.target.chargePoint == chargePoint && r.transactionId == Some(transactionId)
  }

  function WithTransaction(records: seq<Record>, chargePoint: string, transactionId: int): seq<Record> {
    if records == [] then []
    else
      var last := records[|records| - 1];
      var found := WithTransaction(records[..|records| - 1], chargePoint, transactionId);
      if HasTransaction(last, chargePoint, transactionId) then found + [last] else found
  }

  /** The head of the stable sort by updatedAt, latest first: the first of the most recently updated. */
  function MostRecentlyUpdated(records: seq<Record>): Option<Record> {
    if records == [] then None
    else
      var best := MostRecentlyUpdated(records[..|records| - 1]);
      var last := records[|records| - 1];
      if best.None? || best.value.updatedAt < last.updatedAt then Some(last) else best
  }

  function Linked(r: Record, transactionId: int, at: int): Record {
    r.(transactionId := Some(transactionId), updatedAt := at)
  }

  /** Links the newest visible pending record for a target, when there is one. */
  function Link(records: seq<Record>, target: Target, transactionId: int, now: int, at: int)
    : (seq<Record>, Option<Record>)
  {
    var pruned := Prune(records, now);
    var latest := LatestPending(pruned, target);
    if latest.None? then (pruned, None)
    else
      var updated := Linked(latest.value, transactionId, at);
      (Put(pruned, updated), Some(updated))
  }

  // ----- the specification: a history that forgets nothing -----

  /** The same link on the full history: a hidden record counts as gone but stays where it is. */
  function LinkInHistory(history: seq<Record>, target: Target, transactionId: int, now: int, at: int)
    : (seq<Record>, Option<Record>)
  {
    var latest := LatestPending(Prune(history, now), target);
    if latest.None? then (history, None)
    else
      var updated := Linked(latest.value, transactionId, at);
      (Put(history, updated), Some(updated))
  }

  /** From `clock` on, the pruned map and the full history show the same records at every instant. */
  ghost predicate Refines(tracked: seq<Record>, history: seq<Record>, clock: int) {
    && Distinct(tracked) && Distinct(history)
    && forall t: int {:trigger Prune(tracked, t)} :: clock <= t ==> Prune(tracked, t) == Prune(history, t)
  }

  lemma {:induction false} PruneTwice(records: seq<Record>, t: int, u: int)
    requires t <= u
    ensures Prune(Prune(records, t), u) == Prune(records, u)
  {
    if records != [] {
      var front, last := records[..|records| - 1], records[|records| - 1];
      PruneTwice(front, t, u);
      if Visible(last, t) {
        assert Prune(records, t)[..|Prune(records, t)| - 1] == Prune(front, t);
      }
    }
  }

  lemma PruneAppend(records: seq<Record>, r: Record, t: int)
    ensures Prune(records + [r], t) == if Visible(r, t) then Prune(records, t) + [r] else Prune(records, t)
  {
    assert (records + [r])[..|records|] == records;
  }

  lemma {:induction false} PruneSubset(records: seq<Record>, t: int)
    ensures forall r :: r in Prune(records, t) <==> r in records && Visible(r, t)
  {
    if records != [] {
      var front, last := records[..|records| - 1], records[|records| - 1];
      PruneSubset(front, t);
      assert records == front + [last];
    }
  }

  lemma {:induction false} PruneDistinct(records: seq<Record>, t: int)
    requires Distinct(records)
    ensures Distinct(Prune(records, t))
  {
    if records != [] {
      var front, last := records[..|records| - 1], records[|records| - 1];
      PruneDistinct(front, t);
      PruneSubset(front, t);
      forall r | r in front ensures r.id != last.id {
        var j :| 0 <= j < |front| && front[j] == r;
        assert records[j] == r;
      }
      var kept := Prune(front, t);
      forall j | 0 <= j < |kept| ensures kept[j].id != last.id {
        assert kept[j] in kept;
      }
    }
  }

  /** Linking a visible record commutes with having pruned before. */
  lemma {:induction false} PruneAfterPut(history: seq<Record>, r: Record, updated: Record, t: int, u: int)
    requires Distinct(history) && t <= u
    requires r in history && Visible(r, t)
    requires updated.id == r.id && updated.transactionId.Some?
    ensures Prune(Put(Prune(history, t), updated), u) == Prune(Put(history, updated), u)
  {
    var front, last := history[..|history| - 1], history[|history| - 1];
    assert history == front + [last];
    if last == r {
      PruneAfterPutLast(front, last, updated, t, u);
    } else {
      assert r in front;
      PruneAfterPut(front, r, updated, t, u);
      PruneAfterPutFront(front, last, r, updated, t, u);
    }
  }

  lemma PruneAfterPutLast(front: seq<Record>, last: Record, updated: Record, t: int, u: int)
    requires Distinct(front + [last]) && t <= u && Visible(last, t)
    requires updated.id == last.id && updated.transactionId.Some?
    ensures Prune(Put(Prune(front + [last], t), updated), u) == Prune(Put(front + [last], updated), u)
  {
    var kept := Prune(front, t);
    PruneAppend(front, last, t);
    PruneSubset(front, t);
    forall j | 0 <= j < |front| ensures front[j].id != updated.id {
      assert (front + [last])[j] == front[j] && (front + [last])[|front|] == last;
    }
    forall j | 0 <= j < |kept| ensures kept[j].id != updated.id {
      assert kept[j] in front;
    }
    PutLast(front, last, updated);
    PutLast(kept, last, updated);
    PruneAppend(kept, updated, u);
    PruneAppend(front, updated, u);
    PruneTwice(front, t, u);
  }

  lemma PruneAfterPutFront(front: seq<Record>, last: Record, r: Record, updated: Record, t: int, u: int)
    requires t <= u && r in front && Visible(r, t) && updated.id == r.id
    requires Prune(Put(Prune(front, t), updated), u) == Prune(Put(front, updated), u)
    ensures Prune(Put(Prune(front + [last], t), updated), u) == Prune(Put(front + [last], updated), u)
  {
    var kept := Prune(front, t);
    PruneAppend(front, last, t);
    PutFront(front, last, r, updated);
    PruneAppend(Put(front, updated), last, u);
    if Visible(last, t) {
      PruneSubset(front, t);
      PutFront(kept, last, r, updated);
      PruneAppend(Put(kept, updated), last, u);
    }
  }

  lemma PutLast(front: seq<Record>, last: Record, updated: Record)
    requires forall j :: 0 <= j < |front| ==> front[j].id != updated.id
    requires last.id == updated.id
    ensures Put(front + [last], updated) == front + [updated]
  {
    assert (front + [last])[|front|] == last;
    assert Position(front + [last], updated.id) == |front|;
  }

  lemma PutFront(front: seq<Record>, last: Record, r: Record, updated: Record)
    requires r in front && r.id == updated.id
    ensures Put(front + [last], updated) == Put(front, updated) + [last]
  {
    var j :| 0 <= j < |front| && front[j] == r;
    var k := Position(front, updated.id);
    assert k <= j;
    assert (front + [last])[k].id == updated.id;
    assert forall i :: 0 <= i < k ==> (front + [last])[i].id != updated.id;
    assert Position(front + [last], updated.id) == k;
  }

  lemma {:induction false} LatestPendingIn(records: seq<Record>, target: Target)
    ensures var latest := LatestPending(records, target);
      && (latest.Some? ==> latest.value in records && Pending(latest.value, target))
      && (latest.None? ==> forall r :: r in records ==> !Pending(r, target))
  {
    if records != [] {
      var front, last := records[..|records| - 1], records[|records| - 1];
      assert records == front + [last];
      if !Pending(last, target) {
        LatestPendingIn(front, target);
      }
    }
  }

  lemma PutKeepsDistinct(records: seq<Record>, r: Record)
    requires Distinct(records)
    ensures Distinct(Put(records, r))
  {}

  // ----- each operation keeps the refinement and answers as the history does -----

  lemma PruneRefines(tracked: seq<Record>, history: seq<Record>, clock: int, now: int)
    requires Refines(tracked, history, clock) && clock <= now
    ensures Prune(tracked, now) == Prune(history, now) && Refines(Prune(tracked, now), history, now)
  {
    PruneDistinct(tracked, now);
    forall t: int | now <= t ensures Prune(Prune(tracked, now), t) == Prune(history, t) {
      PruneTwice(tracked, now, t);
    }
  }

  lemma AcceptRefines(tracked: seq<Record>, history: seq<Record>, clock: int, r: Record)
    requires Refines(tracked, history, clock)
    requires forall h :: h in tracked || h in history ==> h.id != r.id
    ensures Put(tracked, r) == tracked + [r]
    ensures Refines(tracked + [r], history + [r], clock)
  {
    forall j | 0 <= j < |history| ensures history[j].id != r.id { assert history[j] in history; }
    forall j | 0 <= j < |tracked| ensures tracked[j].id != r.id { assert tracked[j] in tracked; }
    forall t: int | clock <= t ensures Prune(tracked + [r], t) == Prune(history + [r], t) {
      PruneAppend(tracked, r, t);
      PruneAppend(history, r, t);
    }
  }

  /** Linking in the pruned map does to the history exactly what linking there does, with the same answer. */
  lemma LinkRefines(tracked: seq<Record>, history: seq<Record>, clock: int,
                    target: Target, transactionId: int, now: int, at: int)
    requires Refines(tracked, history, clock) && clock <= now <= at
    ensures var (tracked', answer) := Link(tracked, target, transactionId, now, at);
      var (history', expected) := LinkInHistory(history, target, transactionId, now, at);
      answer == expected && Refines(tracked', history', at)
  {
    PruneRefines(tracked, history, clock, now);
    var pruned := Prune(history, now);
    var latest := LatestPending(pruned, target);
    if latest.Some? {
      var updated := Linked(latest.value, transactionId, at);
      LatestPendingIn(pruned, target);
      PruneSubset(history, now);
      PutKeepsDistinct(pruned, updated);
      PutKeepsDistinct(history, updated);
      forall t: int | at <= t ensures Prune(Put(pruned, updated), t) == Prune(Put(history, updated), t) {
        PruneAfterPut(history, latest.value, updated, now, t);
      }
    }
  }

  /** A record of the charge point, connector and tag that no transaction has yet and that has not expired. */
  predicate CanBeLinked(r: Record, target: Target, now: int) {
    && r.target.chargePoint == target.chargePoint && r.target.connectorId == target.connectorId
    && r.target.idTag == target.idTag && r.transactionId == None && now < r.expiresAt
  }

  predicate IsNewestToLink(history: seq<Record>, k: nat, target: Target, now: int) {
    k < |history| && CanBeLinked(history[k], target, now)
    && forall j :: k < j < |history| ==> !CanBeLinked(history[j], target, now)
  }

  /** A link takes the most recently accepted record that can be linked, if there is one: that record gets the
      id and the instant, and no other record changes. */
  lemma LinkTakesNewest(history: seq<Record>, target: Target, transactionId: int, now: int, at: int, k: nat)
    requires Distinct(history)
    ensures var (history', answer) := LinkInHistory(history, target, transactionId, now, at);
      && (IsNewestToLink(history, k, target, now) ==>
           && answer == Some(history[k].(transactionId := Some(transactionId), updatedAt := at))
           && history' == history[k := answer.value])
      && (answer == None <==> forall j :: 0 <= j < |history| ==> !CanBeLinked(history[j], target, now))
      && (answer == None ==> history' == history)
  {
    NewestVisible(history, target, now);
    assert forall j :: 0 <= j < |history| ==>
      (CanBeLinked(history[j], target, now) <==> Pending(history[j], target) && Visible(history[j], now));
  }

  /** The lookup by request id finds the record with that id, unless it is pending and has expired. */
  lemma LookupById(history: seq<Record>, id: Uuid, now: int, r: Record)
    requires Distinct(history)
    ensures FindById(Prune(history, now), id) == Some(r) <==>
      r in history && r.id == id && (r.transactionId != None || now < r.expiresAt)
  {
    PruneSubset(history, now);
    PruneDistinct(history, now);
    var kept := Prune(history, now);
    if r in kept && r.id == id {
      var k :| 0 <= k < |kept| && kept[k] == r;
    }
  }

  lemma {:induction false} WithTransactionMembers(records: seq<Record>, chargePoint: string, transactionId: int)
    ensures forall r :: r in WithTransaction(records, chargePoint, transactionId) <==>
      r in records && r.target.chargePoint == chargePoint && r.transactionId == Some(transactionId)
  {
    if records != [] {
      var front, last := records[..|records| - 1], records[|records| - 1];
      WithTransactionMembers(front, chargePoint, transactionId);
      assert records == front + [last];
    }
  }

  /** None was updated later, and none of those before it as late. */
  predicate IsMostRecent(records: seq<Record>, k: nat) {
    k < |records| && forall j :: 0 <= j < |records| ==>
      if j < k then records[j].updatedAt < records[k].updatedAt else records[j].updatedAt <= records[k].updatedAt
  }

  lemma {:induction false} MostRecentMeaning(records: seq<Record>)
    ensures MostRecentlyUpdated(records) == None <==> records == []
    ensures records != [] ==>
      exists k: nat :: IsMostRecent(records, k) && MostRecentlyUpdated(records) == Some(records[k])
  {
    if records != [] {
      var n := |records| - 1;
      var front, last := records[..n], records[n];
      MostRecentMeaning(front);
      if front != [] {
        var k: nat :| IsMostRecent(front, k) && MostRecentlyUpdated(front) == Some(front[k]);
        if front[k].updatedAt < last.updatedAt {
          assert IsMostRecent(records, n);
        } else {
          assert IsMostRecent(records, k);
        }
      } else {
        assert IsMostRecent(records, 0);
      }
    }
  }

  /** The lookup by charge point and transaction finds a record with both, the most recently updated one, if
      there is any. */
  lemma LookupByTransaction(history: seq<Record>, chargePoint: string, transactionId: int)
    ensures var answer := MostRecentlyUpdated(WithTransaction(history, chargePoint, transactionId));
      && (answer == None <==>
           forall r :: r in history ==> r.target.chargePoint != chargePoint || r.transactionId != Some(transactionId))
      && (answer != None ==>
           && answer.value in history && answer.value.target.chargePoint == chargePoint
           && answer.value.transactionId == Some(transactionId)
           && forall r :: r in history ==>
                r.target.chargePoint == chargePoint && r.transactionId == Some(transactionId) ==>
                r.updatedAt <= answer.value.updatedAt)
  {
    WithTransactionMembers(history, chargePoint, transactionId);
    var found := WithTransaction(history, chargePoint, transactionId);
    MostRecentMeaning(found);
    if found != [] {
      var k: nat :| IsMostRecent(found, k) && MostRecentlyUpdated(found) == Some(found[k]);
      assert found[k] in found && found[0] in found;
      forall r | r in found ensures r.updatedAt <= found[k].updatedAt {
        var j :| 0 <= j < |found| && found[j] == r;
      }
    }
  }

  lemma {:induction false} NewestVisible(history: seq<Record>, target: Target, now: int)
    ensures var latest := LatestPending(Prune(history, now), target);
      if latest.None? then forall k :: 0 <= k < |history| ==> !(Pending(history[k], target) && Visible(history[k], now))
      else exists k | 0 <= k < |history| && Pending(history[k], target) && Visible(history[k], now) ::
        latest.value == history[k] && forall j :: k < j < |history| ==>
          !(Pending(history[j], target) && Visible(history[j], now))
  {
    if history != [] {
      var n := |history| - 1;
      var front, last := history[..n], history[n];
      NewestVisible(front, target, now);
      if Visible(last, now) {
        assert Prune(history, now)[..|Prune(history, now)| - 1] == Prune(front, now);
      }
      assert forall k :: 0 <= k < n ==> front[k] == history[k];
    }
  }

  /** Lookups by transaction never miss a linked record: pruning drops none. */
  lemma {:induction false} LinkedNeverVanish(history: seq<Record>, chargePoint: string, transactionId: int, now: int)
    ensures WithTransaction(Prune(history, now), chargePoint, transactionId)
         == WithTransaction(history, chargePoint, transactionId)
  {
    if history != [] {
      var front, last := history[..|history| - 1], history[|history| - 1];
      LinkedNeverVanish(front, chargePoint, transactionId, now);
      if Visible(last, now) {
        assert Prune(history, now)[..|Prune(history, now)| - 1] == Prune(front, now);
      }
    }
  }

  // ----- the service -----

  datatype LinkAnswer = Found(record: Option<Record>) | BadLink(field: string)

  /** What one call to the charge point comes back with. */
  datatype Response = Accepted | Rejected | Unparseable | CallFailed(message: string)

  datatype StartOutcome =
    | Started(attemptCount: nat, trackingId: Uuid)
    | Refused(attemptCount: nat)
    | Unavailable(last: Response)
    | BadRequest(field: string)
    | NotConnected
    | NoCallHandler

  datatype Client = Missing | WithoutCall | WithCall

  datatype Options = Options(maxAttempts: Option<int>, retryDelayMs: Option<int>, timeoutMs: Option<int>,
                             trackingTtlMs: Option<int>)

  /** The first check that a remote start fails, in the order in which they are made. */
  function Refusal(isSpace: char -> bool, target: Target, client: Client, options: Options): Option<StartOutcome> {
    if target.connectorId <= 0 then Some(BadRequest("connectorId"))
    else if Trim(isSpace, target.idTag) == "" then Some(BadRequest("idTag"))
    else if client == Missing then Some(NotConnected)
    else if client == WithoutCall then Some(NoCallHandler)
    else if OrDefault(options.maxAttempts, DEFAULT_MAX_ATTEMPTS) <= 0 then Some(BadRequest("maxAttempts"))
    else if OrDefault(options.retryDelayMs, DEFAULT_RETRY_DELAY_MS) < 0 then Some(BadRequest("retryDelayMs"))
    else if OrDefault(options.timeoutMs, DEFAULT_TIMEOUT_MS) <= 0 then Some(BadRequest("timeoutMs"))
    else if OrDefault(options.trackingTtlMs, DEFAULT_TRACKING_TTL_MS) <= 0 then Some(BadRequest("trackingTtlMs"))
    else None
  }

  predicate BadTarget(isSpace: char -> bool, target: Target) {
    target.connectorId <= 0 || Trim(isSpace, target.idTag) == ""
  }

  predicate NotPositive(option: Option<int>) {
    option.Some? && option.value <= 0
  }

  /** What is wrong with the options: the first of attempts, delay, timeout and lifetime that is; only the delay
      may be 0. */
  function BadOption(options: Options): Option<StartOutcome> {
    if NotPositive(options.maxAttempts) then Some(BadRequest("maxAttempts"))
    else if options.retryDelayMs.Some? && options.retryDelayMs.value < 0 then Some(BadRequest("retryDelayMs"))
    else if NotPositive(options.timeoutMs) then Some(BadRequest("timeoutMs"))
    else if NotPositive(options.trackingTtlMs) then Some(BadRequest("trackingTtlMs"))
    else None
  }

  /** The refusals in the order of their checks: connector, tag, connection, call handler, then the options. */
  lemma RefusesFirstFailure(isSpace: char -> bool, target: Target, client: Client, options: Options)
    ensures target.connectorId <= 0 ==>
      Refusal(isSpace, target, client, options) == Some(BadRequest("connectorId"))
    ensures target.connectorId > 0 && BadTarget(isSpace, target) ==>
      Refusal(isSpace, target, client, options) == Some(BadRequest("idTag"))
    ensures !BadTarget(isSpace, target) && client == Missing ==>
      Refusal(isSpace, target, client, options) == Some(NotConnected)
    ensures !BadTarget(isSpace, target) && client == WithoutCall ==>
      Refusal(isSpace, target, client, options) == Some(NoCallHandler)
    ensures !BadTarget(isSpace, target) && client == WithCall ==>
      Refusal(isSpace, target, client, options) == BadOption(options)
  {}

  predicate Decisive(response: Response) {
    response.Accepted? || response.Rejected?
  }

  class RemoteStartService {
    var tracked: seq<Record>
    ghost var history: seq<Record>
    ghost var clock: int

    ghost predicate Valid()
      reads this
    {
      Refines(tracked, history, clock)
    }

    constructor (ghost now: int)
      ensures Valid() && tracked == history == [] && clock == now
    {
      tracked, history, clock := [], [], now;
    }

    /** Drops every pending record whose expiry has been reached. */
    method PruneExpiredPendingRecords(now: int)
      requires Valid() && clock <= now
      modifies this`tracked, this`clock
      ensures Valid() && clock == now
      ensures tracked == Prune(old(tracked), now) == Prune(history, now)
    {
      PruneRefines(tracked, history, clock, now);
      var kept: seq<Record> := [];
      for k := 0 to |tracked|
        invariant tracked == old(tracked) && kept == Prune(tracked[..k], now)
      {
        var record := tracked[k];
        assert tracked[..k + 1][..k] == tracked[..k];
        if record.transactionId.Some? || record.expiresAt > now {
          kept := kept + [record];
        }
      }
      assert tracked[..|tracked|] == tracked;
      tracked := kept;
      clock := now;
    }

    method GetTrackedRemoteStart(id: Uuid, now: int) returns (record: Option<Record>)
      requires Valid() && clock <= now
      modifies this`tracked, this`clock
      ensures Valid() && clock == now
      ensures record == FindById(Prune(history, now), id)
    {
      PruneExpiredPendingRecords(now);
      record := FindById(tracked, id);
    }

    /** `at` is the instant of the second clock reading, after the prune. */
    method LinkTransactionId(isSpace: char -> bool, target: Target, transactionId: int, now: int, at: int)
      returns (answer: LinkAnswer)
      requires Valid() && clock <= now <= at
      modifies this
      ensures Valid()
      ensures answer.BadLink? <==> target.connectorId <= 0 || Trim(isSpace, target.idTag) == "" || transactionId <= 0
      ensures answer.BadLink? ==> unchanged(this)
      ensures answer.Found? ==> clock == at
      ensures answer.Found? ==> (history, answer.record) == LinkInHistory(old(history), target, transactionId, now, at)
    {
      if target.connectorId <= 0 {
        return BadLink("connectorId");
      }
      if Trim(isSpace, target.idTag) == "" {
        return BadLink("idTag");
      }
      if transactionId <= 0 {
        return BadLink("transactionId");
      }
      LinkRefines(tracked, history, clock, target, transactionId, now, at);
      PruneExpiredPendingRecords(now);
      var latest := FindLatestPendingRecord(target);
      history := LinkInHistory(history, target, transactionId, now, at).0;
      if latest.None? {
        PruneRefines(tracked, history, now, at);
        clock := at;
        return Found(None);
      }
      var updated := latest.value.(transactionId := Some(transactionId), updatedAt := at);
      tracked := Put(tracked, updated);
      clock := at;
      return Found(Some(updated));
    }

    /** Walks the records from the newest to the oldest. */
    method FindLatestPendingRecord(target: Target) returns (record: Option<Record>)
      ensures record == LatestPending(tracked, target)
    {
      var k := |tracked|;
      assert tracked[..k] == tracked;
      while k > 0
        invariant k <= |tracked| && LatestPending(tracked, target) == LatestPending(tracked[..k], target)
      {
        k := k - 1;
        assert tracked[..k + 1][..k] == tracked[..k];
        if tracked[k].target == target && tracked[k].transactionId.None? {
          return Some(tracked[k]);
        }
      }
      return None;
    }

    /** The answer is that of the full history, from which nothing was ever dropped. */
    method FindByTransactionId(chargePoint: string, transactionId: int, now: int) returns (record: Option<Record>)
      requires Valid() && clock <= now
      modifies this`tracked, this`clock
      ensures Valid() && clock == now
      ensures record == MostRecentlyUpdated(WithTransaction(history, chargePoint, transactionId))
    {
      PruneExpiredPendingRecords(now);
      LinkedNeverVanish(history, chargePoint, transactionId, now);
      record := MostRecentlyUpdated(WithTransaction(tracked, chargePoint, transactionId));
    }

    method TrackAccepted(target: Target, attemptCount: nat, trackingTtlMs: int, id: Uuid, prunedAt: int, now: int)
      returns (record: Record)
      requires Valid() && clock <= prunedAt <= now
      requires forall r :: r in tracked || r in history ==> r.id != id  // a random UUID is new
      modifies this
      ensures Valid() && clock == now
      ensures record == Record(id, target, attemptCount, now, now + trackingTtlMs, now, None)
      ensures history == old(history) + [record]
    {
      PruneExpiredPendingRecords(prunedAt);
      PruneSubset(history, prunedAt);
      record := Record(id, target, attemptCount, now, now + trackingTtlMs, now, None);
      AcceptRefines(tracked, history, clock, record);
      tracked := Put(tracked, record);
      history := history + [record];
      clock := now;
    }

    /** Calls the charge point until it answers Accepted or Rejected, at most maxAttempts times. Attempt k
        comes back with `responses(k)` at the instant `answeredAt(k)`. */
    method RemoteStartTransaction(isSpace: char -> bool, target: Target, client: Client, options: Options, id: Uuid,
                                  responses: nat -> Response, answeredAt: nat -> int) returns (outcome: StartOutcome)
      requires Valid() && forall k: nat :: clock <= answeredAt(k)
      requires forall r :: r in tracked || r in history ==> r.id != id
      modifies this
      ensures Valid()
      ensures var maxAttempts, ttl := OrDefault(options.maxAttempts, 3), OrDefault(options.trackingTtlMs, 300000);
        match outcome
        case Started(k, trackingId) =>
          && 1 <= k <= maxAttempts && responses(k) == Accepted
          && (forall j: nat :: 1 <= j < k ==> responses(j) != Accepted && responses(j) != Rejected)
          && trackingId == id && var now := answeredAt(k);
          && history == old(history) + [Record(id, target, k, now, now + ttl, now, None)]
        case Refused(k) =>
          && 1 <= k <= maxAttempts && responses(k) == Rejected
          && (forall j: nat :: 1 <= j < k ==> responses(j) != Accepted && responses(j) != Rejected)
          && unchanged(this)
        case Unavailable(last) =>
          && maxAttempts >= 1 && last == responses(maxAttempts)
          && (forall j: nat :: 1 <= j <= maxAttempts ==> responses(j) != Accepted && responses(j) != Rejected)
          && unchanged(this)
        case _ => unchanged(this)
      ensures Refusal(isSpace, target, client, options).Some? ==>
        Some(outcome) == Refusal(isSpace, target, client, options)
      ensures Refusal(isSpace, target, client, options).None? ==>
        outcome.Started? || outcome.Refused? || outcome.Unavailable?
    {
      var refusal := Refusal(isSpace, target, client, options);
      if refusal.Some? {
        return refusal.value;
      }
      var maxAttempts := OrDefault(options.maxAttempts, DEFAULT_MAX_ATTEMPTS);
      var lastError := Unparseable;
      var attemptCount := 1;
      while attemptCount <= maxAttempts
        invariant 1 <= attemptCount <= maxAttempts + 1 && unchanged(this)
        invariant forall j: nat :: 1 <= j < attemptCount ==> !Decisive(responses(j))
        invariant attemptCount > 1 ==> lastError == responses(attemptCount - 1)
      {
        var response := responses(attemptCount);
        match response {
          case Rejected =>
            return Refused(attemptCount);
          case Accepted =>
            var now := answeredAt(attemptCount);
            var record := TrackAccepted(target, attemptCount,
                                        OrDefault(options.trackingTtlMs, DEFAULT_TRACKING_TTL_MS), id, now, now);
            return Started(attemptCount, record.id);
          case Unparseable =>
            lastError := response;
          case CallFailed(_) =>
            lastError := response;
        }
        attemptCount := attemptCount + 1;
      }
      return Unavailable(lastError);
    }
  }
}
