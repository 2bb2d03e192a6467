/** What each request does to the session table, in terms of its rows. */
module SessionRequests {
  import opened Text
  import opened Sessions
  import P = Payments
  import W = Wallets
  import B = Billing

  // ----- creating -----

  /** A session is created exactly when its user exists, the vehicle, if any, is the user's, and the connector,
      if any, exists; it is a pending row without money. The first failing check, in that order, is reported. */
  lemma CreatesExactlyWhen(w: World, user: Id, userExists: bool, vehicle: Option<Id>, connector: Option<Id>)
    ensures var (w', error) := Step(w, Event.CreateSession(user, userExists, vehicle, connector));
      var vehicleOk := vehicle == None || (vehicle.value in w.owners && w.owners[vehicle.value] == user);
      var connectorOk := connector == None || connector.value in w.operators;
      && (error == None <==> userExists && vehicleOk && connectorOk)
      && (error == Some(UserNotFound) <==> !userExists)
      && (error == Some(VehicleNotFound) <==> userExists && !vehicleOk)
      && (error == Some(ConnectorNotFound) <==> userExists && vehicleOk && !connectorOk)
      && (error.Some? ==> w' == w)
      && (error == None ==>
           w' == w.(files := w.files + [File(Session(user, vehicle, connector, Pending, None, None, 0, None),
                                             P.Deal(None, P.Account(0, 0, 0, 0, false, false)), [Pending])]))
  {}

  // ----- starting and stopping over REST -----

  /** The edges of the lifecycle graph. */
  const EDGES := {(Pending, Authorized), (Pending, Cancelled), (Authorized, Active), (Authorized, Cancelled),
                  (Active, Completed), (Active, SessionStatus.Failed)}

  /** A transition takes place exactly along an edge, and otherwise changes nothing and names both ends. */
  lemma TransitionsExactlyAlongEdges(f: File, to: SessionStatus, reply: P.Reply)
    ensures var (f', error) := Transition(f, to, reply);
      if (f.session.status, to) in EDGES then
        f'.session == f.session.(status := to) && f'.statuses == f.statuses + [to]
      else f' == f && error == Some(TransitionNotAllowed(f.session.status, to))
  {}

  predicate DefaultsToWallet(methods: seq<P.Method>, user: Id) {
    exists k | 0 <= k < |methods| && methods[k].user == user ::
      methods[k].gateway == P.WalletGateway && methods[k].isDefault
  }

  /** The minimum from the environment when it is positive, and 1000 otherwise. */
  function LeastBalance(env: P.Env): int {
    if env.minimumBalance.Some? && 0 < env.minimumBalance.value then env.minimumBalance.value else 1000
  }

  /** Whether a session can be paid for in advance. */
  ghost predicate CanFund(methods: seq<P.Method>, wallets: W.Wallets, d: P.Deal, user: Id, env: P.Env, reply: P.Reply) {
    if DefaultsToWallet(methods, user) then user in wallets && LeastBalance(env) <= wallets[user].balance
    else
      || (d.payment.Some? && d.payment.value.status in {P.Authorized, P.Captured})
      || exists k: nat ::
           P.IsPreferred(methods, k, user) && reply.works
           && (methods[k].gateway == P.Idram ==> P.HoldFor(env, P.Idram) <= reply.idramBalance)
  }

  lemma PreAuthorisesExactlyWhen(methods: seq<P.Method>, d: P.Deal, user: Id, env: P.Env, reply: P.Reply)
    requires d.payment.Some? ==> d.payment.value.status in {P.Authorized, P.Captured}
    ensures P.PreAuthorize(methods, d, user, env, reply).1.None? <==>
      || d.payment.Some?
      || exists k: nat ::
           P.IsPreferred(methods, k, user) && reply.works
           && (methods[k].gateway == P.Idram ==> P.HoldFor(env, P.Idram) <= reply.idramBalance)
  {
    if d.payment.None? {
      P.FirstAuthorisation(methods, d.account, user, env, reply);
      P.FindsPreferred(methods, user);
      if k: nat :| P.IsPreferred(methods, k, user) {
        P.FirstAuthorisationFails(methods, d.account, user, env, reply, k);
        forall j: nat | P.IsPreferred(methods, j, user) ensures j == k {
          assert P.CanAuthorise(methods, j, user) && P.CanAuthorise(methods, k, user);
        }
      }
    }
  }

  /** A start succeeds exactly for a pending or authorised session that can be funded; it is active then, from
      the given instant. A pending session that cannot be funded is authorised and stays so. */
  lemma StartsExactlyWhen(methods: seq<P.Method>, wallets: W.Wallets, f: File, at: int, env: P.Env, reply: P.Reply)
    requires FileOk(methods, f)
    ensures var (f', error) := StartFile(methods, wallets, f, at, env, reply);
      var startable := f.session.status == Pending || f.session.status == Authorized;
      && (error == None <==> startable && CanFund(methods, wallets, f.deal, f.session.user, env, reply))
      && (error == None ==> f'.session == f.session.(status := Active, startTime := Some(at)))
      && (error.Some? ==> f'.session == f.session.(status := if startable then Authorized else f.session.status))
      && (DefaultsToWallet(methods, f.session.user) ==> f'.deal == f.deal)
      && (!startable ==> f' == f && error == Some(TransitionNotAllowed(f.session.status, Active)))
      && (startable && error.Some? && DefaultsToWallet(methods, f.session.user) ==> error == Some(BalanceBelowMinimum))
  {
    assert P.HasDefaultWallet(methods, f.session.user) == DefaultsToWallet(methods, f.session.user);
    if f.session.status == Pending || f.session.status == Authorized {
      PreAuthorisesExactlyWhen(methods, f.deal, f.session.user, env, reply);
      P.PreAuthorizeKeepsDeal(methods, f.deal, f.session.user, env, reply);
    }
  }

  /** A stop completes a session exactly when it is active and the end is not before its start; otherwise it
      changes nothing at all. */
  lemma StopsExactlyWhen(methods: seq<P.Method>, wallets: W.Wallets, f: File, at: int, reply: P.Reply,
                         answers: W.Answers)
    ensures var (f', wallets', error) := StopFile(methods, wallets, f, at, reply, answers);
      var early := f.session.startTime.Some? && at < f.session.startTime.value;
      if f.session.status == Active && !early then f'.session == f.session.(status := Completed, endTime := Some(at))
      else
        && f' == f && wallets' == wallets
        && error == Some(if early then EndBeforeStart else TransitionNotAllowed(f.session.status, Completed))
  {}

  /** Only the owner starts or stops a session. */
  lemma StrangersChangeNothing(w: World, e: Event)
    requires e.StartSession? || e.StopSession?
    requires e.session >= |w.files| || w.files[e.session].session.user != e.user
    ensures Step(w, e) == (w, Some(SessionNotFound))
  {}

  // ----- charge points -----

  /** Row k is a session on a connector of the charge point, with the transaction id. */
  predicate IsFor(w: World, k: nat, chargePoint: Id, transactionId: int) {
    && k < |w.files| && w.files[k].session.transactionId == Some(transactionId)
    && w.files[k].session.connector.Some? && w.files[k].session.connector.value in w.operators
    && w.operators[w.files[k].session.connector.value] == chargePoint
  }

  lemma {:induction false} FindsNewestBelow(w: World, chargePoint: Id, transactionId: int, n: nat)
    requires n <= |w.files|
    ensures var k := FindForStop(w, chargePoint, transactionId, n);
      && (k < |w.files| ==> k < n && IsFor(w, k, chargePoint, transactionId))
      && forall j: nat :: j < n && (k == |w.files| || k < j) ==> !IsFor(w, j, chargePoint, transactionId)
  {
    if n > 0 {
      FindsNewestBelow(w, chargePoint, transactionId, n - 1);
    }
  }

  /** StopTransaction finds the newest session with the id on a connector of the charge point, if there is one. */
  lemma FindsNewest(w: World, chargePoint: Id, transactionId: int, k: nat)
    ensures FindForStop(w, chargePoint, transactionId, |w.files|) == k && k < |w.files| <==>
      IsFor(w, k, chargePoint, transactionId) && forall j: nat :: k < j ==> !IsFor(w, j, chargePoint, transactionId)
    ensures FindForStop(w, chargePoint, transactionId, |w.files|) == |w.files| <==>
      forall j: nat :: !IsFor(w, j, chargePoint, transactionId)
  {
    FindsNewestBelow(w, chargePoint, transactionId, |w.files|);
    var found := FindForStop(w, chargePoint, transactionId, |w.files|);
    if found < |w.files| {
      assert IsFor(w, found, chargePoint, transactionId);
    }
  }

  /** Transaction ids are below the allocator and on one session each. */
  predicate IdsOk(w: World) {
    && (forall i :: 0 <= i < |w.files| && w.files[i].session.transactionId.Some? ==>
          w.files[i].session.transactionId.value < w.nextTransactionId)
    && (forall i, j :: 0 <= i < j < |w.files| && w.files[i].session.transactionId.Some? ==>
          w.files[i].session.transactionId != w.files[j].session.transactionId)
  }

  /** What no request changes about a session. */
  predicate SameIdentity(a: Session, b: Session) {
    && a.user == b.user && a.vehicle == b.vehicle && a.connector == b.connector && a.transactionId == b.transactionId
    && (a.transactionId.Some? ==> a.startTime == b.startTime)
  }

  lemma StartKeepsIdentity(methods: seq<P.Method>, wallets: W.Wallets, f: File, at: int, env: P.Env, reply: P.Reply)
    requires f.session.transactionId.Some? ==> f.session.status == Active || f.session.status == Completed
    ensures SameIdentity(f.session, StartFile(methods, wallets, f, at, env, reply).0.session)
  {}

  lemma StopKeepsIdentity(methods: seq<P.Method>, wallets: W.Wallets, f: File, at: int, reply: P.Reply,
                          answers: W.Answers)
    ensures SameIdentity(f.session, StopFile(methods, wallets, f, at, reply, answers).0.session)
  {}

  lemma OthersKeepIdentity(methods: seq<P.Method>, f: File, to: SessionStatus, at: int, cost: int, reply: P.Reply)
    ensures SameIdentity(f.session, Transition(f, to, reply).0.session)
    ensures SameIdentity(f.session, StopTransactionFile(methods, f, at, cost, reply).session)
  {}

  lemma StartStepKeepsIdentity(w: World, e: Event, id: nat)
    requires e.StartSession? && id < |w.files|
    requires w.files[id].session.transactionId.Some? ==> w.files[id].session.status in {Active, Completed}
    ensures SameIdentity(w.files[id].session, Step(w, e).0.files[id].session)
  {
    StartKeepsIdentity(w.methods, w.wallets, w.files[id], e.at, e.env, e.reply);
  }

  lemma StopStepKeepsIdentity(w: World, e: Event, id: nat)
    requires e.StopSession? && id < |w.files|
    ensures SameIdentity(w.files[id].session, Step(w, e).0.files[id].session)
  {
    StopKeepsIdentity(w.methods, w.wallets, w.files[id], e.at, e.reply, e.answers);
  }

  lemma StopTransactionStepKeepsIdentity(w: World, e: Event, id: nat)
    requires e.StopTransaction? && id < |w.files|
    ensures SameIdentity(w.files[id].session, Step(w, e).0.files[id].session)
  {
    var cost := FinalCost(w.files[id].session, e.metering, e.at);
    OthersKeepIdentity(w.methods, w.files[id], Completed, e.at, cost, e.reply);
  }

  lemma CancelStepKeepsIdentity(w: World, e: Event, id: nat)
    requires e.CancelOrFail? && id < |w.files|
    ensures SameIdentity(w.files[id].session, Step(w, e).0.files[id].session)
  {
    OthersKeepIdentity(w.methods, w.files[id], e.to, 0, 0, e.reply);
  }

  lemma OtherStepKeepsIdentity(w: World, e: Event, id: nat)
    requires !e.StartSession? && !e.StopSession? && !e.StopTransaction? && !e.CancelOrFail? && id < |w.files|
    ensures SameIdentity(w.files[id].session, Step(w, e).0.files[id].session)
  {}

  lemma StepKeepsIdentity(w: World, e: Event, id: nat)
    requires Invariant(w) && id < |w.files|
    ensures id < |Step(w, e).0.files| && SameIdentity(w.files[id].session, Step(w, e).0.files[id].session)
  {
    assert FileOk(w.methods, w.files[id]);
    if e.StartSession? {
      StartStepKeepsIdentity(w, e, id);
    } else if e.StopSession? {
      StopStepKeepsIdentity(w, e, id);
    } else if e.StopTransaction? {
      StopTransactionStepKeepsIdentity(w, e, id);
    } else if e.CancelOrFail? {
      CancelStepKeepsIdentity(w, e, id);
    } else {
      OtherStepKeepsIdentity(w, e, id);
    }
  }

  /** The allocator only moves on, and only together with a new session that takes its id. */
  lemma StepMovesAllocator(w: World, e: Event)
    ensures var w' := Step(w, e).0;
      && w'.operators == w.operators && |w.files| <= |w'.files| <= |w.files| + 1
      && w.nextTransactionId <= w'.nextTransactionId
      && (|w'.files| > |w.files| ==>
           var id := w'.files[|w.files|].session.transactionId;
           id.Some? ==> id.value == w.nextTransactionId && w'.nextTransactionId == w.nextTransactionId + 1)
  {}

  lemma StepKeepsIds(w: World, e: Event)
    requires Invariant(w) && IdsOk(w)
    ensures IdsOk(Step(w, e).0)
  {
    var w' := Step(w, e).0;
    StepMovesAllocator(w, e);
    forall i | 0 <= i < |w.files|
      ensures w'.files[i].session.transactionId == w.files[i].session.transactionId
    {
      StepKeepsIdentity(w, e, i);
    }
    SameIdsAreOk(w, w');
  }

  lemma SameIdsAreOk(w: World, w': World)
    requires IdsOk(w) && w.nextTransactionId <= w'.nextTransactionId && |w.files| <= |w'.files| <= |w.files| + 1
    requires forall i :: 0 <= i < |w.files| ==>
      w'.files[i].session.transactionId == w.files[i].session.transactionId
    requires |w'.files| > |w.files| ==>
      var id := w'.files[|w.files|].session.transactionId;
      id.Some? ==> id.value == w.nextTransactionId && w'.nextTransactionId == w.nextTransactionId + 1
    ensures IdsOk(w')
  {}

  lemma {:induction false} RunKeepsIds(w: World, events: seq<Event>)
    requires Invariant(w) && IdsOk(w) && EnabledRun(w, events)
    ensures IdsOk(Run(w, events)) && Run(w, events).operators == w.operators
  {
    if events != [] {
      var before := events[..|events| - 1];
      RunKeepsIds(w, before);
      RunKeepsInvariant(w, before);
      StepKeepsIds(Run(w, before), events[|events| - 1]);
      StepMovesAllocator(Run(w, before), events[|events| - 1]);
    }
  }

  lemma {:induction false} RunKeepsIdentity(w: World, events: seq<Event>, id: nat)
    requires Invariant(w) && EnabledRun(w, events) && id < |w.files|
    ensures id < |Run(w, events).files| && SameIdentity(w.files[id].session, Run(w, events).files[id].session)
  {
    if events != [] {
      var before := events[..|events| - 1];
      RunKeepsIdentity(w, before, id);
      RunKeepsInvariant(w, before);
      StepKeepsIdentity(Run(w, before), events[|events| - 1], id);
    }
  }

  /** StartTransaction creates an active session of the tag's user on the connector, under the next id, exactly
      when both are known. */
  lemma StartTransactionCreates(w: World, connector: Option<Id>, idTagUser: Option<Id>, at: int)
    ensures var (w', error) := Step(w, StartTransaction(connector, idTagUser, at));
      if connector.Some? && idTagUser.Some? then
        && error == None
        && w' == w.(nextTransactionId := w.nextTransactionId + 1,
                    files := w.files + [File(Session(idTagUser.value, None, connector, Active, Some(at), None, 0,
                                                     Some(w.nextTransactionId)),
                                             P.Deal(None, P.Account(0, 0, 0, 0, false, false)), [Active])])
      else w' == w && error == Some(InvalidIdTag)
  {}

  /** The world after a charge point started a transaction, and then anything happened. */
  function LaterWorld(w: World, connector: Id, user: Id, startedAt: int, between: seq<Event>): World {
    Run(Step(w, StartTransaction(Some(connector), Some(user), startedAt)).0, between)
  }

  lemma OnlyItsSession(w: World, connector: Id, user: Id, startedAt: int, between: seq<Event>)
    requires Invariant(w) && IdsOk(w) && connector in w.operators
    requires EnabledRun(Step(w, StartTransaction(Some(connector), Some(user), startedAt)).0, between)
    ensures var later, id := LaterWorld(w, connector, user, startedAt, between), |w.files|;
      && Invariant(later) && id < |later.files|
      && later.files[id].session.user == user && later.files[id].session.startTime == Some(startedAt)
      && forall k: nat, chargePoint: Id ::
           IsFor(later, k, chargePoint, w.nextTransactionId) <==> k == id && chargePoint == w.operators[connector]
  {
    var started := Step(w, StartTransaction(Some(connector), Some(user), startedAt)).0;
    StartTransactionCreates(w, Some(connector), Some(user), startedAt);
    StepKeepsInvariant(w, StartTransaction(Some(connector), Some(user), startedAt));
    StepKeepsIds(w, StartTransaction(Some(connector), Some(user), startedAt));
    RunKeepsInvariant(started, between);
    RunKeepsIds(started, between);
    RunKeepsIdentity(started, between, |w.files|);
  }

  /** Main result: whatever happens between, a StopTransaction with the id that was handed out, from the charge
      point of the connector, completes that session and changes no other; unless it was completed before, it
      ends now and costs the bill of its readings since its start, or nothing without a tariff. From any other
      charge point it changes nothing. */
  lemma StopReachesItsSession(w: World, connector: Id, user: Id, startedAt: int, between: seq<Event>,
                              chargePoint: Id, at: int, metering: Metering, reply: P.Reply)
    requires Invariant(w) && IdsOk(w) && connector in w.operators
    requires EnabledRun(Step(w, StartTransaction(Some(connector), Some(user), startedAt)).0, between)
    ensures var later, id := LaterWorld(w, connector, user, startedAt, between), |w.files|;
      var stopped := Step(later, StopTransaction(chargePoint, w.nextTransactionId, at, metering, reply)).0;
      if chargePoint != w.operators[connector] then stopped == later
      else
        && id < |later.files| && |stopped.files| == |later.files|
        && (forall k :: 0 <= k < |later.files| && k != id ==> stopped.files[k] == later.files[k])
        && stopped.files[id].session.status == Completed
        && (later.files[id].session.status != Completed ==>
             && stopped.files[id].session.endTime == Some(at)
             && stopped.files[id].session.totalCost
                == if metering.plan.None? then 0
                   else B.SessionBill(metering.plan.value, metering.samples, startedAt, at).totalCost)
  {
    var later, id := LaterWorld(w, connector, user, startedAt, between), |w.files|;
    OnlyItsSession(w, connector, user, startedAt, between);
    FindsNewest(later, chargePoint, w.nextTransactionId, id);
    if chargePoint == w.operators[connector] {
      assert IsFor(later, id, chargePoint, w.nextTransactionId);
      assert FindForStop(later, chargePoint, w.nextTransactionId, |later.files|) == id;
    } else {
      assert forall j: nat :: !IsFor(later, j, chargePoint, w.nextTransactionId);
    }
  }

  /** Runs of a database without sessions reach only such states. */
  lemma FreshRunsAreOk(w: World, events: seq<Event>)
    requires Fresh(w) && EnabledRun(w, events)
    ensures Invariant(Run(w, events)) && IdsOk(Run(w, events))
  {
    RunKeepsInvariant(w, events);
    RunKeepsIds(w, events);
  }
}
