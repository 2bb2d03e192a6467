/** Charging sessions as REST requests and OCPP transactions drive them, one request at a time. */
module Sessions {
  import opened Text
  import P = Payments
  import W = Wallets
  import B = Billing

  type Id = P.Id

  const DEFAULT_MINIMUM_BALANCE_AMD := 1000

  datatype SessionStatus = Pending | Authorized | Active | Completed | Failed | Cancelled

  /** The lifecycle graph. */
  predicate Allowed(from: SessionStatus, to: SessionStatus) {
    match from
    case Pending => to == Authorized || to == Cancelled
    case Authorized => to == Active || to == Cancelled
    case Active => to == Completed || to == Failed
    case Completed => false
    case Failed => false
    case Cancelled => false
  }

  datatype Session = Session(user: Id, vehicle: Option<Id>, connector: Option<Id>, status: SessionStatus,
                             startTime: Option<int>, endTime: Option<int>, totalCost: int,
                             transactionId: Option<int>)

  /** A session row with the one payment row it may have, the ledger of its money, and every status it was
      ever given, oldest first. */
  datatype File = File(session: Session, deal: P.Deal, statuses: seq<SessionStatus>)

  /** The tables. A session's id is its position, so sessions are in creation order; `operators` says which
      charge point owns a connector, and `owners` which user owns a vehicle. */
  datatype World = World(files: seq<File>, methods: seq<P.Method>, wallets: W.Wallets, nextTransactionId: int,
                         operators: map<Id, Id>, owners: map<Id, Id>)

  datatype Error =
    | UserNotFound
    | VehicleNotFound
    | ConnectorNotFound
    | SessionNotFound
    | TransitionNotAllowed(from: SessionStatus, to: SessionStatus)
    | EndBeforeStart
    | BalanceBelowMinimum
    | WalletRefused(phase: W.Phase)
    | PaymentExists
    | PaymentRefused(error: P.Error)
    | InvalidIdTag

  // ----- writing one session -----

  /** The only way a session's status is written. */
  function SetStatus(f: File, status: SessionStatus): File {
    f.(session := f.session.(status := status), statuses := f.statuses + [status])
  }

  /** A transition that the graph allows; cancelling and failing also refund. */
  function Transition(f: File, to: SessionStatus, reply: P.Reply): (File, Option<Error>) {
    if !Allowed(f.session.status, to) then (f, Some(TransitionNotAllowed(f.session.status, to)))
    else
      var moved := SetStatus(f, to);
      if to == Cancelled || to == Failed then
        var (deal, error) := P.Refund(moved.deal, reply);
        (moved.(deal := deal), if error.None? then None else Some(PaymentRefused(error.value)))
      else (moved, None)
  }

  function MinimumBalance(env: P.Env): int {
    P.PositiveOrDefault(env.minimumBalance, DEFAULT_MINIMUM_BALANCE_AMD)
  }

  /** Pending to authorised to active, with the money checked in between; what was reached stays on error. */
  function StartFile(methods: seq<P.Method>, wallets: W.Wallets, f: File, at: int, env: P.Env, reply: P.Reply)
    : (File, Option<Error>)
  {
    if f.session.status != Pending && f.session.status != Authorized then
      (f, Some(TransitionNotAllowed(f.session.status, Active)))
    else
      var user := f.session.user;
      var authorized := if f.session.status == Pending then SetStatus(f, Authorized) else f;
      if P.HasDefaultWallet(methods, user) then
        if user in wallets && wallets[user].balance >= MinimumBalance(env) then (Activate(authorized, at), None)
        else (authorized, Some(BalanceBelowMinimum))
      else
        var (deal, error) := P.PreAuthorize(methods, authorized.deal, user, env, reply);
        if error.Some? then (authorized.(deal := deal), Some(PaymentRefused(error.value)))
        else (Activate(authorized.(deal := deal), at), None)
  }

  function Activate(f: File, at: int): File {
    var active := SetStatus(f, Active);
    active.(session := active.session.(startTime := Some(at)))
  }

  function Complete(f: File, at: int): File {
    var completed := SetStatus(f, Completed);
    completed.(session := completed.session.(endTime := Some(at)))
  }

  /** Deducts from the user's wallet in one request: the check before, and the check in the transaction. */
  function Deduct(wallets: W.Wallets, user: Id, amount: int, answers: W.Answers): (W.Wallets, W.Phase) {
    if amount <= 0 then (wallets, W.Failed(W.AmountNotPositive))
    else if user !in wallets && !answers.creation then (wallets, W.Failed(W.WalletNotCreated))
    else
      var known := if user in wallets then wallets else wallets[user := W.Wallet(0, [])];
      if known[user].balance < amount then (known, W.Failed(W.InsufficientBalance))
      else if !answers.commit then (known, W.Failed(W.TransactionFailed))
      else (known[user := W.Post(known[user], W.Deduction, amount)], W.Done)
  }

  /** That is what an undisturbed deduction of the wallet ledger does. */
  lemma DeductIsUndisturbed(wallets: W.Wallets, user: Id, amount: int, answers: W.Answers)
    ensures var s := W.Undisturbed(W.State(wallets, [W.Opened(user, W.Deduction, amount, W.Arca)], map[]), answers);
      Deduct(wallets, user, amount, answers) == (s.wallets, s.requests[0].phase)
  {
    var s := W.State(wallets, [W.Opened(user, W.Deduction, amount, W.Arca)], map[]);
    if amount > 0 {
      s := W.MovePastWallet(s, answers);
      if s.requests[0].phase == W.Committing {
        s := W.Move(s, answers);
      }
    }
    W.Ended(s, answers);
  }

  /** Pays a completed session from the wallet and records it; a session has at most one payment row. */
  function WalletPaid(methods: seq<P.Method>, wallets: W.Wallets, f: File, answers: W.Answers)
    : (File, W.Wallets, Option<Error>)
  {
    var amount := f.session.totalCost;
    var (wallets', phase) := Deduct(wallets, f.session.user, amount, answers);
    if phase != W.Done then (f, wallets', Some(WalletRefused(phase)))
    else
      var paid := f.deal.account.(deductions := f.deal.account.deductions + 1);
      if f.deal.payment.Some? then (f.(deal := f.deal.(account := paid)), wallets', Some(PaymentExists))
      else
        var methodId := WalletMethod(methods, f.session.user);
        var payment := P.Payment(f.session.user, methodId, P.WalletGateway, P.Captured, amount, amount, amount, None);
        (f.(deal := P.Deal(Some(payment), paid)), wallets', None)
  }

  /** The user's default wallet method. */
  function WalletMethod(methods: seq<P.Method>, user: Id): (k: nat)
    ensures k <= |methods|
    ensures P.HasDefaultWallet(methods, user) ==>
      k < |methods| && methods[k].user == user && methods[k].gateway == P.WalletGateway && methods[k].isDefault
  {
    if methods == [] then 0
    else if methods[0].user == user && methods[0].gateway == P.WalletGateway && methods[0].isDefault then 0
    else
      assert P.HasDefaultWallet(methods, user) ==> P.HasDefaultWallet(methods[1..], user) by {
        if P.HasDefaultWallet(methods, user) {
          var k :| 0 <= k < |methods| && methods[k].user == user && methods[k].gateway == P.WalletGateway
            && methods[k].isDefault;
          assert methods[1..][k - 1] == methods[k];
        }
      }
      1 + WalletMethod(methods[1..], user)
  }

  /** Active to completed, and then the payment; the session stays completed when the payment fails. */
  function StopFile(methods: seq<P.Method>, wallets: W.Wallets, f: File, at: int, reply: P.Reply, answers: W.Answers)
    : (File, W.Wallets, Option<Error>)
  {
    if f.session.startTime.Some? && at < f.session.startTime.value then (f, wallets, Some(EndBeforeStart))
    else if !Allowed(f.session.status, Completed) then
      (f, wallets, Some(TransitionNotAllowed(f.session.status, Completed)))
    else
      var completed := Complete(f, at);
      if P.HasDefaultWallet(methods, f.session.user) then WalletPaid(methods, wallets, completed, answers)
      else
        var (deal, error) := P.Capture(methods, completed.deal, completed.session.totalCost, reply);
        (completed.(deal := deal), wallets, if error.None? then None else Some(PaymentRefused(error.value)))
  }

  /** StopTransaction asks nothing but whether the session is completed already, and shrugs off a failed capture. */
  function StopTransactionFile(methods: seq<P.Method>, f: File, at: int, cost: int, reply: P.Reply): File {
    if f.session.status == Completed then f
    else
      var completed := Complete(f, at);
      var priced := completed.(session := completed.session.(totalCost := cost));
      priced.(deal := P.Capture(methods, priced.deal, cost, reply).0)
  }

  /** What prices a session at its stop: the tariff of its connector, if one is valid then, its meter
      readings, and when its row was created. */
  datatype Metering = Metering(plan: Option<B.Plan>, samples: seq<B.Sample>, createdAt: int)

  function StartOf(s: Session, m: Metering): int {
    if s.startTime.Some? then s.startTime.value else m.createdAt
  }

  /** Without a tariff pricing fails, and the session costs nothing. */
  function FinalCost(s: Session, m: Metering, at: int): int {
    if m.plan.None? then 0 else B.SessionBill(m.plan.value, m.samples, StartOf(s, m), at).totalCost
  }

  // ----- requests -----

  datatype Event =
    | CreateSession(user: Id, userExists: bool, vehicle: Option<Id>, connector: Option<Id>)
    | StartSession(user: Id, session: nat, at: int, env: P.Env, reply: P.Reply)
    | StopSession(user: Id, session: nat, at: int, reply: P.Reply, answers: W.Answers)
    | StartTransaction(connector: Option<Id>, idTagUser: Option<Id>, at: int)
    | StopTransaction(chargePoint: Id, transactionId: int, at: int, metering: Metering, reply: P.Reply)
    | CancelOrFail(session: nat, to: SessionStatus, reply: P.Reply)
    | RecordCost(session: nat, cost: int)
    | SetWallet(user: Id, token: Id)
    | ExchangeToken(user: Id, gateway: P.Gateway, token: Id, isDefault: Option<bool>)
    | WalletsChange(wallets: W.Wallets)

  /** Nothing cancels or fails a session that carries a transaction id. No service but StopTransaction writes
      a cost; RecordCost stands for any other writer, and writes to sessions that are charging. */
  predicate Enabled(w: World, e: Event) {
    match e
    case CancelOrFail(id, to, _) =>
      id < |w.files| && w.files[id].session.transactionId.None? && (to == Cancelled || to == Failed)
    case RecordCost(id, _) => id < |w.files| && w.files[id].session.status == Active
    case _ => true
  }

  function NewFile(user: Id, vehicle: Option<Id>, connector: Option<Id>, status: SessionStatus,
                   startTime: Option<int>, transactionId: Option<int>): File
  {
    File(Session(user, vehicle, connector, status, startTime, None, 0, transactionId), P.Deal(None, P.NO_MONEY),
         [status])
  }

  /** The newest session with the transaction id on a connector of the charge point, or the table's length. */
  function FindForStop(w: World, chargePoint: Id, transactionId: int, n: nat): (k: nat)
    requires n <= |w.files|
    ensures k <= |w.files|
    ensures k < |w.files| ==> k < n && w.files[k].session.transactionId == Some(transactionId)
  {
    if n == 0 then |w.files|
    else
      var s := w.files[n - 1].session;
      if s.transactionId == Some(transactionId) && s.connector.Some? && s.connector.value in w.operators
         && w.operators[s.connector.value] == chargePoint then n - 1
      else FindForStop(w, chargePoint, transactionId, n - 1)
  }

  predicate Owns(w: World, user: Id, id: nat) {
    id < |w.files| && w.files[id].session.user == user
  }

  predicate OwnsVehicle(owners: map<Id, Id>, user: Id, vehicle: Id) {
    vehicle in owners && owners[vehicle] == user
  }

  function Step(w: World, e: Event): (World, Option<Error>) {
    match e
    case CreateSession(user, userExists, vehicle, connector) =>
      if !userExists then (w, Some(UserNotFound))
      else if vehicle.Some? && !OwnsVehicle(w.owners, user, vehicle.value) then (w, Some(VehicleNotFound))
      else if connector.Some? && connector.value !in w.operators then (w, Some(ConnectorNotFound))
      else (w.(files := w.files + [NewFile(user, vehicle, connector, Pending, None, None)]), None)
    case StartSession(user, id, at, env, reply) =>
      if !Owns(w, user, id) then (w, Some(SessionNotFound))
      else
        var (f, error) := StartFile(w.methods, w.wallets, w.files[id], at, env, reply);
        (w.(files := w.files[id := f]), error)
    case StopSession(user, id, at, reply, answers) =>
      if !Owns(w, user, id) then (w, Some(SessionNotFound))
      else
        var (f, wallets, error) := StopFile(w.methods, w.wallets, w.files[id], at, reply, answers);
        (w.(files := w.files[id := f], wallets := wallets), error)
    case StartTransaction(connector, idTagUser, at) =>
      if connector.None? || idTagUser.None? then (w, Some(InvalidIdTag))
      else
        var f := NewFile(idTagUser.value, None, connector, Active, Some(at), Some(w.nextTransactionId));
        (w.(files := w.files + [f], nextTransactionId := w.nextTransactionId + 1), None)
    case StopTransaction(chargePoint, transactionId, at, metering, reply) =>
      var id := FindForStop(w, chargePoint, transactionId, |w.files|);
      if id == |w.files| then (w, None)
      else
        var cost := FinalCost(w.files[id].session, metering, at);
        (w.(files := w.files[id := StopTransactionFile(w.methods, w.files[id], at, cost, reply)]), None)
    case CancelOrFail(id, to, reply) =>
      if id >= |w.files| then (w, Some(SessionNotFound))
      else
        var (f, error) := Transition(w.files[id], to, reply);
        (w.(files := w.files[id := f]), error)
    case RecordCost(id, cost) =>
      if id >= |w.files| then (w, Some(SessionNotFound))
      else (w.(files := w.files[id := w.files[id].(session := w.files[id].session.(totalCost := cost))]), None)
    case SetWallet(user, token) => (w.(methods := P.SetWallet(w.methods, user, token)), None)
    case ExchangeToken(user, gateway, token, isDefault) =>
      (w.(methods := P.ExchangeToken(w.methods, user, gateway, token, isDefault)), None)
    case WalletsChange(wallets) => (w.(wallets := wallets), None)
  }

  // ----- the invariant of one session -----

  /** The statuses a session was given form a walk in the lifecycle graph that ends at its status. */
  predicate Walk(statuses: seq<SessionStatus>) {
    && statuses != [] && (statuses[0] == Pending || statuses[0] == Active)
    && forall k :: 0 < k < |statuses| ==> Allowed(statuses[k - 1], statuses[k])
  }

  predicate FileOk(methods: seq<P.Method>, f: File) {
    && Walk(f.statuses) && f.statuses[|f.statuses| - 1] == f.session.status
    && P.DealOk(methods, f.deal)
    && (f.session.transactionId.Some? ==> f.session.status == Active || f.session.status == Completed)
    && (f.session.transactionId.Some? && f.deal.payment.Some? ==> f.deal.payment.value.gateway == P.WalletGateway)
    && MoneyFollowsStatus(f.session.status, f.deal)
    && (f.deal.payment.Some? ==> f.deal.payment.value.user == f.session.user)
  }

  /** Captures and deductions only ever happened to completed sessions, refunds to cancelled or failed ones. */
  predicate MoneyFollowsStatus(status: SessionStatus, d: P.Deal) {
    && 0 <= d.account.captures && 0 <= d.account.deductions && 0 <= d.account.refunds <= 1
    && d.account.captures + d.account.deductions <= 1
    && (d.account.captures + d.account.deductions > 0 ==> status == Completed)
    && (d.account.refunds > 0 ==> status == Cancelled || status == Failed)
    && (d.payment.Some? && d.payment.value.status == P.Captured ==> status == Completed)
    && (d.payment.Some? && d.payment.value.status == P.Refunded ==> status == Cancelled || status == Failed)
  }

  predicate Invariant(w: World) {
    && P.OneDefault(w.methods)
    && (forall id :: 0 <= id < |w.files| ==> FileOk(w.methods, w.files[id]))
    && 1 <= w.nextTransactionId
  }

  lemma SetStatusWalks(f: File, to: SessionStatus)
    requires Walk(f.statuses) && f.statuses[|f.statuses| - 1] == f.session.status && Allowed(f.session.status, to)
    ensures Walk(SetStatus(f, to).statuses)
  {}

  lemma TransitionKeepsFile(methods: seq<P.Method>, f: File, to: SessionStatus, reply: P.Reply)
    requires FileOk(methods, f) && (to == Cancelled || to == Failed) && f.session.transactionId.None?
    ensures FileOk(methods, Transition(f, to, reply).0)
  {
    if Allowed(f.session.status, to) {
      SetStatusWalks(f, to);
      P.RefundKeepsDeal(methods, f.deal, reply);
    }
  }

  lemma StartKeepsFile(methods: seq<P.Method>, wallets: W.Wallets, f: File, at: int, env: P.Env, reply: P.Reply)
    requires FileOk(methods, f)
    ensures FileOk(methods, StartFile(methods, wallets, f, at, env, reply).0)
  {
    if f.session.status == Pending || f.session.status == Authorized {
      var authorized := if f.session.status == Pending then SetStatus(f, Authorized) else f;
      if f.session.status == Pending { SetStatusWalks(f, Authorized); }
      SetStatusWalks(authorized, Active);
      P.PreAuthorizeKeepsDeal(methods, f.deal, f.session.user, env, reply);
    }
  }

  lemma CompleteKeepsFile(methods: seq<P.Method>, f: File, at: int)
    requires FileOk(methods, f) && f.session.status == Active
    ensures FileOk(methods, Complete(f, at))
    ensures f.deal.account.captures == f.deal.account.deductions == f.deal.account.refunds == 0
    ensures f.deal.payment.Some? ==> f.deal.payment.value.status == P.Authorized
  {
    SetStatusWalks(f, Completed);
  }

  lemma WalletPaidKeepsFile(methods: seq<P.Method>, wallets: W.Wallets, f: File, answers: W.Answers)
    requires FileOk(methods, f) && f.session.status == Completed && P.HasDefaultWallet(methods, f.session.user)
    requires f.deal.account.captures == f.deal.account.deductions == f.deal.account.refunds == 0
    ensures FileOk(methods, WalletPaid(methods, wallets, f, answers).0)
  {}

  lemma CaptureKeepsFile(methods: seq<P.Method>, f: File, amount: int, reply: P.Reply)
    requires FileOk(methods, f) && f.session.status == Completed
    requires f.deal.account.captures == f.deal.account.deductions == f.deal.account.refunds == 0
    requires f.deal.payment.Some? ==> f.deal.payment.value.status == P.Authorized
    ensures FileOk(methods, f.(deal := P.Capture(methods, f.deal, amount, reply).0))
  {
    P.CaptureKeepsDeal(methods, f.deal, amount, reply);
  }

  lemma StopKeepsFile(methods: seq<P.Method>, wallets: W.Wallets, f: File, at: int, reply: P.Reply, answers: W.Answers)
    requires FileOk(methods, f)
    ensures FileOk(methods, StopFile(methods, wallets, f, at, reply, answers).0)
  {
    if f.session.status == Active {
      CompleteKeepsFile(methods, f, at);
      var completed := Complete(f, at);
      if P.HasDefaultWallet(methods, f.session.user) {
        WalletPaidKeepsFile(methods, wallets, completed, answers);
      } else {
        CaptureKeepsFile(methods, completed, completed.session.totalCost, reply);
      }
    }
  }

  /** Here the invariant is needed: a session found by its transaction id is active or completed. */
  lemma StopTransactionKeepsFile(methods: seq<P.Method>, f: File, at: int, cost: int, reply: P.Reply)
    requires FileOk(methods, f) && f.session.transactionId.Some?
    ensures FileOk(methods, StopTransactionFile(methods, f, at, cost, reply))
  {
    if f.session.status == Active {
      CompleteKeepsFile(methods, f, at);
      var completed := Complete(f, at);
      CaptureKeepsFile(methods, completed.(session := completed.session.(totalCost := cost)), cost, reply);
    }
  }

  lemma ExtendsKeepsFile(methods: seq<P.Method>, methods': seq<P.Method>, f: File)
    requires P.Extends(methods, methods') && FileOk(methods, f)
    ensures FileOk(methods', f)
  {
    P.ExtendsKeepsDeal(methods, methods', f.deal);
  }

  lemma NewFileOk(methods: seq<P.Method>, user: Id, vehicle: Option<Id>, connector: Option<Id>,
                  status: SessionStatus, startTime: Option<int>, transactionId: Option<int>)
    requires status == Pending || status == Active
    requires transactionId.Some? ==> status == Active
    ensures FileOk(methods, NewFile(user, vehicle, connector, status, startTime, transactionId))
  {}

  /** The file that a request about one session leaves. */
  lemma StepKeepsFiles(w: World, e: Event, id: nat)
    requires Invariant(w) && Enabled(w, e) && id < |w.files|
    ensures FileOk(w.methods, Step(w, e).0.files[id])
  {
    var f := w.files[id];
    assert FileOk(w.methods, f);
    match e
    case StartSession(user, k, at, env, reply) =>
      if k == id { StartKeepsFile(w.methods, w.wallets, f, at, env, reply); }
    case StopSession(user, k, at, reply, answers) =>
      if k == id { StopKeepsFile(w.methods, w.wallets, f, at, reply, answers); }
    case StopTransaction(chargePoint, transactionId, at, metering, reply) =>
      if FindForStop(w, chargePoint, transactionId, |w.files|) == id {
        StopTransactionKeepsFile(w.methods, f, at, FinalCost(f.session, metering, at), reply);
      }
    case CancelOrFail(k, to, reply) => if k == id { TransitionKeepsFile(w.methods, f, to, reply); }
    case _ =>
  }

  lemma StepKeepsMethods(w: World, e: Event)
    requires P.OneDefault(w.methods)
    ensures P.OneDefault(Step(w, e).0.methods) && P.Extends(w.methods, Step(w, e).0.methods)
  {
    if e.SetWallet? {
      P.SetWalletKeepsOneDefault(w.methods, e.user, e.token);
    } else if e.ExchangeToken? {
      P.ExchangeKeepsOneDefault(w.methods, e.user, e.gateway, e.token, e.isDefault);
    }
  }

  lemma NewFilesAreOk(w: World, e: Event, id: nat)
    requires Invariant(w) && |w.files| <= id < |Step(w, e).0.files|
    ensures FileOk(Step(w, e).0.methods, Step(w, e).0.files[id])
  {
    if e.CreateSession? {
      NewFileOk(w.methods, e.user, e.vehicle, e.connector, Pending, None, None);
    } else {
      NewFileOk(w.methods, e.idTagUser.value, None, e.connector, Active, Some(e.at), Some(w.nextTransactionId));
    }
  }

  lemma StepKeepsInvariant(w: World, e: Event)
    requires Invariant(w) && Enabled(w, e)
    ensures Invariant(Step(w, e).0)
  {
    var w' := Step(w, e).0;
    StepKeepsMethods(w, e);
    forall id | 0 <= id < |w'.files| ensures FileOk(w'.methods, w'.files[id]) {
      if id < |w.files| {
        StepKeepsFiles(w, e, id);
        ExtendsKeepsFile(w.methods, w'.methods, w'.files[id]);
      } else {
        NewFilesAreOk(w, e, id);
      }
    }
  }

  // ----- runs -----

  function Run(w: World, events: seq<Event>): World {
    if events == [] then w else Step(Run(w, events[..|events| - 1]), events[|events| - 1]).0
  }

  predicate EnabledRun(w: World, events: seq<Event>) {
    events == []
      || (EnabledRun(w, events[..|events| - 1]) && Enabled(Run(w, events[..|events| - 1]), events[|events| - 1]))
  }

  /** A database without sessions; users may have payment methods and wallets. */
  predicate Fresh(w: World) {
    w.files == [] && P.OneDefault(w.methods) && 1 <= w.nextTransactionId
  }

  lemma {:induction false} RunKeepsInvariant(w: World, events: seq<Event>)
    requires Invariant(w) && EnabledRun(w, events)
    ensures Invariant(Run(w, events))
  {
    if events != [] {
      RunKeepsInvariant(w, events[..|events| - 1]);
      StepKeepsInvariant(Run(w, events[..|events| - 1]), events[|events| - 1]);
    }
  }

  /** Main result: every status that any session is ever given follows the lifecycle graph, and what is
      completed, failed or cancelled stays so. */
  lemma LifecycleIsFollowed(w: World, events: seq<Event>, id: nat)
    requires Fresh(w) && EnabledRun(w, events) && id < |Run(w, events).files|
    ensures var f := Run(w, events).files[id];
      && Walk(f.statuses) && f.statuses[|f.statuses| - 1] == f.session.status
      && forall k :: 0 <= k < |f.statuses| && f.statuses[k] in {Completed, Failed, Cancelled} ==> k == |f.statuses| - 1
  {
    RunKeepsInvariant(w, events);
    var f := Run(w, events).files[id];
    assert FileOk(Run(w, events).methods, f);
    forall k | 0 <= k < |f.statuses| - 1 ensures f.statuses[k] !in {Completed, Failed, Cancelled} {
      assert Allowed(f.statuses[k + 1 - 1], f.statuses[k + 1]);
    }
  }

  /** `f'` has all the statuses of `f`, and one more if it has another status now. */
  predicate Grew(f: File, f': File) {
    && f.statuses <= f'.statuses
    && (f.session.status != f'.session.status ==> |f.statuses| < |f'.statuses|)
  }

  lemma StartGrows(methods: seq<P.Method>, wallets: W.Wallets, f: File, at: int, env: P.Env, reply: P.Reply)
    ensures Grew(f, StartFile(methods, wallets, f, at, env, reply).0)
  {}

  lemma StopGrows(methods: seq<P.Method>, wallets: W.Wallets, f: File, at: int, reply: P.Reply, answers: W.Answers)
    ensures Grew(f, StopFile(methods, wallets, f, at, reply, answers).0)
  {}

  lemma TransitionGrows(f: File, to: SessionStatus, reply: P.Reply)
    ensures Grew(f, Transition(f, to, reply).0)
  {}

  /** No step forgets a status: the histories that the graph governs are the whole truth. */
  lemma HistoryOnlyGrows(w: World, e: Event, id: nat)
    requires id < |w.files|
    ensures |w.files| <= |Step(w, e).0.files| && Grew(w.files[id], Step(w, e).0.files[id])
  {
    match e
    case StartSession(_, k, at, env, reply) => StartGrows(w.methods, w.wallets, w.files[id], at, env, reply);
    case StopSession(_, k, at, reply, answers) => StopGrows(w.methods, w.wallets, w.files[id], at, reply, answers);
    case CancelOrFail(_, to, reply) => TransitionGrows(w.files[id], to, reply);
    case _ =>
  }

  /** Main result: each session gets at most one capture attempt or wallet payment, and only once completed. */
  lemma ChargedAtMostOnce(w: World, events: seq<Event>, id: nat)
    requires Fresh(w) && EnabledRun(w, events) && id < |Run(w, events).files|
    ensures var f := Run(w, events).files[id];
      && f.deal.account.captures + f.deal.account.deductions <= 1
      && (f.deal.account.captures + f.deal.account.deductions == 1 ==> f.session.status == Completed)
  {
    RunKeepsInvariant(w, events);
    assert FileOk(Run(w, events).methods, Run(w, events).files[id]);
  }

  /** Main result: no payment is both captured and refunded, none is ever authorised again (so no stale captured
      amount survives an authorisation), and every refund asks for what the gateway holds at that moment. */
  lemma RefundsAreExact(w: World, events: seq<Event>, id: nat)
    requires Fresh(w) && EnabledRun(w, events) && id < |Run(w, events).files|
    ensures var account := Run(w, events).files[id].deal.account;
      && !(account.captures > 0 && account.refunds > 0) && account.refunds <= 1
      && !account.wrongRefund && !account.reauthorised
  {
    RunKeepsInvariant(w, events);
    assert FileOk(Run(w, events).methods, Run(w, events).files[id]);
  }

  /** Main result: a payment's gateway is that of its stored method, and it carries the transaction id that
      its capture or refund would need, so those calls never fail for want of it; and users have at most
      one default method. */
  lemma PaymentsAreConsistent(w: World, events: seq<Event>, id: nat)
    requires Fresh(w) && EnabledRun(w, events) && id < |Run(w, events).files|
    requires Run(w, events).files[id].deal.payment.Some?
    ensures var methods, p := Run(w, events).methods, Run(w, events).files[id].deal.payment.value;
      && P.OneDefault(methods)
      && p.methodId < |methods| && methods[p.methodId].gateway == p.gateway && methods[p.methodId].user == p.user
      && (P.ArcaRouted(p.gateway) && p.status in {P.Authorized, P.Captured} ==> p.transaction.Some?)
      && (p.gateway == P.Idram && p.status == P.Captured ==> p.transaction.Some?)
  {
    RunKeepsInvariant(w, events);
    assert FileOk(Run(w, events).methods, Run(w, events).files[id]);
  }

  predicate Finished(f: File) {
    f.session.status == Completed || f.session.status == Failed || f.session.status == Cancelled
  }

  /** Requests that find a finished session leave it as it is. */
  lemma FinishedFileStays(methods: seq<P.Method>, wallets: W.Wallets, f: File)
    requires Finished(f)
    ensures forall at, env, reply :: StartFile(methods, wallets, f, at, env, reply).0 == f
    ensures forall at, reply, answers :: StopFile(methods, wallets, f, at, reply, answers).0 == f
    ensures forall to, reply :: Transition(f, to, reply).0 == f
    ensures f.session.status == Completed ==>
      forall at, cost, reply :: StopTransactionFile(methods, f, at, cost, reply) == f
  {}

  lemma FinishedStays(w: World, e: Event, id: nat)
    requires Invariant(w) && Enabled(w, e) && id < |w.files| && Finished(w.files[id])
    ensures id < |Step(w, e).0.files| && Step(w, e).0.files[id] == w.files[id]
  {
    assert FileOk(w.methods, w.files[id]);
    FinishedFileStays(w.methods, w.wallets, w.files[id]);
  }

  /** Main result: a finished session is final. Neither its row, nor its payment, nor the money behind it is
      ever touched again, whatever requests follow. */
  lemma {:induction false} FinishedSessionsAreFrozen(w: World, events: seq<Event>, id: nat)
    requires Invariant(w) && EnabledRun(w, events) && id < |w.files| && Finished(w.files[id])
    ensures id < |Run(w, events).files| && Run(w, events).files[id] == w.files[id]
  {
    if events != [] {
      var before := events[..|events| - 1];
      RunKeepsInvariant(w, before);
      FinishedSessionsAreFrozen(w, before, id);
      FinishedStays(Run(w, before), events[|events| - 1], id);
    }
  }

  /** StopTransaction keeps to the graph exactly for active and completed sessions: it would complete a
      failed, cancelled, pending or authorised one. */
  lemma StopTransactionNeedsActive(methods: seq<P.Method>, f: File, at: int, cost: int, reply: P.Reply)
    requires Walk(f.statuses) && f.statuses[|f.statuses| - 1] == f.session.status
    ensures Walk(StopTransactionFile(methods, f, at, cost, reply).statuses)
       <==> f.session.status == Active || f.session.status == Completed
  {
    if f.session.status != Completed {
      var after := f.statuses + [Completed];
      assert StopTransactionFile(methods, f, at, cost, reply).statuses == after;
      assert after[|f.statuses| - 1] == f.session.status && after[|f.statuses|] == Completed;
      assert Walk(after) ==> Allowed(after[|f.statuses| - 1], after[|f.statuses|]);
    }
  }

  lemma RunExtends(w: World, events: seq<Event>, e: Event)
    ensures Run(w, events + [e]) == Step(Run(w, events), e).0
    ensures EnabledRun(w, events + [e]) <==> EnabledRun(w, events) && Enabled(Run(w, events), e)
  {
    assert (events + [e])[..|events|] == events;
  }

  // ----- the services -----

  class ChargingBackend {
    const operators: map<Id, Id>
    const owners: map<Id, Id>
    var files: seq<File>
    var methods: seq<P.Method>
    var wallets: W.Wallets
    var nextTransactionId: int

    /** The allocator starts at max(1, seconds since the epoch). */
    constructor (operators: map<Id, Id>, owners: map<Id, Id>, methods: seq<P.Method>, wallets: W.Wallets,
                 epochSeconds: int)
      requires P.OneDefault(methods)
      ensures Fresh(Tables()) && Tables().methods == methods && Tables().wallets == wallets
      ensures Tables().operators == operators && Tables().owners == owners
    {
      this.operators, this.owners, this.methods, this.wallets, this.files := operators, owners, methods, wallets, [];
      nextTransactionId := if epochSeconds < 1 then 1 else epochSeconds;
    }

    function Tables(): World
      reads this
    {
      World(files, methods, wallets, nextTransactionId, operators, owners)
    }

    method CreateSession(user: Id, userExists: bool, vehicle: Option<Id>, connector: Option<Id>)
      returns (error: Option<Error>)
      modifies this`files
      ensures (Tables(), error) == Step(old(Tables()), Event.CreateSession(user, userExists, vehicle, connector))
    {
      if !userExists {
        return Some(UserNotFound);
      }
      if vehicle.Some? && !OwnsVehicle(owners, user, vehicle.value) {
        return Some(VehicleNotFound);
      }
      if connector.Some? && connector.value !in operators {
        return Some(ConnectorNotFound);
      }
      files := files + [NewFile(user, vehicle, connector, Pending, None, None)];
      return None;
    }

    /** Writes one status, after checking the graph, and refunds what a cancelled or failed session paid. */
    method TransitionSessionState(id: nat, to: SessionStatus, reply: P.Reply) returns (error: Option<Error>)
      requires id < |files|
      modifies this`files
      ensures var (f, e) := Transition(old(files)[id], to, reply); files == old(files)[id := f] && error == e
    {
      if !Allowed(files[id].session.status, to) {
        return Some(TransitionNotAllowed(files[id].session.status, to));
      }
      files := files[id := SetStatus(files[id], to)];
      if to == Cancelled || to == Failed {
        var refused := RefundForSession(id, reply);
        if refused.Some? {
          return Some(PaymentRefused(refused.value));
        }
      }
      return None;
    }

    method StartSession(user: Id, id: nat, at: int, env: P.Env, reply: P.Reply) returns (error: Option<Error>)
      modifies this`files
      ensures (Tables(), error) == Step(old(Tables()), Event.StartSession(user, id, at, env, reply))
    {
      if !(id < |files| && files[id].session.user == user) {
        return Some(SessionNotFound);
      }
      if files[id].session.status != Pending && files[id].session.status != Authorized {
        assert files[id := files[id]] == files;
        return Some(TransitionNotAllowed(files[id].session.status, Active));
      }
      if files[id].session.status == Pending {
        error := TransitionSessionState(id, Authorized, reply);
      }
      ghost var f := old(files)[id];
      assert files == old(files)[id := if f.session.status == Pending then SetStatus(f, Authorized) else f];
      if P.HasDefaultWallet(methods, user) {
        var enough := user in wallets && wallets[user].balance >= MinimumBalance(env);
        if !enough {
          return Some(BalanceBelowMinimum);
        }
      } else {
        ghost var authorized := files[id];
        var refused := PreAuthorizeForSession(user, id, env, reply);
        assert files == old(files)[id := authorized.(deal := files[id].deal)];
        if refused.Some? {
          return Some(PaymentRefused(refused.value));
        }
      }
      ghost var ready := files[id];
      error := TransitionSessionState(id, Active, reply);
      files := files[id := files[id].(session := files[id].session.(startTime := Some(at)))];
      assert files == old(files)[id := Activate(ready, at)];
    }

    method StopSession(user: Id, id: nat, at: int, reply: P.Reply, answers: W.Answers) returns (error: Option<Error>)
      modifies this`files, this`wallets
      ensures (Tables(), error) == Step(old(Tables()), Event.StopSession(user, id, at, reply, answers))
    {
      if !(id < |files| && files[id].session.user == user) {
        return Some(SessionNotFound);
      }
      var startTime := files[id].session.startTime;
      if startTime.Some? && at < startTime.value {
        assert files[id := files[id]] == files;
        return Some(EndBeforeStart);
      }
      error := TransitionSessionState(id, Completed, reply);
      if error.Some? {
        return error;
      }
      files := files[id := files[id].(session := files[id].session.(endTime := Some(at)))];
      assert files[id] == Complete(old(files)[id], at);
      if P.HasDefaultWallet(methods, user) {
        error := PayFromWallet(id, answers);
        assert files == old(files)[id := files[id]];
        return;
      }
      var refused := CaptureForSession(id, files[id].session.totalCost, reply);
      assert files == old(files)[id := Complete(old(files)[id], at).(deal := files[id].deal)];
      if refused.Some? {
        return Some(PaymentRefused(refused.value));
      }
    }

    // ----- the payment of one session -----

    /** What is left when only the deal of one session changes. */
    ghost function WithDeal(rows: seq<File>, id: nat, deal: P.Deal): seq<File>
      requires id < |rows|
    {
      rows[id := rows[id].(deal := deal)]
    }

    method PreAuthorizeForSession(user: Id, id: nat, env: P.Env, reply: P.Reply) returns (error: Option<P.Error>)
      requires id < |files|
      modifies this`files
      ensures var (deal, e) := P.PreAuthorize(methods, old(files)[id].deal, user, env, reply);
        files == WithDeal(old(files), id, deal) && error == e
    {
      var existing := files[id].deal.payment;
      assert WithDeal(files, id, files[id].deal) == files;
      if existing.Some? && (existing.value.status == P.Authorized || existing.value.status == P.Captured) {
        return None;
      }
      var chosen := P.FindSupportedMethod(methods, user);
      if chosen.None? {
        return Some(P.NoSupportedMethod);
      }
      var gateway := methods[chosen.value].gateway;
      var amount := P.PreAuthAmount(env, gateway);
      var transaction: Option<Id>;
      error, transaction := PreAuthorizeForGateway(id, gateway, amount, reply);
      if error.Some? {
        return;
      }
      var account := files[id].deal.account;
      if existing.None? {
        var created := P.Payment(user, chosen.value, gateway, P.Authorized, amount, amount, 0, transaction);
        files := files[id := files[id].(deal := P.Deal(Some(created), account))];
      } else {
        var updated := existing.value.(amount := amount, authorizedAmount := amount, gateway := gateway,
                                       transaction := transaction, methodId := chosen.value,
                                       status := P.Authorized);
        files := files[id := files[id].(deal := P.Deal(Some(updated), account.(reauthorised := true)))];
      }
    }

    method PreAuthorizeForGateway(id: nat, gateway: P.Gateway, amount: int, reply: P.Reply)
      returns (error: Option<P.Error>, transaction: Option<Id>)
      requires id < |files| && P.Supported(gateway)
      modifies this`files
      ensures error == if !reply.works then Some(P.Declined)
                       else if gateway == P.Idram && reply.idramBalance < amount then Some(P.IdramBalanceTooLow)
                       else None
      ensures transaction == if error.None? && P.ArcaRouted(gateway) then Some(reply.transaction) else None
      ensures files == WithDeal(old(files), id,
        old(files)[id].deal.(account := old(files)[id].deal.account.(held := old(files)[id].deal.account.held
          + if error.None? && P.ArcaRouted(gateway) then amount else 0)))
    {
      assert WithDeal(files, id, files[id].deal) == files;
      if !reply.works {
        return Some(P.Declined), None;
      }
      if P.ArcaRouted(gateway) {
        var account := files[id].deal.account;
        files := files[id := files[id].(deal := files[id].deal.(account := account.(held := account.held + amount)))];
        return None, Some(reply.transaction);
      }
      return if reply.idramBalance < amount then Some(P.IdramBalanceTooLow) else None, None;
    }

    method CaptureForSession(id: nat, amount: int, reply: P.Reply) returns (error: Option<P.Error>)
      requires id < |files|
      modifies this`files
      ensures var (deal, e) := P.Capture(methods, old(files)[id].deal, amount, reply);
        files == WithDeal(old(files), id, deal) && error == e
    {
      assert WithDeal(files, id, files[id].deal) == files;
      if amount <= 0 {
        return None;
      }
      var payment := files[id].deal.payment;
      if payment.None? || payment.value.status == P.Refunded {
        return None;
      }
      if payment.value.status == P.Captured && payment.value.capturedAmount == amount {
        return None;
      }
      var transaction: Option<Id>;
      error, transaction := CaptureForGateway(id, payment.value, amount, reply);
      if error.Some? {
        return;
      }
      var updated := payment.value.(amount := amount, capturedAmount := amount, status := P.Captured);
      if transaction.Some? {
        updated := updated.(transaction := transaction);
      }
      files := files[id := files[id].(deal := files[id].deal.(payment := Some(updated)))];
    }

    /** The gateway is asked once, unless something it needs is missing. */
    method CaptureForGateway(id: nat, payment: P.Payment, amount: int, reply: P.Reply)
      returns (error: Option<P.Error>, transaction: Option<Id>)
      requires id < |files|
      modifies this`files
      ensures var asked := P.CanCapture(methods, payment).None?;
        && error == (if !asked then P.CanCapture(methods, payment) else if reply.works then None else Some(P.Declined))
        && transaction == (if error.None? && payment.gateway == P.Idram then Some(reply.transaction) else None)
        && files == WithDeal(old(files), id, old(files)[id].deal.(account :=
             if asked then P.AskCapture(old(files)[id].deal.account, payment.gateway, amount, reply.works)
               else old(files)[id].deal.account))
    {
      assert WithDeal(files, id, files[id].deal) == files;
      if P.ArcaRouted(payment.gateway) {
        if payment.transaction.None? {
          return Some(P.TransactionMissing), None;
        }
      } else if payment.gateway == P.Idram {
        if payment.methodId >= |methods| || methods[payment.methodId].gateway != P.Idram {
          return Some(P.MethodMissing), None;
        }
      } else {
        return Some(P.NotSupported(payment.gateway)), None;
      }
      var account := P.AskCapture(files[id].deal.account, payment.gateway, amount, reply.works);
      files := files[id := files[id].(deal := files[id].deal.(account := account))];
      if !reply.works {
        return Some(P.Declined), None;
      }
      return None, if payment.gateway == P.Idram then Some(reply.transaction) else None;
    }

    method RefundForSession(id: nat, reply: P.Reply) returns (error: Option<P.Error>)
      requires id < |files|
      modifies this`files
      ensures var (deal, e) := P.Refund(old(files)[id].deal, reply);
        files == WithDeal(old(files), id, deal) && error == e
    {
      assert WithDeal(files, id, files[id].deal) == files;
      var payment := files[id].deal.payment;
      if payment.None? || payment.value.status == P.Refunded {
        return None;
      }
      error := RefundForGateway(id, payment.value, P.RefundAmount(payment.value), reply);
      if error.Some? {
        return;
      }
      files := files[id := files[id].(deal := files[id].deal.(payment := Some(payment.value.(status := P.Refunded))))];
    }

    method RefundForGateway(id: nat, payment: P.Payment, refundAmount: int, reply: P.Reply)
      returns (error: Option<P.Error>)
      requires id < |files|
      modifies this`files
      ensures var asked := P.CanRefund(payment, refundAmount) == (None, true);
        && error == (if !asked then P.CanRefund(payment, refundAmount).0 else if reply.works then None
                     else Some(P.Declined))
        && files == WithDeal(old(files), id, old(files)[id].deal.(account :=
             if asked then P.AskRefund(old(files)[id].deal.account, refundAmount, reply.works)
               else old(files)[id].deal.account))
    {
      assert WithDeal(files, id, files[id].deal) == files;
      if P.ArcaRouted(payment.gateway) {
        if payment.transaction.None? {
          return Some(P.TransactionMissing);
        }
        if refundAmount <= 0 {
          return None;
        }
      } else if payment.gateway == P.Idram {
        if refundAmount <= 0 {
          return None;
        }
        if payment.transaction.None? {
          return if payment.status == P.Authorized then None else Some(P.TransactionMissing);
        }
      } else {
        return Some(P.NotSupported(payment.gateway));
      }
      var account := P.AskRefund(files[id].deal.account, refundAmount, reply.works);
      files := files[id := files[id].(deal := files[id].deal.(account := account))];
      return if reply.works then None else Some(P.Declined);
    }

    /** Deducts from the wallet and records the payment; a second payment row of the session is refused. */
    method PayFromWallet(id: nat, answers: W.Answers) returns (error: Option<Error>)
      requires id < |files| && P.HasDefaultWallet(methods, files[id].session.user)
      modifies this`files, this`wallets
      ensures var (f, wallets', e) := WalletPaid(methods, old(wallets), old(files)[id], answers);
        files == old(files)[id := f] && wallets == wallets' && error == e
    {
      assert files[id := files[id]] == files;
      var amount, user := files[id].session.totalCost, files[id].session.user;
      var (wallets', phase) := Deduct(wallets, user, amount, answers);
      wallets := wallets';
      if phase != W.Done {
        return Some(WalletRefused(phase));
      }
      var account := files[id].deal.account;
      account := account.(deductions := account.deductions + 1);
      files := files[id := files[id].(deal := files[id].deal.(account := account))];
      if files[id].deal.payment.Some? {
        return Some(PaymentExists);
      }
      var payment := P.Payment(user, WalletMethod(methods, user), P.WalletGateway, P.Captured, amount, amount, amount,
                               None);
      files := files[id := files[id].(deal := files[id].deal.(payment := Some(payment)))];
      return None;
    }

    // ----- requests from charge points -----

    method HandleStartTransaction(connector: Option<Id>, idTagUser: Option<Id>, at: int)
      returns (error: Option<Error>, transactionId: int)
      modifies this`files, this`nextTransactionId
      ensures (Tables(), error) == Step(old(Tables()), StartTransaction(connector, idTagUser, at))
      ensures transactionId == if error.None? then old(nextTransactionId) else 0
    {
      if connector.None? {
        return Some(InvalidIdTag), 0;
      }
      if idTagUser.None? {
        return Some(InvalidIdTag), 0;
      }
      transactionId := nextTransactionId;
      nextTransactionId := nextTransactionId + 1;
      files := files + [NewFile(idTagUser.value, None, connector, Active, Some(at), Some(transactionId))];
      error := None;
    }

    method HandleStopTransaction(chargePoint: Id, transactionId: int, at: int, metering: Metering, reply: P.Reply)
      modifies this`files
      ensures Tables() == Step(old(Tables()), StopTransaction(chargePoint, transactionId, at, metering, reply)).0
    {
      var id := FindForStop(Tables(), chargePoint, transactionId, |files|);
      if id == |files| {
        return;
      }
      if files[id].session.status == Completed {
        return;
      }
      var cost := FinalCost(files[id].session, metering, at);
      var f := SetStatus(files[id], Completed);
      files := files[id := f.(session := f.session.(endTime := Some(at), totalCost := cost))];
      var ignored := CaptureForSession(id, cost, reply);
    }

    method SetWalletAsPaymentMethod(user: Id, token: Id)
      modifies this`methods
      ensures Tables() == Step(old(Tables()), SetWallet(user, token)).0
    {
      var existing := P.FindMethod(methods, user, P.WalletGateway, None);
      var found := existing < |methods|;
      methods := P.ClearDefaults(methods, user);
      if found {
        methods := methods[existing := methods[existing].(isDefault := true)];
      } else {
        methods := methods + [P.Method(user, P.WalletGateway, token, true)];
      }
    }

    method ExchangePaymentToken(user: Id, gateway: P.Gateway, token: Id, isDefault: Option<bool>)
      modifies this`methods
      ensures Tables() == Step(old(Tables()), ExchangeToken(user, gateway, token, isDefault)).0
    {
      var existing := P.FindMethod(methods, user, gateway, Some(token));
      var before := methods;
      if isDefault == Some(true) {
        methods := P.ClearDefaults(methods, user);
      }
      if existing == |methods| {
        methods := methods + [P.Method(user, gateway, token, isDefault == Some(true))];
      } else {
        var flag := if isDefault.Some? then isDefault.value else before[existing].isDefault;
        methods := methods[existing := methods[existing].(isDefault := flag, token := token)];
      }
      assert methods == P.ExchangeToken(before, user, gateway, token, isDefault);
    }
  }
}
