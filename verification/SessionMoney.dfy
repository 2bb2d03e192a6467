/** Who is charged for a session, and what becomes of the money that a card holds for it. */
module SessionMoney {
  import opened Text
  import opened Sessions
  import P = Payments
  import W = Wallets
  import B = Billing

  // ----- starting -----

  lemma StartIsFunded(methods: seq<P.Method>, wallets: W.Wallets, f: File, at: int, env: P.Env, reply: P.Reply)
    requires FileOk(methods, f) && f.session.status != Active
    ensures var (f', error) := StartFile(methods, wallets, f, at, env, reply);
      f'.session.status == Active ==>
        && error.None? && f'.session.startTime == Some(at)
        && if P.HasDefaultWallet(methods, f.session.user) then
             f.session.user in wallets && MinimumBalance(env) <= wallets[f.session.user].balance
           else f'.deal.payment.Some? && f'.deal.payment.value.status == P.Authorized
  {
    if f.session.status == Pending || f.session.status == Authorized {
      P.PreAuthorizeKeepsDeal(methods, f.deal, f.session.user, env, reply);
    }
  }

  lemma OnlyStartActivates(w: World, e: Event, id: nat)
    requires Invariant(w) && Enabled(w, e) && id < |w.files|
    requires w.files[id].session.status != Active && Step(w, e).0.files[id].session.status == Active
    ensures e.StartSession? && e.session == id && e.user == w.files[id].session.user
  {
    assert FileOk(w.methods, w.files[id]);
  }

  /** Main result: only a start request makes an existing session active, and then it is funded: by a card or
      Idram authorisation, or by a default wallet with at least the minimum balance. */
  lemma ActivationIsFunded(w: World, e: Event, id: nat)
    requires Invariant(w) && Enabled(w, e) && id < |w.files|
    requires w.files[id].session.status != Active && Step(w, e).0.files[id].session.status == Active
    ensures e.StartSession? && e.session == id && e.user == w.files[id].session.user && Step(w, e).1.None?
    ensures Step(w, e).0.files[id].session.startTime == Some(e.at)
    ensures var payment := Step(w, e).0.files[id].deal.payment;
      if P.HasDefaultWallet(w.methods, e.user) then
        e.user in w.wallets && MinimumBalance(e.env) <= w.wallets[e.user].balance
      else payment.Some? && payment.value.status == P.Authorized
  {
    OnlyStartActivates(w, e, id);
    assert FileOk(w.methods, w.files[id]);
    StartIsFunded(w.methods, w.wallets, w.files[id], e.at, e.env, e.reply);
  }

  // ----- charging -----

  /** A deduction is paid exactly when it is positive and covered and its transaction commits; otherwise at
      most an empty wallet is created. */
  lemma WalletPays(wallets: W.Wallets, user: Id, amount: int, answers: W.Answers)
    ensures var s := W.Undisturbed(W.State(wallets, [W.Opened(user, W.Deduction, amount, W.Arca)], map[]), answers);
      var phase := s.requests[0].phase;
      && (phase == W.Done <==> user in wallets && 0 < amount <= wallets[user].balance && answers.commit)
      && (phase == W.Done ==> s.wallets == wallets[user := W.Post(wallets[user], W.Deduction, amount)])
      && (phase != W.Done ==>
           s.wallets == wallets || (user !in wallets && s.wallets == wallets[user := W.Wallet(0, [])]))
  {
    DeductIsUndisturbed(wallets, user, amount, answers);
  }

  /** Somebody has paid for the session: the wallet, or the gateway in a capture that worked. */
  predicate Charged(f: File) {
    f.deal.account.deductions == 1 || (f.deal.payment.Some? && f.deal.payment.value.status == P.Captured)
  }

  /** Whether a stop finds someone to pay, and who pays can. */
  predicate CanPay(methods: seq<P.Method>, wallets: W.Wallets, f: File, reply: P.Reply, answers: W.Answers) {
    if P.HasDefaultWallet(methods, f.session.user) then
      f.session.user in wallets && f.session.totalCost <= wallets[f.session.user].balance && answers.commit
    else f.deal.payment.Some? && reply.works
  }

  predicate Stoppable(f: File, at: int) {
    f.session.status == Active && (f.session.startTime.Some? ==> f.session.startTime.value <= at)
  }

  lemma StopFileCharges(methods: seq<P.Method>, wallets: W.Wallets, f: File, at: int, reply: P.Reply,
                        answers: W.Answers)
    requires FileOk(methods, f) && !Charged(f)
    ensures var f' := StopFile(methods, wallets, f, at, reply, answers).0;
      Charged(f') <==> Stoppable(f, at) && f.session.totalCost > 0 && CanPay(methods, wallets, f, reply, answers)
  {
    if Stoppable(f, at) {
      CompleteKeepsFile(methods, f, at);
      if !P.HasDefaultWallet(methods, f.session.user) {
        P.CaptureKeepsDeal(methods, f.deal, f.session.totalCost, reply);
      }
    }
  }

  lemma StartDoesNotCharge(methods: seq<P.Method>, wallets: W.Wallets, f: File, at: int, env: P.Env, reply: P.Reply)
    requires FileOk(methods, f) && !Charged(f)
    ensures !Charged(StartFile(methods, wallets, f, at, env, reply).0)
  {}

  lemma TransitionDoesNotCharge(f: File, to: SessionStatus, reply: P.Reply)
    requires !Charged(f)
    ensures !Charged(Transition(f, to, reply).0)
  {}

  /** StopTransaction does ask for a capture, but a session that it can find has no payment left to capture. */
  lemma StopTransactionCapturesNothing(methods: seq<P.Method>, f: File, at: int, cost: int, reply: P.Reply)
    requires FileOk(methods, f) && f.session.transactionId.Some?
    ensures StopTransactionFile(methods, f, at, cost, reply).deal == f.deal
  {}

  /** Pre-authorising, refunding and StopTransaction charge nobody. */
  lemma NothingElseCharges(w: World, e: Event, id: nat)
    requires Invariant(w) && Enabled(w, e) && id < |w.files| && !e.StopSession? && !Charged(w.files[id])
    ensures !Charged(Step(w, e).0.files[id])
  {
    var f := w.files[id];
    assert FileOk(w.methods, f);
    match e
    case StartSession(_, _, at, env, reply) => StartDoesNotCharge(w.methods, w.wallets, f, at, env, reply);
    case StopTransaction(chargePoint, transactionId, at, metering, reply) =>
      if FindForStop(w, chargePoint, transactionId, |w.files|) == id {
        StopTransactionCapturesNothing(w.methods, f, at, FinalCost(f.session, metering, at), reply);
      }
    case CancelOrFail(_, to, reply) => TransitionDoesNotCharge(f, to, reply);
    case _ =>
  }

  /** Main result: the only way in which a session is ever charged is a stop by its owner, of an active
      session, not before its start, with a positive cost, where the default wallet covers the cost or,
      without a default wallet, there is a payment that the gateway captures. */
  lemma ChargedExactlyWhen(w: World, e: Event, id: nat)
    requires Invariant(w) && Enabled(w, e) && id < |w.files| && !Charged(w.files[id])
    ensures Charged(Step(w, e).0.files[id]) <==>
      && e.StopSession? && e.session == id && e.user == w.files[id].session.user && Stoppable(w.files[id], e.at)
      && w.files[id].session.totalCost > 0 && CanPay(w.methods, w.wallets, w.files[id], e.reply, e.answers)
  {
    assert FileOk(w.methods, w.files[id]);
    if e.StopSession? {
      StopFileCharges(w.methods, w.wallets, w.files[id], e.at, e.reply, e.answers);
    } else {
      NothingElseCharges(w, e, id);
    }
  }

  lemma SuccessfulStopOfFile(methods: seq<P.Method>, wallets: W.Wallets, f: File, at: int, reply: P.Reply,
                             answers: W.Answers)
    requires FileOk(methods, f) && StopFile(methods, wallets, f, at, reply, answers).2.None?
    ensures var (f', wallets', _) := StopFile(methods, wallets, f, at, reply, answers);
      var cost, account := f.session.totalCost, f'.deal.account;
      && f.session.status == Active && f'.session == f.session.(status := Completed, endTime := Some(at))
      && (account.captures + account.deductions == 1 <==>
           cost > 0 && (P.HasDefaultWallet(methods, f.session.user) || f.deal.payment.Some?))
      && (account.captures + account.deductions == 1 ==>
           && f'.deal.payment.Some? && f'.deal.payment.value.status == P.Captured
           && f'.deal.payment.value.capturedAmount == cost)
      && (account.deductions == 1 ==>
           && account == P.NO_MONEY.(deductions := 1) && f.session.user in wallets
           && cost <= wallets[f.session.user].balance
           && wallets' == wallets[f.session.user := W.Post(wallets[f.session.user], W.Deduction, cost)])
      && (account.captures == 1 ==> account == P.NO_MONEY.(captures := 1, held := cost) && wallets' == wallets)
      && (account.captures + account.deductions == 0 ==> f'.deal == f.deal && wallets' == wallets)
  {
    if f.session.status == Active {
      CompleteKeepsFile(methods, f, at);
      if !P.HasDefaultWallet(methods, f.session.user) {
        P.CaptureKeepsDeal(methods, f.deal, f.session.totalCost, reply);
      }
    }
  }

  /** Main result: what a stop without an error has charged. It charged somebody exactly when the cost is
      positive and there is a default wallet or a payment; then exactly the cost, to the wallet, which falls
      by it, or through the gateway, which has taken it and no more. Otherwise, also with a positive cost, it
      charged nobody and changed no payment and no wallet. */
  lemma SuccessfulStopCharges(w: World, user: Id, id: nat, at: int, reply: P.Reply, answers: W.Answers)
    requires Invariant(w) && Step(w, Event.StopSession(user, id, at, reply, answers)).1.None?
    ensures id < |w.files|
    ensures var (w', f) := (Step(w, Event.StopSession(user, id, at, reply, answers)).0, w.files[id]);
      var f', cost := w'.files[id], f.session.totalCost;
      var account := f'.deal.account;
      && f.session.status == Active && f'.session == f.session.(status := Completed, endTime := Some(at))
      && (account.captures + account.deductions == 1 <==>
           cost > 0 && (P.HasDefaultWallet(w.methods, user) || f.deal.payment.Some?))
      && (account.captures + account.deductions == 1 ==>
           && f'.deal.payment.Some? && f'.deal.payment.value.status == P.Captured
           && f'.deal.payment.value.capturedAmount == cost)
      && (account.deductions == 1 ==>
           && account == P.NO_MONEY.(deductions := 1) && user in w.wallets && cost <= w.wallets[user].balance
           && w'.wallets == w.wallets[user := W.Post(w.wallets[user], W.Deduction, cost)])
      && (account.captures == 1 ==> account == P.NO_MONEY.(captures := 1, held := cost) && w'.wallets == w.wallets)
      && (account.captures + account.deductions == 0 ==> f'.deal == f.deal && w'.wallets == w.wallets)
  {
    assert FileOk(w.methods, w.files[id]);
    SuccessfulStopOfFile(w.methods, w.wallets, w.files[id], at, reply, answers);
  }

  // ----- what the services charge by themselves -----

  /** Nothing but the services writes a cost. */
  predicate Unpriced(events: seq<Event>) {
    forall k :: 0 <= k < |events| ==> !events[k].RecordCost?
  }

  /** No request writes a cost to a session that has a payment. */
  predicate Uncharged(f: File) {
    && f.deal.account.captures == 0 && f.deal.account.deductions == 0
    && (f.session.transactionId.None? ==> f.session.totalCost == 0)
    && (f.session.transactionId.Some? ==> f.deal.payment.None?)
    && (f.session.status != Completed ==> f.session.totalCost == 0)
  }

  lemma DeductNothing(wallets: W.Wallets, user: Id, answers: W.Answers)
    ensures Deduct(wallets, user, 0, answers) == (wallets, W.Failed(W.AmountNotPositive))
  {}

  lemma StopKeepsUncharged(methods: seq<P.Method>, wallets: W.Wallets, f: File, at: int, reply: P.Reply,
                           answers: W.Answers)
    requires Uncharged(f)
    ensures Uncharged(StopFile(methods, wallets, f, at, reply, answers).0)
  {
    DeductNothing(wallets, f.session.user, answers);
  }

  lemma StartKeepsUncharged(methods: seq<P.Method>, wallets: W.Wallets, f: File, at: int, env: P.Env, reply: P.Reply)
    requires Uncharged(f) && FileOk(methods, f)
    ensures Uncharged(StartFile(methods, wallets, f, at, env, reply).0)
  {}

  lemma OthersKeepUncharged(methods: seq<P.Method>, f: File, at: int, cost: int, to: SessionStatus, reply: P.Reply)
    requires Uncharged(f)
    ensures f.session.transactionId.Some? ==> Uncharged(StopTransactionFile(methods, f, at, cost, reply))
    ensures Uncharged(Transition(f, to, reply).0)
  {}

  lemma StepKeepsUncharged(w: World, e: Event, id: nat)
    requires !e.RecordCost? && id < |w.files| && Uncharged(w.files[id]) && FileOk(w.methods, w.files[id])
    ensures Uncharged(Step(w, e).0.files[id])
  {
    var f := w.files[id];
    match e
    case StartSession(_, k, at, env, reply) => StartKeepsUncharged(w.methods, w.wallets, f, at, env, reply);
    case StopSession(_, k, at, reply, answers) => StopKeepsUncharged(w.methods, w.wallets, f, at, reply, answers);
    case StopTransaction(_, _, at, metering, reply) =>
      OthersKeepUncharged(w.methods, f, at, FinalCost(f.session, metering, at), Completed, reply);
    case CancelOrFail(_, to, reply) => OthersKeepUncharged(w.methods, f, 0, 0, to, reply);
    case _ =>
  }

  predicate AllUncharged(w: World) {
    forall id :: 0 <= id < |w.files| ==> Uncharged(w.files[id])
  }

  lemma StepKeepsAllUncharged(w: World, e: Event)
    requires Invariant(w) && AllUncharged(w) && !e.RecordCost?
    ensures AllUncharged(Step(w, e).0)
  {
    forall id | 0 <= id < |Step(w, e).0.files| ensures Uncharged(Step(w, e).0.files[id]) {
      if id < |w.files| {
        StepKeepsUncharged(w, e, id);
      }
    }
  }

  lemma {:induction false} RunKeepsUncharged(w: World, events: seq<Event>)
    requires Fresh(w) && EnabledRun(w, events) && Unpriced(events)
    ensures AllUncharged(Run(w, events))
  {
    if events != [] {
      var before := events[..|events| - 1];
      RunKeepsUncharged(w, before);
      RunKeepsInvariant(w, before);
      StepKeepsAllUncharged(Run(w, before), events[|events| - 1]);
    }
  }

  /** Main result: a session is captured or paid from a wallet only in a run in which something other than
      these requests wrote its cost. Sessions started over REST are priced by nobody, and sessions started
      by a charge point have no payment. */
  lemma NothingIsChargedByItself(w: World, events: seq<Event>, id: nat)
    requires Fresh(w) && EnabledRun(w, events) && id < |Run(w, events).files|
    requires Unpriced(events)
    ensures var account := Run(w, events).files[id].deal.account;
      account.captures == 0 && account.deductions == 0
  {
    RunKeepsUncharged(w, events);
  }

  // ----- what a card holds -----

  predicate CardPaid(f: File) {
    f.deal.payment.Some? && P.ArcaRouted(f.deal.payment.value.gateway)
  }

  /** The card's hold was turned into the cost, or given back. */
  predicate Settled(f: File) {
    && f.deal.payment.Some?
    && ((f.deal.payment.value.status == P.Captured && f.deal.account.held == f.session.totalCost)
        || (f.deal.payment.value.status == P.Refunded && f.deal.account.held == 0))
  }

  /** The whole authorised amount is still held. */
  predicate Stranded(f: File) {
    && f.deal.payment.Some? && f.deal.payment.value.status == P.Authorized
    && f.deal.account.held == f.deal.payment.value.authorizedAmount && f.deal.account.held > 0
  }

  /** What the request that finishes a session must meet for the card's hold to be settled. */
  predicate SettlesHold(w: World, e: Event, f: File) {
    match e
    case StopSession(user, _, _, reply, _) =>
      !P.HasDefaultWallet(w.methods, user) && f.session.totalCost > 0 && reply.works
    case CancelOrFail(_, _, reply) => reply.works
    case _ => false
  }

  lemma StopSettlesHold(w: World, e: Event, id: nat)
    requires Invariant(w) && e.StopSession? && e.session == id && Owns(w, e.user, id)
    requires Stoppable(w.files[id], e.at) && CardPaid(w.files[id])
    ensures var f' := Step(w, e).0.files[id];
      if SettlesHold(w, e, w.files[id]) then Settled(f') && f'.deal.account.deductions == 0 else Stranded(f')
  {
    var f := w.files[id];
    assert FileOk(w.methods, f);
    CompleteKeepsFile(w.methods, f, e.at);
    if !P.HasDefaultWallet(w.methods, e.user) {
      P.CaptureKeepsDeal(w.methods, f.deal, f.session.totalCost, e.reply);
    }
  }

  lemma CancelSettlesHold(methods: seq<P.Method>, f: File, to: SessionStatus, reply: P.Reply)
    requires FileOk(methods, f) && CardPaid(f) && !Finished(f) && (to == Cancelled || to == Failed)
    ensures var f' := Transition(f, to, reply).0;
      Finished(f') ==> if reply.works then Settled(f') else Stranded(f')
  {
    P.RefundKeepsDeal(methods, f.deal, reply);
  }

  lemma StartFinishesNothing(methods: seq<P.Method>, wallets: W.Wallets, f: File, at: int, env: P.Env, reply: P.Reply)
    requires !Finished(f)
    ensures !Finished(StartFile(methods, wallets, f, at, env, reply).0)
  {}

  /** A session with a card payment is finished by a stop of its owner, or cancelled or failed. */
  lemma CardPaidIsFinishedBy(w: World, e: Event, id: nat)
    requires Invariant(w) && Enabled(w, e) && id < |w.files| && CardPaid(w.files[id])
    requires !Finished(w.files[id]) && Finished(Step(w, e).0.files[id])
    ensures (e.StopSession? && e.session == id && Owns(w, e.user, id) && Stoppable(w.files[id], e.at))
         || (e.CancelOrFail? && e.session == id)
  {
    assert FileOk(w.methods, w.files[id]);
    if e.StartSession? {
      StartFinishesNothing(w.methods, w.wallets, w.files[id], e.at, e.env, e.reply);
    }
  }

  /** Main result: the request that finishes a session with a card payment settles the card's hold exactly
      when it is a stop with a positive cost, without a default wallet, that the gateway captures, or a
      cancellation or failure that the gateway refunds. Otherwise the whole hold stays, for ever. */
  lemma HoldIsSettledExactlyWhen(w: World, e: Event, id: nat, later: seq<Event>)
    requires Invariant(w) && Enabled(w, e) && id < |w.files| && CardPaid(w.files[id])
    requires !Finished(w.files[id]) && Finished(Step(w, e).0.files[id]) && EnabledRun(Step(w, e).0, later)
    ensures id < |Run(Step(w, e).0, later).files|
    ensures var f' := Run(Step(w, e).0, later).files[id];
      && (Settled(f') <==> SettlesHold(w, e, w.files[id]))
      && (Stranded(f') <==> !SettlesHold(w, e, w.files[id]))
  {
    var f := w.files[id];
    assert FileOk(w.methods, f);
    CardPaidIsFinishedBy(w, e, id);
    if e.StopSession? {
      StopSettlesHold(w, e, id);
    } else {
      CancelSettlesHold(w.methods, f, e.to, e.reply);
    }
    StepKeepsInvariant(w, e);
    FinishedSessionsAreFrozen(Step(w, e).0, later, id);
  }

  /** Main result: as long as nothing but the services writes costs, every completed session with a card
      payment keeps the whole hold, and it does so for ever, whatever follows. */
  lemma UnpricedHoldsAreStranded(w: World, events: seq<Event>, id: nat, later: seq<Event>)
    requires Fresh(w) && EnabledRun(w, events) && Unpriced(events)
    requires id < |Run(w, events).files|
    requires CardPaid(Run(w, events).files[id]) && Run(w, events).files[id].session.status == Completed
    requires EnabledRun(Run(w, events), later)
    ensures id < |Run(Run(w, events), later).files| && Stranded(Run(Run(w, events), later).files[id])
  {
    RunKeepsInvariant(w, events);
    RunKeepsUncharged(w, events);
    assert FileOk(Run(w, events).methods, Run(w, events).files[id]);
    FinishedSessionsAreFrozen(Run(w, events), later, id);
  }

  /** An active session whose card was authorised, and whose user has since made a wallet that covers the
      cost the default method. */
  predicate SwitchedToWallet(w: World, id: nat, at: int) {
    && id < |w.files| && Stoppable(w.files[id], at) && CardPaid(w.files[id])
    && P.HasDefaultWallet(w.methods, w.files[id].session.user)
    && w.files[id].session.user in w.wallets
    && 0 < w.files[id].session.totalCost <= w.wallets[w.files[id].session.user].balance
  }

  /** Then the wallet pays, the payment row of the card stands in the way of recording it, and the card's
      hold stays for ever on top. */
  lemma SwitchingToTheWalletStrandsTheHold(w: World, id: nat, at: int, reply: P.Reply, answers: W.Answers,
                                           events: seq<Event>)
    requires Invariant(w) && SwitchedToWallet(w, id, at) && answers.commit
    requires var stop := Event.StopSession(w.files[id].session.user, id, at, reply, answers);
      EnabledRun(Step(w, stop).0, events)
    ensures var (w', error) := Step(w, Event.StopSession(w.files[id].session.user, id, at, reply, answers));
      && error == Some(PaymentExists)
      && id < |Run(w', events).files|
      && var account := Run(w', events).files[id].deal.account;
         account.deductions == 1 && account.held == w.files[id].deal.payment.value.authorizedAmount && account.held > 0
  {
    var f := w.files[id];
    var stop := Event.StopSession(f.session.user, id, at, reply, answers);
    assert FileOk(w.methods, f);
    StepKeepsInvariant(w, stop);
    FinishedSessionsAreFrozen(Step(w, stop).0, events, id);
  }

  // ----- runs that get there -----

  lemma RunThen(w: World, events: seq<Event>, middle: World, e: Event)
    requires EnabledRun(w, events) && Run(w, events) == middle && Enabled(middle, e)
    ensures EnabledRun(w, events + [e]) && Run(w, events + [e]) == Step(middle, e).0
  {
    RunExtends(w, events, e);
  }

  lemma UnpricedThen(events: seq<Event>, e: Event)
    requires Unpriced(events) && !e.RecordCost?
    ensures Unpriced(events + [e])
  {}

  lemma CreateStep(w: World, user: Id)
    requires w.files == []
    ensures Step(w, Event.CreateSession(user, true, None, None)).0
         == w.(files := [NewFile(user, None, None, Pending, None, None)])
  {}

  lemma StartStep(w: World, f: File, at: int, env: P.Env, reply: P.Reply)
    requires w.files == [f]
    ensures Step(w, Event.StartSession(f.session.user, 0, at, env, reply)).0
         == w.(files := [StartFile(w.methods, w.wallets, f, at, env, reply).0])
  {
    var started := StartFile(w.methods, w.wallets, f, at, env, reply).0;
    assert w.files[0 := started] == [started];
  }

  lemma CostStep(w: World, f: File, cost: int)
    requires w.files == [f]
    ensures Step(w, RecordCost(0, cost)).0 == w.(files := [f.(session := f.session.(totalCost := cost))])
  {
    var priced := f.(session := f.session.(totalCost := cost));
    assert w.files[0 := priced] == [priced];
  }

  lemma StopStep(w: World, f: File, at: int, reply: P.Reply, answers: W.Answers)
    requires w.files == [f]
    ensures var (f', wallets', error) := StopFile(w.methods, w.wallets, f, at, reply, answers);
      Step(w, Event.StopSession(f.session.user, 0, at, reply, answers))
      == (w.(files := [f'], wallets := wallets'), error)
  {
    var stopped := StopFile(w.methods, w.wallets, f, at, reply, answers).0;
    assert w.files[0 := stopped] == [stopped];
  }

  /** A database without sessions and without payment methods; there may be wallets. */
  function EmptyWorld(wallets: W.Wallets): (w: World)
    ensures Fresh(w)
  {
    World([], [], wallets, 1, map[], map[])
  }

  /** One user has one card, stored through Apple Pay. */
  function OneCard(user: Id, card: Id): seq<P.Method> {
    [P.Method(user, P.ApplePay, card, true)]
  }

  lemma StoringOneCard(user: Id, card: Id)
    ensures P.ExchangeToken([], user, P.ApplePay, card, Some(true)) == OneCard(user, card)
    ensures P.FindSupportedMethod(OneCard(user, card), user) == Some(0)
    ensures !P.HasDefaultWallet(OneCard(user, card), user)
  {}

  /** The user's file once the card was authorised and the session became active. */
  function CardFile(user: Id, authorisation: Id, cost: int): File {
    File(Session(user, None, None, Active, Some(10), None, cost, None),
         P.Deal(Some(P.Payment(user, 0, P.ApplePay, P.Authorized, 5000, 5000, 0, Some(authorisation))),
                P.NO_MONEY.(held := 5000)),
         [Pending, Authorized, Active])
  }

  lemma CardIsAuthorised(wallets: W.Wallets, user: Id, card: Id, reply: P.Reply)
    requires reply.works
    ensures StartFile(OneCard(user, card), wallets, NewFile(user, None, None, Pending, None, None), 10,
                      P.Env(None, None, None), reply)
      == (CardFile(user, reply.transaction, 0), None)
  {
    StoringOneCard(user, card);
    assert [Pending] + [Authorized] + [Active] == [Pending, Authorized, Active];
  }

  function CardWorld(user: Id, card: Id, wallets: W.Wallets, files: seq<File>): World {
    EmptyWorld(wallets).(files := files, methods := OneCard(user, card))
  }

  lemma StoringCardRuns(w: World, user: Id, card: Id)
    requires w.methods == []
    ensures var store := Event.ExchangeToken(user, P.ApplePay, card, Some(true));
      EnabledRun(w, [] + [store]) && Run(w, [] + [store]) == w.(methods := OneCard(user, card))
  {
    RunThen(w, [], w, Event.ExchangeToken(user, P.ApplePay, card, Some(true)));
    StoringOneCard(user, card);
  }

  lemma CardStored(user: Id, card: Id, wallets: W.Wallets) returns (events: seq<Event>)
    ensures EnabledRun(EmptyWorld(wallets), events) && Unpriced(events)
    ensures Run(EmptyWorld(wallets), events) == CardWorld(user, card, wallets, [])
  {
    StoringCardRuns(EmptyWorld(wallets), user, card);
    events := [] + [Event.ExchangeToken(user, P.ApplePay, card, Some(true))];
  }

  lemma CardPending(user: Id, card: Id, wallets: W.Wallets) returns (events: seq<Event>)
    ensures EnabledRun(EmptyWorld(wallets), events) && Unpriced(events)
    ensures Run(EmptyWorld(wallets), events)
         == CardWorld(user, card, wallets, [NewFile(user, None, None, Pending, None, None)])
  {
    var stored := CardStored(user, card, wallets);
    var create := Event.CreateSession(user, true, None, None);
    CreateStep(CardWorld(user, card, wallets, []), user);
    RunThen(EmptyWorld(wallets), stored, CardWorld(user, card, wallets, []), create);
    UnpricedThen(stored, create);
    events := stored + [create];
  }

  /** Storing a card, creating and starting a session. */
  lemma CardRun(user: Id, card: Id, wallets: W.Wallets, reply: P.Reply) returns (events: seq<Event>)
    requires reply.works
    ensures EnabledRun(EmptyWorld(wallets), events) && Unpriced(events)
    ensures Run(EmptyWorld(wallets), events)
         == CardWorld(user, card, wallets, [CardFile(user, reply.transaction, 0)])
  {
    var created := CardPending(user, card, wallets);
    var pending := NewFile(user, None, None, Pending, None, None);
    var start := Event.StartSession(user, 0, 10, P.Env(None, None, None), reply);
    StartStep(CardWorld(user, card, wallets, [pending]), pending, 10, P.Env(None, None, None), reply);
    CardIsAuthorised(wallets, user, card, reply);
    RunThen(EmptyWorld(wallets), created, CardWorld(user, card, wallets, [pending]), start);
    UnpricedThen(created, start);
    events := created + [start];
  }

  /** Stopping then strands the hold: no error, no default wallet, and no other writer of costs is needed. */
  lemma FreeStopStrandsTheHold(user: Id, card: Id, wallets: W.Wallets, reply: P.Reply, answers: W.Answers)
    returns (events: seq<Event>, stop: Event)
    requires reply.works
    ensures var w := EmptyWorld(wallets);
      && EnabledRun(w, events + [stop]) && Unpriced(events + [stop]) && stop.StopSession?
      && Run(w, events + [stop]) == Step(Run(w, events), stop).0 && Step(Run(w, events), stop).1.None?
      && |Run(w, events + [stop]).files| == 1
      && var f := Run(w, events + [stop]).files[0];
         f.session.status == Completed && Stranded(f) && f.deal.account == P.NO_MONEY.(held := 5000)
  {
    var f := CardFile(user, reply.transaction, 0);
    events := CardRun(user, card, wallets, reply);
    stop := Event.StopSession(user, 0, 20, reply, answers);
    StoringOneCard(user, card);
    StopStep(CardWorld(user, card, wallets, [f]), f, 20, reply, answers);
    RunThen(EmptyWorld(wallets), events, CardWorld(user, card, wallets, [f]), stop);
    UnpricedThen(events, stop);
  }

  lemma PricedCardRun(user: Id, card: Id, wallets: W.Wallets, reply: P.Reply, cost: int) returns (events: seq<Event>)
    requires reply.works
    ensures EnabledRun(EmptyWorld(wallets), events)
    ensures Run(EmptyWorld(wallets), events)
         == CardWorld(user, card, wallets, [CardFile(user, reply.transaction, cost)])
  {
    var f := CardFile(user, reply.transaction, 0);
    var started := CardRun(user, card, wallets, reply);
    CostStep(CardWorld(user, card, wallets, [f]), f, cost);
    RunThen(EmptyWorld(wallets), started, CardWorld(user, card, wallets, [f]), RecordCost(0, cost));
    events := started + [RecordCost(0, cost)];
  }

  /** When a cost is written, stopping this session captures it: the bound of one charge is reached. */
  lemma WrittenCostIsCharged(user: Id, card: Id, wallets: W.Wallets, reply: P.Reply, answers: W.Answers, cost: int)
    returns (events: seq<Event>)
    requires reply.works && cost > 0
    ensures var w := EmptyWorld(wallets);
      && EnabledRun(w, events) && |Run(w, events).files| == 1
      && Run(w, events).files[0].deal.account == P.NO_MONEY.(captures := 1, held := cost)
  {
    var f := CardFile(user, reply.transaction, cost);
    var priced := PricedCardRun(user, card, wallets, reply, cost);
    var stop := Event.StopSession(user, 0, 20, reply, answers);
    StoringOneCard(user, card);
    StopStep(CardWorld(user, card, wallets, [f]), f, 20, reply, answers);
    RunThen(EmptyWorld(wallets), priced, CardWorld(user, card, wallets, [f]), stop);
    events := priced + [stop];
  }

  /** The switch to the wallet is reached too, for every positive cost that the wallet covers. */
  lemma SwitchIsReached(user: Id, card: Id, token: Id, wallets: W.Wallets, reply: P.Reply, cost: int)
    returns (events: seq<Event>)
    requires reply.works && user in wallets && 0 < cost <= wallets[user].balance
    ensures var w := EmptyWorld(wallets);
      EnabledRun(w, events) && Invariant(Run(w, events)) && SwitchedToWallet(Run(w, events), 0, 20)
  {
    var w := EmptyWorld(wallets);
    var priced := PricedCardRun(user, card, wallets, reply, cost);
    var switch := Event.SetWallet(user, token);
    RunThen(w, priced, CardWorld(user, card, wallets, [CardFile(user, reply.transaction, cost)]), switch);
    assert P.OneDefault(OneCard(user, card));
    P.SetWalletKeepsOneDefault(OneCard(user, card), user, token);
    events := priced + [switch];
    RunKeepsInvariant(w, events);
  }

  // ----- the cost nobody pays -----

  /** A session that was started on the wallet has no payment row. */
  function WalletFile(user: Id, cost: int): File {
    File(Session(user, None, None, Active, Some(10), None, cost, None), P.Deal(None, P.NO_MONEY),
         [Pending, Authorized, Active])
  }

  function OneWallet(user: Id, token: Id): seq<P.Method> {
    [P.Method(user, P.WalletGateway, token, true)]
  }

  lemma WalletIsEnough(wallets: W.Wallets, user: Id, token: Id, reply: P.Reply)
    requires user in wallets && DEFAULT_MINIMUM_BALANCE_AMD <= wallets[user].balance
    ensures StartFile(OneWallet(user, token), wallets, NewFile(user, None, None, Pending, None, None), 10,
                      P.Env(None, None, None), reply)
      == (WalletFile(user, 0), None)
  {
    assert OneWallet(user, token)[0].isDefault && P.HasDefaultWallet(OneWallet(user, token), user);
    assert [Pending] + [Authorized] + [Active] == [Pending, Authorized, Active];
  }

  function WalletWorld(methods: seq<P.Method>, wallets: W.Wallets, files: seq<File>): World {
    EmptyWorld(wallets).(files := files, methods := methods)
  }

  lemma PreferringWalletRuns(w: World, user: Id, token: Id)
    requires w.methods == []
    ensures var prefer := Event.SetWallet(user, token);
      EnabledRun(w, [] + [prefer]) && Run(w, [] + [prefer]) == w.(methods := OneWallet(user, token))
  {
    RunThen(w, [], w, Event.SetWallet(user, token));
    assert P.SetWallet([], user, token) == OneWallet(user, token);
  }

  lemma WalletStored(user: Id, token: Id, wallets: W.Wallets) returns (events: seq<Event>)
    ensures EnabledRun(EmptyWorld(wallets), events)
    ensures Run(EmptyWorld(wallets), events) == WalletWorld(OneWallet(user, token), wallets, [])
  {
    PreferringWalletRuns(EmptyWorld(wallets), user, token);
    events := [] + [Event.SetWallet(user, token)];
  }

  lemma WalletPending(user: Id, token: Id, wallets: W.Wallets) returns (events: seq<Event>)
    ensures EnabledRun(EmptyWorld(wallets), events)
    ensures Run(EmptyWorld(wallets), events)
         == WalletWorld(OneWallet(user, token), wallets, [NewFile(user, None, None, Pending, None, None)])
  {
    var stored := WalletStored(user, token, wallets);
    var create := Event.CreateSession(user, true, None, None);
    CreateStep(WalletWorld(OneWallet(user, token), wallets, []), user);
    RunThen(EmptyWorld(wallets), stored, WalletWorld(OneWallet(user, token), wallets, []), create);
    events := stored + [create];
  }

  /** Making the wallet the default method, then creating and starting a session. */
  lemma WalletRun(user: Id, token: Id, wallets: W.Wallets, reply: P.Reply) returns (events: seq<Event>)
    requires user in wallets && DEFAULT_MINIMUM_BALANCE_AMD <= wallets[user].balance
    ensures EnabledRun(EmptyWorld(wallets), events)
    ensures Run(EmptyWorld(wallets), events) == WalletWorld(OneWallet(user, token), wallets, [WalletFile(user, 0)])
  {
    var created := WalletPending(user, token, wallets);
    var pending := NewFile(user, None, None, Pending, None, None);
    var world := WalletWorld(OneWallet(user, token), wallets, [pending]);
    var start := Event.StartSession(user, 0, 10, P.Env(None, None, None), reply);
    WalletIsEnough(wallets, user, token, reply);
    StartStep(world, pending, 10, P.Env(None, None, None), reply);
    RunThen(EmptyWorld(wallets), created, world, start);
    events := created + [start];
  }

  /** The wallet method, and a newer one that took the default from it. */
  function SwitchedMethods(user: Id, token: Id, apple: Id): seq<P.Method> {
    [P.Method(user, P.WalletGateway, token, false), P.Method(user, P.ApplePay, apple, true)]
  }

  lemma ExchangeTakesDefault(user: Id, token: Id, apple: Id)
    ensures P.ExchangeToken(OneWallet(user, token), user, P.ApplePay, apple, Some(true))
         == SwitchedMethods(user, token, apple)
    ensures !P.HasDefaultWallet(SwitchedMethods(user, token, apple), user)
  {}

  /** Storing another default method meanwhile, and a cost. */
  lemma SwitchedRun(user: Id, token: Id, apple: Id, wallets: W.Wallets, cost: int, reply: P.Reply)
    returns (events: seq<Event>)
    requires user in wallets && DEFAULT_MINIMUM_BALANCE_AMD <= wallets[user].balance
    ensures EnabledRun(EmptyWorld(wallets), events)
    ensures Run(EmptyWorld(wallets), events)
         == WalletWorld(SwitchedMethods(user, token, apple), wallets, [WalletFile(user, cost)])
  {
    var w, f := EmptyWorld(wallets), WalletFile(user, 0);
    var started := WalletRun(user, token, wallets, reply);
    var exchange := Event.ExchangeToken(user, P.ApplePay, apple, Some(true));
    ExchangeTakesDefault(user, token, apple);
    RunThen(w, started, WalletWorld(OneWallet(user, token), wallets, [f]), exchange);
    var switched := WalletWorld(SwitchedMethods(user, token, apple), wallets, [f]);
    CostStep(switched, f, cost);
    RunThen(w, started + [exchange], switched, RecordCost(0, cost));
    events := started + [exchange] + [RecordCost(0, cost)];
  }

  /** A session started on the wallet costs nothing once another method is the default: its stop reports no
      error, and neither the wallet nor a gateway pays, whatever the cost. */
  lemma UnpaidStopIsFree(user: Id, token: Id, apple: Id, wallets: W.Wallets, cost: int, reply: P.Reply,
                         answers: W.Answers)
    returns (events: seq<Event>, stop: Event)
    requires user in wallets && DEFAULT_MINIMUM_BALANCE_AMD <= wallets[user].balance
    ensures var w := EmptyWorld(wallets);
      && EnabledRun(w, events + [stop]) && stop.StopSession?
      && Run(w, events + [stop]) == Step(Run(w, events), stop).0 && Step(Run(w, events), stop).1.None?
      && |Run(w, events + [stop]).files| == 1
      && var f := Run(w, events + [stop]).files[0];
         && f.session.status == Completed && f.session.totalCost == cost && f.deal == P.Deal(None, P.NO_MONEY)
         && Run(w, events + [stop]).wallets == wallets
  {
    var switched := WalletWorld(SwitchedMethods(user, token, apple), wallets, [WalletFile(user, cost)]);
    events := SwitchedRun(user, token, apple, wallets, cost, reply);
    stop := Event.StopSession(user, 0, 20, reply, answers);
    ExchangeTakesDefault(user, token, apple);
    StopStep(switched, WalletFile(user, cost), 20, reply, answers);
    RunThen(EmptyWorld(wallets), events, switched, stop);
  }

  // ----- the cost that StopTransaction writes -----

  lemma StopTransactionWrites(w: World, e: Event)
    requires e.StopTransaction?
    requires var id := FindForStop(w, e.chargePoint, e.transactionId, |w.files|);
      id < |w.files| && w.files[id].session.status != Completed
    ensures var id := FindForStop(w, e.chargePoint, e.transactionId, |w.files|);
      var session := w.files[id].session;
      Step(w, e).0.files[id].session
      == session.(status := Completed, endTime := Some(e.at), totalCost := FinalCost(session, e.metering, e.at))
  {}

  /** Samples in order, and a tariff whose idling is no dearer than charging. */
  predicate Steady(plan: B.Plan, samples: seq<B.Sample>, startedAt: int, at: int) {
    && samples != [] && B.InOrder(samples, startedAt) && samples[|samples| - 1].timestamp <= at
    && B.NonNegative(plan) && B.Rate(plan.idleFee) <= B.Rate(plan.pricePerMinute)
  }

  lemma FinalCostKeepsUp(session: Session, metering: Metering, at: int, plan: B.Plan, i: nat)
    requires metering.plan == Some(plan) && 0 < i <= |metering.samples|
    ensures var startedAt := StartOf(session, metering);
      Steady(plan, metering.samples, startedAt, at) ==>
        B.LiveCost(plan, metering.samples[..i], startedAt) - 1 <= FinalCost(session, metering, at)
  {
    var startedAt := StartOf(session, metering);
    if Steady(plan, metering.samples, startedAt, at) {
      B.BillKeepsUpWithLiveCost(plan, metering.samples, i, startedAt, at);
    }
  }

  /** Main result: StopTransaction writes the bill of the session's meter readings, and where idling is no
      dearer than charging that is at least every live figure broadcast on the same tariff before, less one. */
  lemma WrittenBillKeepsUpWithLiveFigures(w: World, e: Event, plan: B.Plan, i: nat)
    requires e.StopTransaction? && e.metering.plan == Some(plan) && 0 < i <= |e.metering.samples|
    requires var id := FindForStop(w, e.chargePoint, e.transactionId, |w.files|);
      id < |w.files| && w.files[id].session.status != Completed
    ensures var id, samples := FindForStop(w, e.chargePoint, e.transactionId, |w.files|), e.metering.samples;
      var startedAt, session := StartOf(w.files[id].session, e.metering), Step(w, e).0.files[id].session;
      && session.status == Completed && session.endTime == Some(e.at)
      && session.totalCost == B.SessionBill(plan, samples, startedAt, e.at).totalCost
      && (Steady(plan, samples, startedAt, e.at) ==>
            B.LiveCost(plan, samples[..i], startedAt) - 1 <= session.totalCost)
  {
    var id := FindForStop(w, e.chargePoint, e.transactionId, |w.files|);
    StopTransactionWrites(w, e);
    FinalCostKeepsUp(w.files[id].session, e.metering, e.at, plan, i);
  }
}
