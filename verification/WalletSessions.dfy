/** What sessions cost and what wallets lost, summed over whole runs. */
module WalletSessions {
  import opened Text
  import opened Sessions
  import P = Payments
  import W = Wallets

  /** The sum of the deductions in a log. */
  function DeductedIn(log: seq<W.Entry>): int {
    if log == [] then 0
    else
      var last := log[|log| - 1];
      DeductedIn(log[..|log| - 1]) + (if last.kind == W.Deduction then last.amount else 0)
  }

  function Deducted(wallets: W.Wallets, user: Id): int {
    if user in wallets then DeductedIn(wallets[user].log) else 0
  }

  /** What the user paid for one session from the wallet. */
  function PaidFor(f: File, user: Id): int {
    if f.session.user == user && f.deal.account.deductions == 1 then f.session.totalCost else 0
  }

  function Paid(files: seq<File>, user: Id): int {
    if files == [] then 0
    else Paid(files[..|files| - 1], user) + PaidFor(files[|files| - 1], user)
  }

  lemma PaidAppend(files: seq<File>, f: File, user: Id)
    ensures Paid(files + [f], user) == Paid(files, user) + PaidFor(f, user)
  {
    assert (files + [f])[..|files|] == files;
  }

  lemma {:induction false} PaidUpdate(files: seq<File>, id: nat, f: File, user: Id)
    requires id < |files|
    ensures Paid(files[id := f], user) == Paid(files, user) - PaidFor(files[id], user) + PaidFor(f, user)
  {
    var last := |files| - 1;
    if id == last {
      assert files[id := f][..last] == files[..last];
    } else {
      PaidUpdate(files[..last], id, f, user);
      assert files[id := f][..last] == files[..last][id := f];
    }
  }

  // ----- what one request does to both sums -----

  lemma DeductCounts(wallets: W.Wallets, payer: Id, amount: int, answers: W.Answers, user: Id)
    ensures var (wallets', phase) := Deduct(wallets, payer, amount, answers);
      Deducted(wallets', user) - Deducted(wallets, user) == if phase == W.Done && user == payer then amount else 0
  {
    var (wallets', phase) := Deduct(wallets, payer, amount, answers);
    if phase == W.Done {
      var before := if payer in wallets then wallets[payer] else W.Wallet(0, []);
      var after := W.Post(before, W.Deduction, amount);
      assert after.log[..|before.log|] == before.log;
    }
  }

  /** Only a completed session can have been paid from a wallet. */
  predicate NotYetDeducted(f: File) {
    f.session.status != Completed ==> f.deal.account.deductions == 0
  }

  lemma FilesAreNotYetDeducted(methods: seq<P.Method>, f: File)
    requires FileOk(methods, f)
    ensures NotYetDeducted(f)
  {}

  lemma WalletPaidCounts(methods: seq<P.Method>, wallets: W.Wallets, f: File, answers: W.Answers, user: Id)
    requires f.deal.account.deductions == 0
    ensures var (f', wallets', _) := WalletPaid(methods, wallets, f, answers);
      Deducted(wallets', user) - Deducted(wallets, user) == PaidFor(f', user)
  {
    DeductCounts(wallets, f.session.user, f.session.totalCost, answers, user);
  }

  lemma CaptureCountsNothing(methods: seq<P.Method>, d: P.Deal, amount: int, reply: P.Reply)
    ensures P.Capture(methods, d, amount, reply).0.account.deductions == d.account.deductions
  {}

  lemma StopCounts(methods: seq<P.Method>, wallets: W.Wallets, f: File, at: int, reply: P.Reply, answers: W.Answers,
                   user: Id)
    requires NotYetDeducted(f)
    ensures var (f', wallets', _) := StopFile(methods, wallets, f, at, reply, answers);
      Deducted(wallets', user) - Deducted(wallets, user) == PaidFor(f', user) - PaidFor(f, user)
  {
    var completed := Complete(f, at);
    if f.session.status == Active {
      WalletPaidCounts(methods, wallets, completed, answers, user);
      CaptureCountsNothing(methods, completed.deal, completed.session.totalCost, reply);
    }
  }

  lemma StartCountsNothing(methods: seq<P.Method>, wallets: W.Wallets, f: File, at: int, env: P.Env, reply: P.Reply,
                           user: Id)
    ensures PaidFor(StartFile(methods, wallets, f, at, env, reply).0, user) == PaidFor(f, user)
  {}

  lemma TransitionCountsNothing(f: File, to: SessionStatus, reply: P.Reply, user: Id)
    ensures PaidFor(Transition(f, to, reply).0, user) == PaidFor(f, user)
  {}

  lemma StopTransactionCountsNothing(methods: seq<P.Method>, f: File, at: int, cost: int, reply: P.Reply, user: Id)
    requires NotYetDeducted(f)
    ensures PaidFor(StopTransactionFile(methods, f, at, cost, reply), user) == PaidFor(f, user)
  {}

  predicate DeductsNothing(w: World, e: Event, user: Id) {
    e.WalletsChange? ==> Deducted(e.wallets, user) == Deducted(w.wallets, user)
  }

  /** A request about one session replaces its file. */
  lemma FileStepCounts(w: World, e: Event, id: nat, f: File, user: Id)
    requires id < |w.files| && Step(w, e).0.files == w.files[id := f]
    requires Deducted(Step(w, e).0.wallets, user) - Deducted(w.wallets, user)
          == PaidFor(f, user) - PaidFor(w.files[id], user)
    ensures Deducted(Step(w, e).0.wallets, user) - Paid(Step(w, e).0.files, user)
         == Deducted(w.wallets, user) - Paid(w.files, user)
  {
    PaidUpdate(w.files, id, f, user);
  }

  lemma NewFileCounts(w: World, e: Event, user: Id)
    requires e.CreateSession? || e.StartTransaction?
    ensures Deducted(Step(w, e).0.wallets, user) - Paid(Step(w, e).0.files, user)
         == Deducted(w.wallets, user) - Paid(w.files, user)
  {
    if e.CreateSession? {
      PaidAppend(w.files, NewFile(e.user, e.vehicle, e.connector, Pending, None, None), user);
    } else if e.idTagUser.Some? {
      var id := w.nextTransactionId;
      PaidAppend(w.files, NewFile(e.idTagUser.value, None, e.connector, Active, Some(e.at), Some(id)), user);
    }
  }

  lemma RestStepCounts(w: World, e: Event, user: Id)
    requires Invariant(w) && (e.StartSession? || e.StopSession?)
    ensures Deducted(Step(w, e).0.wallets, user) - Paid(Step(w, e).0.files, user)
         == Deducted(w.wallets, user) - Paid(w.files, user)
  {
    if Owns(w, e.user, e.session) {
      var f := w.files[e.session];
      FilesAreNotYetDeducted(w.methods, f);
      if e.StartSession? {
        StartCountsNothing(w.methods, w.wallets, f, e.at, e.env, e.reply, user);
      } else {
        StopCounts(w.methods, w.wallets, f, e.at, e.reply, e.answers, user);
      }
      FileStepCounts(w, e, e.session, Step(w, e).0.files[e.session], user);
    }
  }

  lemma OtherStepsCountNothing(w: World, e: Event, user: Id)
    requires Invariant(w) && Enabled(w, e) && (e.StopTransaction? || e.CancelOrFail? || e.RecordCost?)
    ensures Deducted(Step(w, e).0.wallets, user) - Paid(Step(w, e).0.files, user)
         == Deducted(w.wallets, user) - Paid(w.files, user)
  {
    var id := if e.StopTransaction? then FindForStop(w, e.chargePoint, e.transactionId, |w.files|) else e.session;
    if id < |w.files| {
      var f := w.files[id];
      FilesAreNotYetDeducted(w.methods, f);
      if e.StopTransaction? {
        StopTransactionCountsNothing(w.methods, f, e.at, FinalCost(f.session, e.metering, e.at), e.reply, user);
      } else if e.CancelOrFail? {
        TransitionCountsNothing(f, e.to, e.reply, user);
      }
      FileStepCounts(w, e, id, Step(w, e).0.files[id], user);
    }
  }

  lemma StepKeepsDifference(w: World, e: Event, user: Id)
    requires Invariant(w) && Enabled(w, e) && DeductsNothing(w, e, user)
    ensures Deducted(Step(w, e).0.wallets, user) - Paid(Step(w, e).0.files, user)
         == Deducted(w.wallets, user) - Paid(w.files, user)
  {
    if e.CreateSession? || e.StartTransaction? {
      NewFileCounts(w, e, user);
    } else if e.StartSession? || e.StopSession? {
      RestStepCounts(w, e, user);
    } else if e.StopTransaction? || e.CancelOrFail? || e.RecordCost? {
      OtherStepsCountNothing(w, e, user);
    }
  }

  // ----- runs -----

  /** Whatever else changes wallets during the run (top-ups, refunds), it deducts nothing from the user's. */
  predicate NothingElseDeducts(w: World, events: seq<Event>, user: Id) {
    events == []
    || (NothingElseDeducts(w, events[..|events| - 1], user)
        && DeductsNothing(Run(w, events[..|events| - 1]), events[|events| - 1], user))
  }

  lemma {:induction false} RunKeepsDifference(w: World, events: seq<Event>, user: Id)
    requires Fresh(w) && EnabledRun(w, events) && NothingElseDeducts(w, events, user)
    ensures Deducted(Run(w, events).wallets, user) - Paid(Run(w, events).files, user) == Deducted(w.wallets, user)
  {
    if events != [] {
      var before := events[..|events| - 1];
      RunKeepsDifference(w, before, user);
      RunKeepsInvariant(w, before);
      StepKeepsDifference(Run(w, before), events[|events| - 1], user);
    }
  }

  /** Main result: over every run, what a wallet's log gained in deductions is the sum of the costs, as they
      stand, of the user's sessions that were paid from it. */
  lemma DeductionsAreSessionCosts(w: World, events: seq<Event>, user: Id)
    requires Fresh(w) && EnabledRun(w, events) && NothingElseDeducts(w, events, user)
    ensures Deducted(Run(w, events).wallets, user) - Deducted(w.wallets, user) == Paid(Run(w, events).files, user)
  {
    RunKeepsDifference(w, events, user);
  }
}
