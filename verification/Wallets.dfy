/** The wallet ledger: top-ups, deductions and refunds as interleaved halves, each half atomic. */
module Wallets {
  import opened Text

  /** User ids are compared for equality only. */
  type UserId = nat

  datatype Kind = TopUp | Deduction | Refund

  datatype Entry = Entry(kind: Kind, amount: int, balanceBefore: int, balanceAfter: int)

  /** One wallet row with the transaction rows that belong to it, oldest first. */
  datatype Wallet = Wallet(balance: int, log: seq<Entry>)

  datatype Error = AmountNotPositive | InsufficientBalance | GatewayDeclined
    | WalletNotCreated | DuplicateWallet | WalletNotFound | TransactionFailed

  type Wallets = map<UserId, Wallet>

  // ----- the transactions, each atomic -----

  function Signed(kind: Kind, amount: int): int {
    if kind == Deduction then -amount else amount
  }

  /** Reads the balance, overwrites it and appends the matching log row. */
  function Post(wallet: Wallet, kind: Kind, amount: int): Wallet {
    var newBalance := wallet.balance + Signed(kind, amount);
    Wallet(newBalance, wallet.log + [Entry(kind, amount, wallet.balance, newBalance)])
  }

  /** The body of `$transaction`: only a deduction looks at the balance again. */
  function Commit(wallets: Wallets, user: UserId, kind: Kind, amount: int): (Wallets, Option<Error>) {
    if user !in wallets then (wallets, Some(WalletNotFound))
    else if kind == Deduction && wallets[user].balance < amount then (wallets, Some(InsufficientBalance))
    else (wallets[user := Post(wallets[user], kind, amount)], None)
  }

  // ----- what a sound ledger is -----

  function SignedSum(log: seq<Entry>): int {
    if log == [] then 0 else SignedSum(log[..|log| - 1]) + Signed(log[|log| - 1].kind, log[|log| - 1].amount)
  }

  /** The sum of the top-up credits in a log. */
  function Credits(log: seq<Entry>): int {
    if log == [] then 0
    else Credits(log[..|log| - 1]) + (if log[|log| - 1].kind == TopUp then log[|log| - 1].amount else 0)
  }

  /** Balances form one chain from 0: each row starts where the previous one ended. */
  predicate Chained(log: seq<Entry>) {
    && (log != [] ==> log[0].balanceBefore == 0)
    && (forall k :: 0 < k < |log| ==> log[k].balanceBefore == log[k - 1].balanceAfter)
  }

  predicate Sound(wallet: Wallet) {
    && Chained(wallet.log)
    && (forall k :: 0 <= k < |wallet.log| ==>
         && wallet.log[k].amount > 0
         && wallet.log[k].balanceAfter == wallet.log[k].balanceBefore + Signed(wallet.log[k].kind, wallet.log[k].amount)
         && 0 <= wallet.log[k].balanceAfter)
    && wallet.balance == (if wallet.log == [] then 0 else wallet.log[|wallet.log| - 1].balanceAfter)
    && wallet.balance == SignedSum(wallet.log)
  }

  lemma SoundIsNonNegative(wallet: Wallet)
    requires Sound(wallet)
    ensures 0 <= wallet.balance
  {}

  lemma PostKeepsSound(wallet: Wallet, kind: Kind, amount: int)
    requires Sound(wallet) && amount > 0
    requires kind == Deduction ==> amount <= wallet.balance
    ensures Sound(Post(wallet, kind, amount))
    ensures Credits(Post(wallet, kind, amount).log) == Credits(wallet.log) + (if kind == TopUp then amount else 0)
  {
    var log, log' := wallet.log, Post(wallet, kind, amount).log;
    SoundIsNonNegative(wallet);
    assert log'[..|log'| - 1] == log;
  }

  // ----- requests, advanced one atomic piece at a time -----

  datatype TopUpGateway = Arca | Idram

  /** How far a request has come. Looking and Creating are the two halves of getOrCreateWallet. */
  datatype Phase =
    | Looking
    | Creating
    | Charging         // a top-up with its wallet at hand, about to call its gateway
    | Capturing        // an ArCa top-up that holds a pre-authorisation
    | Committing       // about to run its transaction; a top-up is charged by now
    | Done
    | Failed(error: Error)

  datatype Request = Request(user: UserId, kind: Kind, amount: int, gateway: TopUpGateway, phase: Phase)

  /** All wallets, every request ever made, and what the gateways have taken from each user for top-ups. */
  datatype State = State(wallets: Wallets, requests: seq<Request>, taken: map<UserId, int>)

  /** `succeeds` is the answer of the gateway or of the database to the piece that runs. */
  datatype Event =
    | Open(user: UserId, kind: Kind, amount: int, gateway: TopUpGateway)
    | Advance(index: nat, succeeds: bool)

  function Taken(s: State, user: UserId): int {
    if user in s.taken then s.taken[user] else 0
  }

  /** The pre-check after getOrCreateWallet answered with a wallet of the given balance. */
  function AfterWallet(r: Request, balance: int): Phase {
    match r.kind
    case TopUp => Charging
    case Deduction => if balance < r.amount then Failed(InsufficientBalance) else Committing
    case Refund => Committing
  }

  function WithPhase(s: State, index: nat, phase: Phase): State
    requires index < |s.requests|
  {
    s.(requests := s.requests[index := s.requests[index].(phase := phase)])
  }

  function Charge(s: State, index: nat): State
    requires index < |s.requests|
  {
    var r := s.requests[index];
    WithPhase(s, index, Committing).(taken := s.taken[r.user := Taken(s, r.user) + r.amount])
  }

  function Opened(user: UserId, kind: Kind, amount: int, gateway: TopUpGateway): Request {
    Request(user, kind, amount, gateway, if amount <= 0 then Failed(AmountNotPositive) else Looking)
  }

  function Step(s: State, e: Event): State {
    match e
    case Open(user, kind, amount, gateway) =>
      s.(requests := s.requests + [Opened(user, kind, amount, gateway)])
    case Advance(index, succeeds) =>
      if index >= |s.requests| then s else AdvanceRequest(s, index, succeeds)
  }

  function AdvanceRequest(s: State, index: nat, succeeds: bool): State
    requires index < |s.requests|
  {
    var r := s.requests[index];
    match r.phase
    case Looking =>
      WithPhase(s, index, if r.user in s.wallets then AfterWallet(r, s.wallets[r.user].balance) else Creating)
    case Creating =>
      // the unique user id makes the slower of two creators fail
      if r.user in s.wallets then WithPhase(s, index, Failed(DuplicateWallet))
      else if !succeeds then WithPhase(s, index, Failed(WalletNotCreated))
      else WithPhase(s, index, AfterWallet(r, 0)).(wallets := s.wallets[r.user := Wallet(0, [])])
    case Charging =>
      if !succeeds then WithPhase(s, index, Failed(GatewayDeclined))
      else if r.gateway == Arca then WithPhase(s, index, Capturing)
      else Charge(s, index)
    case Capturing =>
      if succeeds then Charge(s, index) else WithPhase(s, index, Failed(GatewayDeclined))
    case Committing =>
      if !succeeds then WithPhase(s, index, Failed(TransactionFailed))
      else
        var (wallets', error) := Commit(s.wallets, r.user, r.kind, r.amount);
        WithPhase(s, index, if error.None? then Done else Failed(error.value)).(wallets := wallets')
    case Done => s
    case Failed(_) => s
  }

  function Run(s: State, events: seq<Event>): State {
    if events == [] then s else Step(Run(s, events[..|events| - 1]), events[|events| - 1])
  }

  const EMPTY := State(map[], [], map[])

  // ----- what every interleaving keeps -----

  /** What a gateway has taken for a top-up whose transaction has not run, or has failed. */
  function OutstandingOf(r: Request, user: UserId): int {
    if r.user == user && r.kind == TopUp && (r.phase == Committing || r.phase == Failed(TransactionFailed))
    then r.amount else 0
  }

  /** What a completed request has done to the balance of its user. */
  function SettledOf(r: Request, user: UserId): int {
    if r.user == user && r.phase == Done then Signed(r.kind, r.amount) else 0
  }

  function Outstanding(requests: seq<Request>, user: UserId): int {
    if requests == [] then 0
    else Outstanding(requests[..|requests| - 1], user) + OutstandingOf(requests[|requests| - 1], user)
  }

  function Settled(requests: seq<Request>, user: UserId): int {
    if requests == [] then 0
    else Settled(requests[..|requests| - 1], user) + SettledOf(requests[|requests| - 1], user)
  }

  function LogOf(s: State, user: UserId): seq<Entry> {
    if user in s.wallets then s.wallets[user].log else []
  }

  function BalanceOf(s: State, user: UserId): int {
    if user in s.wallets then s.wallets[user].balance else 0
  }

  predicate RequestOk(s: State, r: Request) {
    && (r.phase.Charging? || r.phase.Capturing? ==> r.kind == TopUp)
    && (r.phase.Charging? || r.phase.Capturing? || r.phase.Committing? || r.phase.Done? ==> r.user in s.wallets)
    && (!r.phase.Failed? ==> r.amount > 0)
  }

  ghost predicate Conserved(s: State, user: UserId) {
    && Taken(s, user) == Credits(LogOf(s, user)) + Outstanding(s.requests, user)
    && BalanceOf(s, user) == Settled(s.requests, user)
  }

  ghost predicate Invariant(s: State) {
    && (forall u :: u in s.wallets ==> Sound(s.wallets[u]))
    && (forall i :: 0 <= i < |s.requests| ==> RequestOk(s, s.requests[i]))
    && (forall u: UserId :: Conserved(s, u))
  }

  lemma TotalsAppend(requests: seq<Request>, r: Request, user: UserId)
    ensures Outstanding(requests + [r], user) == Outstanding(requests, user) + OutstandingOf(r, user)
    ensures Settled(requests + [r], user) == Settled(requests, user) + SettledOf(r, user)
  {
    assert (requests + [r])[..|requests|] == requests;
  }

  lemma {:induction false} TotalsUpdate(requests: seq<Request>, index: nat, r: Request, user: UserId)
    requires index < |requests|
    ensures Outstanding(requests[index := r], user)
         == Outstanding(requests, user) - OutstandingOf(requests[index], user) + OutstandingOf(r, user)
    ensures Settled(requests[index := r], user)
         == Settled(requests, user) - SettledOf(requests[index], user) + SettledOf(r, user)
  {
    var last := |requests| - 1;
    var requests' := requests[index := r];
    if index == last {
      assert requests'[..last] == requests[..last];
    } else {
      TotalsUpdate(requests[..last], index, r, user);
      assert requests'[..last] == requests[..last][index := r];
    }
  }

  /** One request moves on, and nothing else changes but what the three effects describe. */
  lemma AdvanceConserves(s: State, s': State, index: nat, phase: Phase, user: UserId)
    requires index < |s.requests| && s'.requests == WithPhase(s, index, phase).requests
    requires Conserved(s, user)
    requires var r, r' := s.requests[index], s.requests[index].(phase := phase);
      && Taken(s', user) - Taken(s, user) - (Credits(LogOf(s', user)) - Credits(LogOf(s, user)))
         == OutstandingOf(r', user) - OutstandingOf(r, user)
      && BalanceOf(s', user) - BalanceOf(s, user) == SettledOf(r', user) - SettledOf(r, user)
    ensures Conserved(s', user)
  {
    var r' := s.requests[index].(phase := phase);
    TotalsUpdate(s.requests, index, r', user);
  }

  lemma CommitKeepsInvariant(s: State, index: nat)
    requires Invariant(s) && index < |s.requests| && s.requests[index].phase == Committing
    ensures Invariant(AdvanceRequest(s, index, true))
  {
    var r, s' := s.requests[index], AdvanceRequest(s, index, true);
    assert RequestOk(s, r);
    forall u | u in s'.wallets ensures Sound(s'.wallets[u]) {
      CommitEffect(s.wallets, r);
    }
    forall i | 0 <= i < |s'.requests| ensures RequestOk(s', s'.requests[i]) {
      assert RequestOk(s, s.requests[i]);
      CommitKeepsRequests(s, index, i);
    }
    forall u: UserId ensures Conserved(s', u) {
      assert Conserved(s, u);
      CommitConserves(s, index, u);
    }
  }

  lemma CommitEffect(wallets: Wallets, r: Request)
    requires r.user in wallets && Sound(wallets[r.user]) && r.amount > 0
    ensures var (wallets', error) := Commit(wallets, r.user, r.kind, r.amount);
      && wallets'.Keys == wallets.Keys && Sound(wallets'[r.user])
      && (forall u :: u in wallets && u != r.user ==> wallets'[u] == wallets[u])
      && (error.None? ==>
           && wallets'[r.user].balance == wallets[r.user].balance + Signed(r.kind, r.amount)
           && Credits(wallets'[r.user].log) == Credits(wallets[r.user].log) + (if r.kind == TopUp then r.amount else 0))
      && (error.Some? ==> error == Some(InsufficientBalance) && r.kind == Deduction && wallets' == wallets)
  {
    if r.kind != Deduction || r.amount <= wallets[r.user].balance {
      PostKeepsSound(wallets[r.user], r.kind, r.amount);
    }
  }

  lemma CommitKeepsRequests(s: State, index: nat, i: nat)
    requires index < |s.requests| && s.requests[index].phase == Committing && RequestOk(s, s.requests[index])
    requires i < |s.requests| && RequestOk(s, s.requests[i])
    ensures var s' := AdvanceRequest(s, index, true); RequestOk(s', s'.requests[i])
  {}

  lemma CommitConserves(s: State, index: nat, user: UserId)
    requires index < |s.requests| && s.requests[index].phase == Committing
    requires var r := s.requests[index]; r.user in s.wallets && Sound(s.wallets[r.user]) && r.amount > 0
    requires Conserved(s, user)
    ensures Conserved(AdvanceRequest(s, index, true), user)
  {
    var r := s.requests[index];
    CommitEffect(s.wallets, r);
    var (wallets', error) := Commit(s.wallets, r.user, r.kind, r.amount);
    var phase := if error.None? then Done else Failed(error.value);
    CommitShiftsTotals(s, wallets', index, phase, user);
  }

  /** A transaction moves its amount from outstanding to credited, and from the request to the balance. */
  lemma CommitShiftsTotals(s: State, wallets': Wallets, index: nat, phase: Phase, user: UserId)
    requires index < |s.requests| && s.requests[index].phase == Committing
    requires var r := s.requests[index];
      && r.user in s.wallets && wallets'.Keys == s.wallets.Keys
      && (forall u :: u in s.wallets && u != r.user ==> wallets'[u] == s.wallets[u])
      && ((phase == Done
           && wallets'[r.user].balance == s.wallets[r.user].balance + Signed(r.kind, r.amount)
           && Credits(wallets'[r.user].log)
             == Credits(s.wallets[r.user].log) + (if r.kind == TopUp then r.amount else 0))
          || (phase == Failed(InsufficientBalance) && r.kind == Deduction && wallets' == s.wallets))
    requires Conserved(s, user)
    ensures Conserved(WithPhase(s, index, phase).(wallets := wallets'), user)
  {
    AdvanceConserves(s, WithPhase(s, index, phase).(wallets := wallets'), index, phase, user);
  }

  lemma AdvanceKeepsInvariant(s: State, index: nat, succeeds: bool)
    requires Invariant(s) && index < |s.requests|
    ensures Invariant(AdvanceRequest(s, index, succeeds))
  {
    var r, s' := s.requests[index], AdvanceRequest(s, index, succeeds);
    assert RequestOk(s, r);
    if r.phase == Committing && succeeds {
      CommitKeepsInvariant(s, index);
    } else {
      assert forall u :: u in s'.wallets ==> u in s.wallets || s'.wallets[u] == Wallet(0, []);
      forall i | 0 <= i < |s'.requests| ensures RequestOk(s', s'.requests[i]) {
        assert RequestOk(s, s.requests[i]);
        OtherAdvanceKeepsRequests(s, index, succeeds, i);
      }
      forall u: UserId ensures Conserved(s', u) {
        assert Conserved(s, u);
        OtherAdvanceConserves(s, index, succeeds, u);
      }
    }
  }

  lemma OtherAdvanceKeepsRequests(s: State, index: nat, succeeds: bool, i: nat)
    requires index < |s.requests| && RequestOk(s, s.requests[index])
    requires s.requests[index].phase != Committing || !succeeds
    requires i < |s.requests| && RequestOk(s, s.requests[i])
    ensures var s' := AdvanceRequest(s, index, succeeds); RequestOk(s', s'.requests[i])
  {}

  lemma OtherAdvanceConserves(s: State, index: nat, succeeds: bool, user: UserId)
    requires index < |s.requests| && RequestOk(s, s.requests[index])
    requires s.requests[index].phase != Committing || !succeeds
    requires Conserved(s, user)
    ensures Conserved(AdvanceRequest(s, index, succeeds), user)
  {
    var s' := AdvanceRequest(s, index, succeeds);
    AdvanceConserves(s, s', index, s'.requests[index].phase, user);
  }

  lemma OpenKeepsInvariant(s: State, e: Event)
    requires Invariant(s) && e.Open?
    ensures Invariant(Step(s, e))
  {
    var s' := Step(s, e);
    var r := s'.requests[|s.requests|];
    forall i | 0 <= i < |s'.requests| ensures RequestOk(s', s'.requests[i]) {
      if i < |s.requests| { assert RequestOk(s, s.requests[i]); }
    }
    forall u: UserId ensures Conserved(s', u) {
      assert Conserved(s, u);
      TotalsAppend(s.requests, r, u);
    }
  }

  lemma {:induction false} RunKeepsInvariant(s: State, events: seq<Event>)
    requires Invariant(s)
    ensures Invariant(Run(s, events))
  {
    if events != [] {
      var before, e := Run(s, events[..|events| - 1]), events[|events| - 1];
      RunKeepsInvariant(s, events[..|events| - 1]);
      if e.Open? {
        OpenKeepsInvariant(before, e);
      } else if e.index < |before.requests| {
        AdvanceKeepsInvariant(before, e.index, e.succeeds);
      }
    }
  }

  /** Main result: whatever the interleaving and whatever the gateways and the database answer, every
      wallet's log is a chain from 0, its balance is the signed sum of the log and of the completed
      requests, and no balance is ever negative. */
  lemma LedgerIsSound(events: seq<Event>, user: UserId)
    ensures var s := Run(EMPTY, events);
      && Chained(LogOf(s, user))
      && BalanceOf(s, user) == SignedSum(LogOf(s, user)) == Settled(s.requests, user)
      && 0 <= BalanceOf(s, user)
      && forall k :: 0 <= k < |LogOf(s, user)| ==> 0 <= LogOf(s, user)[k].balanceAfter
  {
    RunKeepsInvariant(EMPTY, events);
    var s := Run(EMPTY, events);
    assert Conserved(s, user);
  }

  /** Main result: the money taken at the gateways is the sum of the top-up credits plus the amounts of
      the top-ups charged but not credited, failed transactions included. */
  lemma TopUpMoneyIsConserved(events: seq<Event>, user: UserId)
    ensures var s := Run(EMPTY, events);
      Taken(s, user) == Credits(LogOf(s, user)) + Outstanding(s.requests, user)
  {
    RunKeepsInvariant(EMPTY, events);
    assert Conserved(Run(EMPTY, events), user);
  }

  // ----- the service, one whole request at a time -----

  /** What the database and the gateway answer to each piece of one request. */
  datatype Answers = Answers(creation: bool, authorisation: bool, capture: bool, commit: bool) {
    function To(phase: Phase): bool {
      match phase
      case Creating => creation
      case Charging => authorisation
      case Capturing => capture
      case Committing => commit
      case _ => true
    }
  }

  function Remaining(phase: Phase): nat {
    match phase
    case Looking => 5
    case Creating => 4
    case Charging => 3
    case Capturing => 2
    case Committing => 1
    case _ => 0
  }

  /** Request 0 of s, advanced to its end with nothing in between. */
  function Undisturbed(s: State, answers: Answers): (r: State)
    requires s.requests != []
    ensures r.requests != []
    decreases Remaining(s.requests[0].phase)
  {
    var phase := s.requests[0].phase;
    if Remaining(phase) == 0 then s else Undisturbed(AdvanceRequest(s, 0, answers.To(phase)), answers)
  }

  /** An undisturbed request is one of the interleavings: so many advances of that request in a row. */
  lemma {:induction false} UndisturbedIsARun(s: State, answers: Answers) returns (events: seq<Event>)
    requires s.requests != []
    ensures Run(s, events) == Undisturbed(s, answers)
    decreases Remaining(s.requests[0].phase)
  {
    var phase := s.requests[0].phase;
    if Remaining(phase) == 0 {
      events := [];
    } else {
      var first := Advance(0, answers.To(phase));
      var next := Step(s, first);
      var rest := UndisturbedIsARun(next, answers);
      RunThenRun(s, [first], rest);
      events := [first] + rest;
      assert [first][..0] == [];
      assert Run(s, [first]) == next;
    }
  }

  lemma {:induction false} RunThenRun(s: State, a: seq<Event>, b: seq<Event>)
    ensures Run(s, a + b) == Run(Run(s, a), b)
  {
    if b == [] {
      assert a + b == a;
    } else {
      assert (a + b)[..|a + b| - 1] == a + b[..|b| - 1];
      RunThenRun(s, a, b[..|b| - 1]);
    }
  }

  /** One more piece of an undisturbed request. */
  lemma Move(s: State, answers: Answers) returns (s': State)
    requires s.requests != [] && Remaining(s.requests[0].phase) > 0
    ensures s' == AdvanceRequest(s, 0, answers.To(s.requests[0].phase))
    ensures Undisturbed(s', answers) == Undisturbed(s, answers)
  {
    s' := AdvanceRequest(s, 0, answers.To(s.requests[0].phase));
  }

  lemma Ended(s: State, answers: Answers)
    requires s.requests != [] && Remaining(s.requests[0].phase) == 0
    ensures Undisturbed(s, answers) == s
  {}

  /** getOrCreateWallet and the check after it, undisturbed. */
  lemma MovePastWallet(s: State, answers: Answers) returns (s': State)
    requires |s.requests| == 1 && s.requests[0].phase == Looking
    ensures var r := s.requests[0];
      s' == if r.user in s.wallets then WithPhase(s, 0, AfterWallet(r, s.wallets[r.user].balance))
            else if answers.creation then
              WithPhase(s, 0, AfterWallet(r, 0)).(wallets := s.wallets[r.user := Wallet(0, [])])
            else WithPhase(s, 0, Failed(WalletNotCreated))
    ensures Undisturbed(s', answers) == Undisturbed(s, answers)
  {
    s' := Move(s, answers);
    if s'.requests[0].phase == Creating {
      s' := Move(s', answers);
    }
  }

  /** The gateway calls of a top-up, undisturbed. */
  lemma MovePastGateway(s: State, answers: Answers) returns (s': State)
    requires |s.requests| == 1 && s.requests[0].phase == Charging
    ensures s' == if Charges(s.requests[0].gateway, answers) then Charge(s, 0)
      else WithPhase(s, 0, Failed(GatewayDeclined))
    ensures Undisturbed(s', answers) == Undisturbed(s, answers)
  {
    s' := Move(s, answers);
    if s'.requests[0].phase == Capturing {
      s' := Move(s', answers);
    }
  }

  /** ArCa authorises and then captures; Idram debits in one call. */
  predicate Charges(gateway: TopUpGateway, answers: Answers) {
    answers.authorisation && (gateway == Arca ==> answers.capture)
  }

  // ----- what a whole request comes to -----

  function BalanceIn(wallets: Wallets, user: UserId): int {
    if user in wallets then wallets[user].balance else 0
  }

  function LogIn(wallets: Wallets, user: UserId): seq<Entry> {
    if user in wallets then wallets[user].log else []
  }

  /** The wallets with one more row in the user's log, and the balance that it leads to. */
  function WithEntry(wallets: Wallets, user: UserId, kind: Kind, amount: int, balance: int): Wallets {
    wallets[user := Wallet(balance, LogIn(wallets, user) + [Entry(kind, amount, BalanceIn(wallets, user), balance)])]
  }

  /** Whether the user has a wallet once the request has looked for one. */
  predicate GetsWallet(wallets: Wallets, user: UserId, answers: Answers) {
    user in wallets || answers.creation
  }

  /** Main result: an undisturbed refund succeeds exactly when it is positive, a wallet is found or created and its
      transaction commits; it raises the balance by its amount, logs that, and charges nobody. */
  lemma RefundRaises(wallets: Wallets, taken: map<UserId, int>, user: UserId, amount: int, gateway: TopUpGateway,
                     answers: Answers)
    ensures var s := Undisturbed(State(wallets, [Opened(user, Refund, amount, gateway)], taken), answers);
      && (s.requests[0].phase == Done <==> 0 < amount && GetsWallet(wallets, user, answers) && answers.commit)
      && (s.requests[0].phase == Done ==>
           s.wallets == WithEntry(wallets, user, Refund, amount, BalanceIn(wallets, user) + amount))
      && s.taken == taken
  {
    var s := State(wallets, [Opened(user, Refund, amount, gateway)], taken);
    if amount > 0 {
      s := MovePastWallet(s, answers);
      if s.requests[0].phase == Committing {
        s := Move(s, answers);
      }
    }
    Ended(s, answers);
  }

  /** Main result: an undisturbed deduction succeeds exactly when it is positive and covered and its transaction
      commits; it lowers the balance by its amount, logs that, and charges nobody. */
  lemma DeductionLowers(wallets: Wallets, taken: map<UserId, int>, user: UserId, amount: int, gateway: TopUpGateway,
                        answers: Answers)
    ensures var s := Undisturbed(State(wallets, [Opened(user, Deduction, amount, gateway)], taken), answers);
      && (s.requests[0].phase == Done <==> 0 < amount <= BalanceIn(wallets, user) && answers.commit)
      && (s.requests[0].phase == Done ==>
           s.wallets == WithEntry(wallets, user, Deduction, amount, BalanceIn(wallets, user) - amount))
      && s.taken == taken
  {
    var s := State(wallets, [Opened(user, Deduction, amount, gateway)], taken);
    if amount > 0 {
      s := MovePastWallet(s, answers);
      if s.requests[0].phase == Committing {
        s := Move(s, answers);
      }
    }
    Ended(s, answers);
  }

  /** Main result: an undisturbed top-up charges its gateway exactly when it is positive, a wallet is found or
      created, and the gateway authorises and, for ArCa, captures; it succeeds when its transaction then commits,
      and raises the balance by the amount that was charged. */
  lemma TopUpRaises(wallets: Wallets, taken: map<UserId, int>, user: UserId, amount: int, gateway: TopUpGateway,
                    answers: Answers)
    ensures var s := Undisturbed(State(wallets, [Opened(user, TopUp, amount, gateway)], taken), answers);
      var charged := 0 < amount && GetsWallet(wallets, user, answers) && answers.authorisation
                     && (gateway == Arca ==> answers.capture);
      && s.taken == (if charged then taken[user := (if user in taken then taken[user] else 0) + amount] else taken)
      && (s.requests[0].phase == Done <==> charged && answers.commit)
      && (s.requests[0].phase == Done ==>
           s.wallets == WithEntry(wallets, user, TopUp, amount, BalanceIn(wallets, user) + amount))
  {
    var s := State(wallets, [Opened(user, TopUp, amount, gateway)], taken);
    if amount > 0 {
      s := MovePastWallet(s, answers);
      if s.requests[0].phase == Charging {
        ChargingComesTo(s, answers);
        return;
      }
    }
    Ended(s, answers);
  }

  /** From its gateway call on. */
  lemma ChargingComesTo(s: State, answers: Answers)
    requires |s.requests| == 1 && s.requests[0].phase == Charging && s.requests[0].kind == TopUp
    requires s.requests[0].user in s.wallets
    ensures var r, end := s.requests[0], Undisturbed(s, answers);
      var charged := answers.authorisation && (r.gateway == Arca ==> answers.capture);
      && end.taken == (if charged then s.taken[r.user := Taken(s, r.user) + r.amount] else s.taken)
      && (end.requests[0].phase == Done <==> charged && answers.commit)
      && (end.requests[0].phase == Done ==>
          end.wallets == s.wallets[r.user := Post(s.wallets[r.user], TopUp, r.amount)])
  {
    var s' := MovePastGateway(s, answers);
    if s'.requests[0].phase == Committing {
      s' := Move(s', answers);
    }
    Ended(s', answers);
  }

  class WalletService {
    var wallets: Wallets
    ghost var taken: map<UserId, int>

    constructor ()
      ensures wallets == map[] && taken == map[]
    {
      wallets, taken := map[], map[];
    }

    /** The state in which a new request is the only one. */
    ghost function Starting(r: Request): State
      reads this
    {
      State(wallets, [r], taken)
    }

    ghost predicate Matches(s: State, outcome: Phase)
      reads this
    {
      s.requests != [] && wallets == s.wallets && taken == s.taken && outcome == s.requests[0].phase
    }

    /** Finds the wallet row, or creates one with balance 0. */
    method GetOrCreateWallet(user: UserId, creation: bool) returns (balance: Option<int>)
      modifies this`wallets
      ensures user in old(wallets) ==> wallets == old(wallets) && balance == Some(wallets[user].balance)
      ensures user !in old(wallets) && creation ==> wallets == old(wallets)[user := Wallet(0, [])] && balance == Some(0)
      ensures user !in old(wallets) && !creation ==> wallets == old(wallets) && balance == None
    {
      if user in wallets {
        return Some(wallets[user].balance);
      }
      if !creation {
        return None;
      }
      wallets := wallets[user := Wallet(0, [])];
      return Some(0);
    }

    method RunTransaction(user: UserId, kind: Kind, amount: int, commit: bool) returns (outcome: Phase)
      modifies this`wallets
      ensures !commit ==> wallets == old(wallets) && outcome == Failed(TransactionFailed)
      ensures commit ==> var (wallets', error) := Commit(old(wallets), user, kind, amount);
        wallets == wallets' && outcome == if error.None? then Done else Failed(error.value)
    {
      if !commit {
        return Failed(TransactionFailed);
      }
      if user !in wallets {
        return Failed(WalletNotFound);
      }
      var currentWallet := wallets[user];
      if kind == Deduction && currentWallet.balance < amount {
        return Failed(InsufficientBalance);
      }
      var newBalance := if kind == Deduction then currentWallet.balance - amount else currentWallet.balance + amount;
      var entry := Entry(kind, amount, currentWallet.balance, newBalance);
      wallets := wallets[user := Wallet(newBalance, currentWallet.log + [entry])];
      return Done;
    }

    method ChargeGateway(user: UserId, amount: int, gateway: TopUpGateway, answers: Answers) returns (charged: bool)
      modifies this`taken
      ensures charged == Charges(gateway, answers)
      ensures taken == if charged then old(taken)[user := (if user in old(taken) then old(taken)[user] else 0) + amount]
                       else old(taken)
    {
      if !answers.authorisation {
        return false;
      }
      if gateway == Arca && !answers.capture {
        return false;
      }
      taken := taken[user := (if user in taken then taken[user] else 0) + amount];
      return true;
    }

    method TopUpWallet(user: UserId, amount: int, gateway: TopUpGateway, answers: Answers) returns (outcome: Phase)
      modifies this
      ensures Matches(Undisturbed(old(Starting(Opened(user, TopUp, amount, gateway))), answers), outcome)
    {
      ghost var s := Starting(Opened(user, TopUp, amount, gateway));
      if amount <= 0 {
        Ended(s, answers);
        return Failed(AmountNotPositive);
      }
      var wallet := GetOrCreateWallet(user, answers.creation);
      s := MovePastWallet(s, answers);
      if wallet.None? {
        Ended(s, answers);
        return Failed(WalletNotCreated);
      }
      assert s == Starting(Request(user, TopUp, amount, gateway, Charging));
      outcome := ChargeAndCredit(user, amount, gateway, answers);
    }

    /** The part of a top-up after its wallet is at hand. */
    method ChargeAndCredit(user: UserId, amount: int, gateway: TopUpGateway, answers: Answers) returns (outcome: Phase)
      modifies this
      ensures Matches(Undisturbed(old(Starting(Request(user, TopUp, amount, gateway, Charging))), answers), outcome)
    {
      ghost var s := Starting(Request(user, TopUp, amount, gateway, Charging));
      var charged := ChargeGateway(user, amount, gateway, answers);
      s := MovePastGateway(s, answers);
      if !charged {
        Ended(s, answers);
        return Failed(GatewayDeclined);
      }
      outcome := RunTransaction(user, TopUp, amount, answers.commit);
      s := Move(s, answers);
      Ended(s, answers);
    }

    method DeductBalance(user: UserId, amount: int, answers: Answers) returns (outcome: Phase)
      modifies this
      ensures Matches(Undisturbed(old(Starting(Opened(user, Deduction, amount, Arca))), answers), outcome)
    {
      ghost var s := Starting(Opened(user, Deduction, amount, Arca));
      if amount <= 0 {
        Ended(s, answers);
        return Failed(AmountNotPositive);
      }
      var wallet := GetOrCreateWallet(user, answers.creation);
      s := MovePastWallet(s, answers);
      if wallet.None? {
        Ended(s, answers);
        return Failed(WalletNotCreated);
      }
      if wallet.value < amount {
        Ended(s, answers);
        return Failed(InsufficientBalance);
      }
      outcome := RunTransaction(user, Deduction, amount, answers.commit);
      s := Move(s, answers);
      Ended(s, answers);
    }

    method RefundBalance(user: UserId, amount: int, answers: Answers) returns (outcome: Phase)
      modifies this
      ensures Matches(Undisturbed(old(Starting(Opened(user, Refund, amount, Arca))), answers), outcome)
    {
      ghost var s := Starting(Opened(user, Refund, amount, Arca));
      if amount <= 0 {
        Ended(s, answers);
        return Failed(AmountNotPositive);
      }
      var wallet := GetOrCreateWallet(user, answers.creation);
      s := MovePastWallet(s, answers);
      if wallet.None? {
        Ended(s, answers);
        return Failed(WalletNotCreated);
      }
      outcome := RunTransaction(user, Refund, amount, answers.commit);
      s := Move(s, answers);
      Ended(s, answers);
    }

    /** Answers for a user without a wallet too, and creates none. */
    method CheckSufficientBalance(user: UserId, requiredAmount: int) returns (enough: bool)
      ensures enough <==> requiredAmount <= 0 || (user in wallets && requiredAmount <= wallets[user].balance)
    {
      if requiredAmount <= 0 {
        return true;
      }
      return user in wallets && wallets[user].balance >= requiredAmount;
    }
  }
}
