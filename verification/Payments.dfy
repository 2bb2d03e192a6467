/** One session's payment: pre-authorisation, capture and refund, with a ledger of what the gateway holds. */
module Payments {
  import opened Text

  /** User ids, method tokens and gateway transaction ids are compared for equality only. */
  type Id = nat

  const DEFAULT_PREAUTH_AMOUNT_AMD := 5000

  datatype Gateway = Arca | Idram | ApplePay | GooglePay | WalletGateway

  datatype PaymentStatus = Pending | Authorized | Captured | Failed | Refunded

  /** A stored payment method; its row id is its position, and rows are in creation order. */
  datatype Method = Method(user: Id, gateway: Gateway, token: Id, isDefault: bool)

  datatype Payment = Payment(user: Id, methodId: nat, gateway: Gateway, status: PaymentStatus, amount: int,
                             authorizedAmount: int, capturedAmount: int, transaction: Option<Id>)

  /** The ledger of one session: what the gateway holds or has taken, how often it was asked to capture or
      refund and the wallet to pay, and whether a refund ever asked for another amount than was held or an
      authorisation ever overwrote an earlier payment row. */
  datatype Account = Account(held: int, captures: nat, deductions: nat, refunds: nat, wrongRefund: bool,
                             reauthorised: bool)

  const NO_MONEY := Account(0, 0, 0, 0, false, false)

  /** How the gateway answers one request. */
  datatype Reply = Reply(works: bool, transaction: Id, idramBalance: int)

  /** The two pre-authorisation amounts from the environment, when they are integers. */
  datatype Env = Env(arcaAmount: Option<int>, idramAmount: Option<int>, minimumBalance: Option<int>)

  datatype Error =
    | NoSupportedMethod
    | Declined
    | IdramBalanceTooLow
    | NotSupported(gateway: Gateway)
    | TransactionMissing
    | MethodMissing

  predicate ArcaRouted(gateway: Gateway) {
    gateway == Arca || gateway == ApplePay || gateway == GooglePay
  }

  predicate Supported(gateway: Gateway) {
    gateway != WalletGateway
  }

  function PositiveOrDefault(value: Option<int>, fallback: int): int {
    if value.Some? && value.value > 0 then value.value else fallback
  }

  function PreAuthAmount(env: Env, gateway: Gateway): int {
    PositiveOrDefault(if gateway == Idram then env.idramAmount else env.arcaAmount, DEFAULT_PREAUTH_AMOUNT_AMD)
  }

  // ----- choosing a method -----

  /** The first of the user's supported methods in creation order, or only the default ones. */
  function FirstSupported(methods: seq<Method>, user: Id, defaultOnly: bool): (k: nat)
    ensures k <= |methods|
    ensures k < |methods| ==> methods[k].user == user && Supported(methods[k].gateway)
  {
    if methods == [] then 0
    else if methods[0].user == user && Supported(methods[0].gateway) && (defaultOnly ==> methods[0].isDefault) then 0
    else 1 + FirstSupported(methods[1..], user, defaultOnly)
  }

  /** The default method when it is supported, else the oldest supported one. */
  function FindSupportedMethod(methods: seq<Method>, user: Id): (k: Option<nat>)
    ensures k.Some? ==> k.value < |methods| && methods[k.value].user == user && Supported(methods[k.value].gateway)
  {
    var preferred := FirstSupported(methods, user, true);
    if preferred < |methods| then Some(preferred)
    else
      var oldest := FirstSupported(methods, user, false);
      if oldest < |methods| then Some(oldest) else None
  }

  predicate HasDefaultWallet(methods: seq<Method>, user: Id) {
    exists k :: 0 <= k < |methods| && methods[k].user == user && methods[k].gateway == WalletGateway
      && methods[k].isDefault
  }

  // ----- the three operations on the payment of one session -----

  /** A payment, when there is one, and its ledger. */
  datatype Deal = Deal(payment: Option<Payment>, account: Account)

  function PreAuthorize(methods: seq<Method>, d: Deal, user: Id, env: Env, reply: Reply): (Deal, Option<Error>) {
    if d.payment.Some? && (d.payment.value.status == Authorized || d.payment.value.status == Captured) then (d, None)
    else
      var chosen := FindSupportedMethod(methods, user);
      if chosen.None? then (d, Some(NoSupportedMethod))
      else
        var gateway := methods[chosen.value].gateway;
        var amount := PreAuthAmount(env, gateway);
        if !reply.works then (d, Some(Declined))
        else if gateway == Idram && reply.idramBalance < amount then (d, Some(IdramBalanceTooLow))
        else
          // a card authorisation holds the amount; Idram only looks at the balance
          var transaction := if ArcaRouted(gateway) then Some(reply.transaction) else None;
          var account := d.account.(held := d.account.held + (if ArcaRouted(gateway) then amount else 0),
                                    reauthorised := d.account.reauthorised || d.payment.Some?);
          var row := Payment(user, chosen.value, gateway, Authorized, amount, amount, 0, transaction);
          // an existing row keeps its user and its captured amount
          if d.payment.None? then (Deal(Some(row), account), None)
          else
            var kept := row.(user := d.payment.value.user, capturedAmount := d.payment.value.capturedAmount);
            (Deal(Some(kept), account), None)
  }

  /** What stops a capture before the gateway is asked. */
  function CanCapture(methods: seq<Method>, p: Payment): Option<Error> {
    if ArcaRouted(p.gateway) then if p.transaction.None? then Some(TransactionMissing) else None
    else if p.gateway == Idram then
      if p.methodId >= |methods| || methods[p.methodId].gateway != Idram then Some(MethodMissing) else None
    else Some(NotSupported(p.gateway))
  }

  /** A card capture turns the hold into the captured amount; an Idram debit takes it on top. */
  function AskCapture(account: Account, gateway: Gateway, amount: int, works: bool): Account {
    account.(captures := account.captures + 1,
             held := if !works then account.held else if gateway == Idram then account.held + amount else amount)
  }

  function Capture(methods: seq<Method>, d: Deal, amount: int, reply: Reply): (Deal, Option<Error>) {
    if amount <= 0 || d.payment.None? || d.payment.value.status == Refunded then (d, None)
    else
      var p := d.payment.value;
      if p.status == Captured && p.capturedAmount == amount then (d, None)
      else if CanCapture(methods, p).Some? then (d, CanCapture(methods, p))
      else
        var account := AskCapture(d.account, p.gateway, amount, reply.works);
        if !reply.works then (d.(account := account), Some(Declined))
        else
          (Deal(Some(p.(amount := amount, capturedAmount := amount, status := Captured,
                        transaction := if p.gateway == Idram then Some(reply.transaction) else p.transaction)),
                account),
           None)
  }

  function RefundAmount(p: Payment): int {
    if p.capturedAmount > 0 then p.capturedAmount else if p.authorizedAmount > 0 then p.authorizedAmount else 0
  }

  function AskRefund(account: Account, amount: int, works: bool): Account {
    account.(refunds := account.refunds + 1, held := if works then account.held - amount else account.held,
             wrongRefund := account.wrongRefund || amount != account.held)
  }

  /** What stops a refund, and otherwise whether the gateway is asked at all: an Idram authorisation took
      nothing, so there is nothing to give back. */
  function CanRefund(p: Payment, amount: int): (Option<Error>, bool) {
    if ArcaRouted(p.gateway) then if p.transaction.None? then (Some(TransactionMissing), false) else (None, amount > 0)
    else if p.gateway == Idram then
      if amount <= 0 || p.transaction.Some? then (None, amount > 0)
      else (if p.status == Authorized then None else Some(TransactionMissing), false)
    else (Some(NotSupported(p.gateway)), false)
  }

  function Refund(d: Deal, reply: Reply): (Deal, Option<Error>) {
    if d.payment.None? || d.payment.value.status == Refunded then (d, None)
    else
      var p := d.payment.value;
      var amount := RefundAmount(p);
      var (error, ask) := CanRefund(p, amount);
      var account := if ask then AskRefund(d.account, amount, reply.works) else d.account;
      if error.Some? then (d, error)
      else if ask && !reply.works then (d.(account := account), Some(Declined))
      else (Deal(Some(p.(status := Refunded)), account), None)
  }

  // ----- setting up methods -----

  function ClearDefaults(methods: seq<Method>, user: Id): (r: seq<Method>)
    ensures |r| == |methods|
    ensures forall k :: 0 <= k < |r| ==>
      r[k] == if methods[k].user == user then methods[k].(isDefault := false) else methods[k]
  {
    seq(|methods|, k requires 0 <= k < |methods| =>
          if methods[k].user == user then methods[k].(isDefault := false) else methods[k])
  }

  function FindMethod(methods: seq<Method>, user: Id, gateway: Gateway, token: Option<Id>): (k: nat)
    ensures k <= |methods|
    ensures k < |methods| ==> methods[k].user == user && methods[k].gateway == gateway
  {
    if methods == [] then 0
    else if methods[0].user == user && methods[0].gateway == gateway
      && (token.Some? ==> methods[0].token == token.value) then 0
    else 1 + FindMethod(methods[1..], user, gateway, token)
  }

  /** Makes the wallet the user's default method, creating it when the user has none. */
  function SetWallet(methods: seq<Method>, user: Id, token: Id): seq<Method> {
    var k := FindMethod(methods, user, WalletGateway, None);
    var cleared := ClearDefaults(methods, user);
    if k < |methods| then cleared[k := cleared[k].(isDefault := true)]
    else cleared + [Method(user, WalletGateway, token, true)]
  }

  /** Stores the method behind an exchanged token. Without an explicit wish an existing method keeps its
      default flag, and a new one is no default. */
  function ExchangeToken(methods: seq<Method>, user: Id, gateway: Gateway, token: Id, isDefault: Option<bool>)
    : seq<Method>
  {
    var k := FindMethod(methods, user, gateway, Some(token));
    var cleared := if isDefault == Some(true) then ClearDefaults(methods, user) else methods;
    if k < |methods| then
      var flag := if isDefault.Some? then isDefault.value else methods[k].isDefault;
      cleared[k := cleared[k].(isDefault := flag, token := token)]
    else cleared + [Method(user, gateway, token, isDefault == Some(true))]
  }

  predicate OneDefault(methods: seq<Method>) {
    forall j, k :: 0 <= j < k < |methods| && methods[j].isDefault && methods[k].isDefault ==>
      methods[j].user != methods[k].user
  }

  /** Rows keep their place, their user and their gateway. */
  predicate Extends(methods: seq<Method>, methods': seq<Method>) {
    && |methods| <= |methods'|
    && forall k :: 0 <= k < |methods| ==>
      methods'[k].user == methods[k].user && methods'[k].gateway == methods[k].gateway
  }

  lemma SetWalletKeepsOneDefault(methods: seq<Method>, user: Id, token: Id)
    requires OneDefault(methods)
    ensures OneDefault(SetWallet(methods, user, token)) && Extends(methods, SetWallet(methods, user, token))
    ensures HasDefaultWallet(SetWallet(methods, user, token), user)
  {
    var k := FindMethod(methods, user, WalletGateway, None);
    var methods' := SetWallet(methods, user, token);
    assert methods'[k].user == user && methods'[k].gateway == WalletGateway && methods'[k].isDefault;
  }

  lemma ExchangeKeepsOneDefault(methods: seq<Method>, user: Id, gateway: Gateway, token: Id, isDefault: Option<bool>)
    requires OneDefault(methods)
    ensures OneDefault(ExchangeToken(methods, user, gateway, token, isDefault))
    ensures Extends(methods, ExchangeToken(methods, user, gateway, token, isDefault))
  {}

  // ----- what the operations keep -----

  /** The payment and the ledger of a session agree. */
  predicate DealOk(methods: seq<Method>, d: Deal) {
    && !d.account.wrongRefund && !d.account.reauthorised
    && (d.payment.None? ==> d.account == NO_MONEY.(deductions := d.account.deductions))
    && (d.payment.Some? ==> PaymentOk(methods, d.payment.value, d.account))
  }

  predicate PaymentOk(methods: seq<Method>, p: Payment, account: Account) {
    && p.methodId < |methods| && methods[p.methodId].gateway == p.gateway && methods[p.methodId].user == p.user
    && match p.status
       case Authorized =>
         && Supported(p.gateway) && p.authorizedAmount > 0 && p.capturedAmount == 0
         && (p.transaction.Some? <==> ArcaRouted(p.gateway))
         && account.held == (if ArcaRouted(p.gateway) then p.authorizedAmount else 0)
       case Captured =>
         && account.refunds == 0
         && (Supported(p.gateway) ==>
              && p.capturedAmount > 0 && p.transaction.Some?
              && account.held == p.capturedAmount && account.captures > 0)
         && (!Supported(p.gateway) ==> account.held == 0 && account.captures == 0)
       case Refunded =>
         && Supported(p.gateway) && account.held == 0
       case _ => false
  }

  lemma ExtendsKeepsDeal(methods: seq<Method>, methods': seq<Method>, d: Deal)
    requires Extends(methods, methods') && DealOk(methods, d)
    ensures DealOk(methods', d)
  {}

  /** An authorisation of a deal that was never refunded; errors change nothing. */
  lemma PreAuthorizeKeepsDeal(methods: seq<Method>, d: Deal, user: Id, env: Env, reply: Reply)
    requires DealOk(methods, d) && d.account.refunds == 0
    requires d.payment.Some? ==> d.payment.value.status != Refunded
    ensures var (d', error) := PreAuthorize(methods, d, user, env, reply);
      && DealOk(methods, d')
      && d'.account == d.account.(held := d'.account.held)
      && (error.None? ==>
          d'.payment.Some? && (d'.payment.value.status == Authorized || d'.payment.value.status == Captured))
      && (error.Some? ==> d' == d)
      && (d.payment.Some? ==> d' == d)
      && (d.payment.None? && d'.payment.Some? ==>
          d'.payment.value.user == user && d'.payment.value.status == Authorized)
  {}

  /** A capture asks the gateway at most once, never misses what it needs, and on success the gateway has
      taken exactly the amount. */
  lemma CaptureKeepsDeal(methods: seq<Method>, d: Deal, amount: int, reply: Reply)
    requires DealOk(methods, d) && d.account.refunds == 0
    requires d.payment.Some? ==> d.payment.value.status == Authorized
    ensures var (d', error) := Capture(methods, d, amount, reply);
      && DealOk(methods, d')
      && d'.account == d.account.(held := d'.account.held, captures := d'.account.captures)
      && d'.account.captures == d.account.captures + (if d.payment.Some? && amount > 0 then 1 else 0)
      && (d'.payment.Some? <==> d.payment.Some?)
      && (d'.payment.Some? ==>
          d'.payment.value.user == d.payment.value.user && d'.payment.value.status in {Authorized, Captured})
      && (error.None? || error == Some(Declined))
      && (d.payment.Some? && amount > 0 && reply.works ==>
           && error.None? && d'.account.held == amount
           && d'.payment.value
              == d.payment.value.(amount := amount, capturedAmount := amount, status := Captured,
                                  transaction := if d.payment.value.gateway == Idram then Some(reply.transaction)
                                                 else d.payment.value.transaction))
      && (d.payment.None? || amount <= 0 ==> d' == d && error.None?)
      && (d.payment.Some? && amount > 0 && !reply.works ==> d'.payment == d.payment && error == Some(Declined))
  {}

  /** A refund asks for exactly what the gateway holds, never misses what it needs, and leaves it nothing. */
  lemma RefundKeepsDeal(methods: seq<Method>, d: Deal, reply: Reply)
    requires DealOk(methods, d) && d.account.captures == 0
    requires d.payment.Some? ==> d.payment.value.status == Authorized
    ensures var (d', error) := Refund(d, reply);
      && DealOk(methods, d')
      && d'.account.captures == 0 && d'.account.deductions == d.account.deductions
      && d'.account.refunds <= d.account.refunds + 1
      && (d'.payment.Some? <==> d.payment.Some?)
      && (d'.payment.Some? ==>
          d'.payment.value.user == d.payment.value.user && d'.payment.value.status in {Authorized, Refunded})
      && (error.None? || error == Some(Declined))
      && (error.None? ==> d'.account.held == 0)
      && (error.None? && d.payment.Some? ==> d'.payment == Some(d.payment.value.(status := Refunded)))
      && (error == Some(Declined) <==> d.payment.Some? && d.payment.value.gateway != Idram && !reply.works)
      && (error.Some? ==> d'.payment == d.payment && d'.account.held == d.account.held)
  {}

  // ----- which method pays, and how much, in terms of the rows -----

  /** The user's methods other than the wallet. */
  predicate CanAuthorise(methods: seq<Method>, k: nat, user: Id) {
    k < |methods| && methods[k].user == user && methods[k].gateway != WalletGateway
  }

  /** The first of them in creation order that is a default, or without any default the first of them. */
  ghost predicate IsPreferred(methods: seq<Method>, k: nat, user: Id) {
    && CanAuthorise(methods, k, user)
    && if methods[k].isDefault then forall j: nat :: j < k && CanAuthorise(methods, j, user) ==> !methods[j].isDefault
       else forall j: nat :: CanAuthorise(methods, j, user) ==> k <= j && !methods[j].isDefault
  }

  lemma {:induction false} FirstSupportedIsFirst(methods: seq<Method>, user: Id, defaultOnly: bool)
    ensures var k := FirstSupported(methods, user, defaultOnly);
      && (k < |methods| ==> CanAuthorise(methods, k, user) && (defaultOnly ==> methods[k].isDefault))
      && forall j: nat :: j < k && CanAuthorise(methods, j, user) ==> defaultOnly && !methods[j].isDefault
  {
    if methods != [] {
      var rest := methods[1..];
      FirstSupportedIsFirst(rest, user, defaultOnly);
      forall j: nat | 0 < j && CanAuthorise(methods, j, user) ensures CanAuthorise(rest, j - 1, user) {}
    }
  }

  lemma FindsPreferred(methods: seq<Method>, user: Id)
    ensures match FindSupportedMethod(methods, user)
      case Some(k) => IsPreferred(methods, k, user)
      case None => forall k: nat :: !CanAuthorise(methods, k, user)
  {
    FirstSupportedIsFirst(methods, user, true);
    FirstSupportedIsFirst(methods, user, false);
  }

  /** The amount from the environment when it is positive, and 5000 otherwise. */
  function HoldFor(env: Env, gateway: Gateway): int {
    match gateway
    case Idram => if env.idramAmount.Some? && 0 < env.idramAmount.value then env.idramAmount.value else 5000
    case _ => if env.arcaAmount.Some? && 0 < env.arcaAmount.value then env.arcaAmount.value else 5000
  }

  /** Main result: a first authorisation is of the preferred method, for the amount of its gateway; a card
      then holds that amount under the gateway's transaction id, and Idram nothing. It fails for want of a
      method exactly when the user has none but the wallet. */
  lemma FirstAuthorisation(methods: seq<Method>, account: Account, user: Id, env: Env, reply: Reply)
    ensures var (d, error) := PreAuthorize(methods, Deal(None, account), user, env, reply);
      && (error == Some(NoSupportedMethod) <==> forall k: nat :: !CanAuthorise(methods, k, user))
      && (error.Some? ==> d == Deal(None, account))
      && (error.None? ==>
           && d.payment.Some?
           && var p := d.payment.value;
           && IsPreferred(methods, p.methodId, user) && p.gateway == methods[p.methodId].gateway
           && p.user == user && p.status == Authorized
           && p.amount == p.authorizedAmount == HoldFor(env, p.gateway) && p.capturedAmount == 0
           && reply.works
           && (p.gateway == Idram ==>
                && p.transaction == None && d.account == account && HoldFor(env, Idram) <= reply.idramBalance)
           && (p.gateway != Idram ==>
                && p.transaction == Some(reply.transaction)
                && d.account == account.(held := account.held + HoldFor(env, p.gateway))))
  {
    FindsPreferred(methods, user);
  }

  /** And with a method it fails exactly when the gateway does, or when Idram's balance is below the amount. */
  lemma FirstAuthorisationFails(methods: seq<Method>, account: Account, user: Id, env: Env, reply: Reply, k: nat)
    requires IsPreferred(methods, k, user)
    ensures var error := PreAuthorize(methods, Deal(None, account), user, env, reply).1;
      && (error == Some(Declined) <==> !reply.works)
      && (error == Some(IdramBalanceTooLow) <==>
           reply.works && methods[k].gateway == Idram && reply.idramBalance < HoldFor(env, Idram))
      && error in {None, Some(Declined), Some(IdramBalanceTooLow)}
  {
    FindsPreferred(methods, user);
  }

  /** An existing payment is left alone when it is authorised or captured; otherwise it is overwritten by what a
      first authorisation would create, but keeps its user and its captured amount, and the ledger takes note. */
  lemma LaterAuthorisation(methods: seq<Method>, p: Payment, account: Account, user: Id, env: Env, reply: Reply)
    ensures var (d, error) := PreAuthorize(methods, Deal(Some(p), account), user, env, reply);
      var (first, firstError) := PreAuthorize(methods, Deal(None, account), user, env, reply);
      if p.status == Authorized || p.status == Captured then d == Deal(Some(p), account) && error == None
      else
        && error == firstError
        && (error == None ==>
             && d.payment == Some(first.payment.value.(user := p.user, capturedAmount := p.capturedAmount))
             && d.account == first.account.(reauthorised := true))
        && (error != None ==> d == Deal(Some(p), account))
  {}

  // ----- captures and refunds in every state of a payment -----

  /** A capture is asked for exactly when the amount is positive and there is a payment that was not refunded and
      not captured at that amount; a card then needs its transaction id, and Idram its stored method. */
  lemma CaptureOutcome(methods: seq<Method>, p: Payment, account: Account, amount: int, reply: Reply)
    ensures Capture(methods, Deal(None, account), amount, reply) == (Deal(None, account), None)
    ensures var (d, error) := Capture(methods, Deal(Some(p), account), amount, reply);
      var due := 0 < amount && p.status != Refunded && (p.status != Captured || p.capturedAmount != amount);
      var card := p.gateway in {Arca, ApplePay, GooglePay};
      var hasRow := p.methodId < |methods| && methods[p.methodId].gateway == Idram;
      && (!due ==> d == Deal(Some(p), account) && error == None)
      && (error == Some(TransactionMissing) <==> due && card && p.transaction == None)
      && (error == Some(MethodMissing) <==> due && p.gateway == Idram && !hasRow)
      && (error == Some(NotSupported(WalletGateway)) <==> due && p.gateway == WalletGateway)
      && (error in {Some(TransactionMissing), Some(MethodMissing), Some(NotSupported(WalletGateway))} ==>
           d == Deal(Some(p), account))
      && (due && ((card && p.transaction.Some?) || (p.gateway == Idram && hasRow)) ==>
           && d.account.captures == account.captures + 1
           && (reply.works ==>
                && error == None && d.account.held == (if p.gateway == Idram then account.held + amount else amount)
                && d.payment == Some(p.(amount := amount, capturedAmount := amount, status := Captured,
                                        transaction := if card then p.transaction else Some(reply.transaction))))
           && (!reply.works ==>
                error == Some(Declined) && d.account.held == account.held && d.payment == Some(p)))
  {}

  /** A refund asks for the captured amount if that is positive, and else for the authorised one; nothing is
      asked for when neither is, or when Idram was only looked at. */
  lemma RefundOutcome(p: Payment, account: Account, reply: Reply)
    ensures Refund(Deal(None, account), reply) == (Deal(None, account), None)
    ensures var (d, error) := Refund(Deal(Some(p), account), reply);
      var owed := if 0 < p.capturedAmount then p.capturedAmount else p.authorizedAmount;
      var card := p.gateway in {Arca, ApplePay, GooglePay};
      var asked := 0 < owed && p.transaction.Some? && (card || p.gateway == Idram);
      && (p.status == Refunded ==> d == Deal(Some(p), account) && error == None)
      && (p.status != Refunded ==>
           && (error == Some(NotSupported(WalletGateway)) <==> p.gateway == WalletGateway)
           && (error == Some(TransactionMissing) <==>
                p.transaction == None && (card || (p.gateway == Idram && 0 < owed && p.status != Authorized)))
           && (error == Some(Declined) <==> asked && !reply.works)
           && d.payment == Some(if error == None then p.(status := Refunded) else p)
           && d.account == (if asked then
                              account.(refunds := account.refunds + 1,
                                       held := account.held - (if reply.works then owed else 0),
                                       wrongRefund := account.wrongRefund || owed != account.held)
                            else account))
  {}

  // ----- what setting up changes, row by row -----

  predicate IsRow(methods: seq<Method>, k: nat, user: Id, gateway: Gateway, token: Option<Id>) {
    && k < |methods| && methods[k].user == user && methods[k].gateway == gateway
    && (token.Some? ==> methods[k].token == token.value)
  }

  ghost predicate IsFirstRow(methods: seq<Method>, k: nat, user: Id, gateway: Gateway, token: Option<Id>) {
    IsRow(methods, k, user, gateway, token) && forall j: nat :: j < k ==> !IsRow(methods, j, user, gateway, token)
  }

  lemma {:induction false} FindsFirstRow(methods: seq<Method>, user: Id, gateway: Gateway, token: Option<Id>)
    ensures var k := FindMethod(methods, user, gateway, token);
      && (k < |methods| ==> IsRow(methods, k, user, gateway, token))
      && forall j: nat :: j < k ==> !IsRow(methods, j, user, gateway, token)
  {
    if methods != [] {
      var rest := methods[1..];
      FindsFirstRow(rest, user, gateway, token);
      forall j: nat | 0 < j && IsRow(methods, j, user, gateway, token)
        ensures IsRow(rest, j - 1, user, gateway, token)
      {}
    }
  }

  /** The wallet becomes the default in its row, or in a new last row when the user has none; of the other
      rows only the user's lose their default flags. */
  lemma SetWalletRows(methods: seq<Method>, user: Id, token: Id, k: nat)
    ensures var methods' := SetWallet(methods, user, token);
      && (IsFirstRow(methods, k, user, WalletGateway, None) ==>
           |methods'| == |methods| && methods'[k] == methods[k].(isDefault := true))
      && ((forall j: nat :: !IsRow(methods, j, user, WalletGateway, None)) ==>
           methods' == methods'[..|methods|] + [Method(user, WalletGateway, token, true)])
      && forall j: nat :: j < |methods| && !IsFirstRow(methods, j, user, WalletGateway, None) ==>
           methods'[j] == if methods[j].user == user then methods[j].(isDefault := false) else methods[j]
  {
    FindsFirstRow(methods, user, WalletGateway, None);
    var i := FindMethod(methods, user, WalletGateway, None);
    assert i < |methods| ==> IsFirstRow(methods, i, user, WalletGateway, None);
  }

  /** The row of an exchanged token is updated, or a new last row created; the other rows of the user lose
      their default flags exactly when the new one asks to be the default. */
  lemma ExchangeTokenRows(methods: seq<Method>, user: Id, gateway: Gateway, token: Id, isDefault: Option<bool>, k: nat)
    ensures var methods' := ExchangeToken(methods, user, gateway, token, isDefault);
      && (IsFirstRow(methods, k, user, gateway, Some(token)) ==>
           && |methods'| == |methods|
           && methods'[k] == methods[k].(isDefault := if isDefault == None then methods[k].isDefault
                                                      else isDefault == Some(true)))
      && ((forall j: nat :: !IsRow(methods, j, user, gateway, Some(token))) ==>
           methods' == methods'[..|methods|] + [Method(user, gateway, token, isDefault == Some(true))])
      && forall j: nat :: j < |methods| && !IsFirstRow(methods, j, user, gateway, Some(token)) ==>
           methods'[j] == if isDefault == Some(true) && methods[j].user == user then methods[j].(isDefault := false)
                          else methods[j]
  {
    FindsFirstRow(methods, user, gateway, Some(token));
    var i := FindMethod(methods, user, gateway, Some(token));
    assert i < |methods| ==> IsFirstRow(methods, i, user, gateway, Some(token));
  }
}
