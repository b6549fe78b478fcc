/**
 The hub canister's state and what each uninterrupted stretch of its payment
 handlers makes of it, as functions.
 */
module HubHandlers {
  import opened Prelude
  import opened PaymentOrders

  /** The settings that init sets and upgrade arguments change. */
  datatype Config = Config(name: string, owner: Principal, factoryCanisterId: Principal, env: string)

  datatype UpgradeArgs = UpgradeArgs(name: Option<string>, owner: Option<Principal>,
                                     factoryCanisterId: Option<Principal>, env: Option<string>)

  function Or<T>(given: Option<T>, present: T): T {
    if given.Some? then given.value else present
  }

  function Merged(c: Config, args: UpgradeArgs): Config {
    Config(Or(args.name, c.name), Or(args.owner, c.owner), Or(args.factoryCanisterId, c.factoryCanisterId),
           Or(args.env, c.env))
  }

  datatype State = State(config: Config, inviteCodes: seq<string>, nextOrderId: nat, totalOrders: nat)

  /** `STATE`, `STATE_STORE` and `PAYMENT_STORE`. */
  datatype Canister = Canister(heap: State, stable: State, orders: map<nat, PaymentOrder>)

  datatype HubError = OrderNotFound | NotOwner | VerificationFailed | RefundFailed | MaximumRecords

  /** A handler waiting for the ledger, with the copy of the order it carries. */
  datatype Call =
    | VerifyCall(order: PaymentOrder)
    | ShareCall(order: PaymentOrder, amount: nat)
    | RefundBalanceCall(order: PaymentOrder, to: Owner)
    | RefundTransferCall(order: PaymentOrder, to: Owner, amount: nat)

  /** A stretch ends with an answer, with a question to the ledger, or in a trap that undoes it. */
  datatype Outcome = Returned(answer: Result<bool, HubError>) | Suspended(call: Call) | Aborted

  const MAX_INVITE_CODES: nat := 500

  function Initial(config: Config): Canister {
    var s := State(config, [], 0, 0);
    Canister(s, s, map[])
  }

  function Load(c: Canister): Canister {
    c.(heap := c.stable)
  }

  function Save(c: Canister): Canister {
    c.(stable := c.heap)
  }

  function Put(c: Canister, id: nat, o: PaymentOrder): Canister {
    c.(orders := c.orders[id := o])
  }

  /** Load, store an order priced for creation under the next id, count it, save. */
  function CreateOrder(c: Canister, payer: Principal, source: string, token: string, amount: nat, now: nat): Canister {
    var s := c.stable;
    var s' := s.(totalOrders := s.totalOrders + 1, nextOrderId := s.nextOrderId + 1);
    var o := NewOrder(s.nextOrderId, payer, source, token, amount, CreationPrice(token, amount), now);
    Canister(s', s', c.orders[s.nextOrderId := o])
  }

  function AddInviteCode(c: Canister, code: string): Canister {
    var s := c.stable;
    if code in s.inviteCodes then Load(c)
    else if |s.inviteCodes| >= MAX_INVITE_CODES then Load(c)
    else Save(c.(heap := s.(inviteCodes := s.inviteCodes + [code])))
  }

  /** `pre_upgrade` saves, `post_upgrade` loads and applies its arguments to the heap copy only. */
  function Upgrade(c: Canister, args: Option<UpgradeArgs>): Canister {
    var c' := Load(Save(c));
    if args.Some? then c'.(heap := c'.heap.(config := Merged(c.heap.config, args.value))) else c'
  }

  // ---- confirm_payment_order ----

  function ConfirmFinish(c: Canister, id: nat, o: PaymentOrder, verified: bool): (Canister, Outcome) {
    (Put(c, id, o), Returned(if verified then Ok(true) else Err(VerificationFailed)))
  }

  function ShareStep(c: Canister, id: nat, o: PaymentOrder, now: nat): (Canister, Outcome) {
    var s := ShareBegin(o, now);
    if s.Finished? then ConfirmFinish(c, id, s.order, true)
    else if ShareTraps(o.token) then (c, Aborted)
    else if Supported(o.token) then (c, Suspended(ShareCall(s.order, s.amount)))
    else ResumeShare(c, id, s.order, false, now)
  }

  function AfterVerify(c: Canister, id: nat, s: Stretch, now: nat): (Canister, Outcome)
    requires s.Finished?
  {
    if s.ok then ShareStep(c, id, s.order, now) else ConfirmFinish(c, id, s.order, false)
  }

  function Confirm(c: Canister, id: nat, now: nat): (Canister, Outcome) {
    if id !in c.orders then (c, Returned(Err(OrderNotFound)))
    else
      var s := VerifyBegin(c.orders[id], now);
      if s.Finished? then AfterVerify(c, id, s, now)
      else if Supported(s.order.token) then (c, Suspended(VerifyCall(s.order)))
      else ResumeVerify(c, id, s.order, 0, now)
  }

  function ResumeVerify(c: Canister, id: nat, o: PaymentOrder, balance: nat, now: nat): (Canister, Outcome) {
    AfterVerify(c, id, VerifyEnd(o, balance, now), now)
  }

  function ResumeShare(c: Canister, id: nat, o: PaymentOrder, sent: bool, now: nat): (Canister, Outcome) {
    ConfirmFinish(c, id, ShareEnd(o, sent, now), true)
  }

  // ---- refund_payment_order ----

  function RefundFinish(c: Canister, id: nat, s: Stretch): (Canister, Outcome)
    requires s.Finished?
  {
    (Put(c, id, s.order), Returned(if s.ok then Ok(true) else Err(RefundFailed)))
  }

  function Refund(c: Canister, id: nat, caller: Principal, to: Owner, now: nat): (Canister, Outcome) {
    if id !in c.orders then (c, Returned(Err(OrderNotFound)))
    else if c.orders[id].payer != caller then (c, Returned(Err(NotOwner)))
    else
      var s := RefundBegin(c.orders[id]);
      if s.Finished? then RefundFinish(c, id, s)
      else if Supported(s.order.token) then (c, Suspended(RefundBalanceCall(s.order, to)))
      else ResumeRefundBalance(c, id, s.order, to, 0, now)
  }

  function ResumeRefundBalance(c: Canister, id: nat, o: PaymentOrder, to: Owner, balance: nat, now: nat)
    : (Canister, Outcome)
  {
    var s := RefundMiddle(o, balance);
    if s.Finished? then RefundFinish(c, id, s)
    else if Supported(o.token) then (c, Suspended(RefundTransferCall(s.order, to, s.amount)))
    else ResumeRefundTransfer(c, id, s.order, false, now)
  }

  function ResumeRefundTransfer(c: Canister, id: nat, o: PaymentOrder, sent: bool, now: nat): (Canister, Outcome) {
    RefundFinish(c, id, RefundEnd(o, sent, now))
  }
}
