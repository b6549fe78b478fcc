/**
 Runs of the hub canister against the ledgers. Calls are started, answered by the
 ledger and resumed in any interleaving; deposits arrive at any time. Only calls on
 one and the same order do not overlap.
 */
module HubRuns {
  import opened Prelude
  import opened PaymentOrders
  import opened HubHandlers
  import opened Ledger

  datatype Answer = Waiting | BalanceRead(balance: nat) | TransferDone(ok: bool)

  /** A suspended handler and what the ledger has said to it so far. */
  datatype InFlight = InFlight(call: Call, answer: Answer)

  datatype World = World(hub: Canister, log: Log, calls: map<nat, InFlight>)

  datatype Event =
    | CreateCalled(payer: Principal, source: string, token: string, amount: nat, now: nat)
    | ConfirmCalled(id: nat, now: nat)
    | RefundCalled(id: nat, caller: Principal, to: Owner, now: nat)
    | BalanceAnswered(id: nat, reached: bool)
    | TransferAnswered(id: nat, accepted: bool)
    | Resumed(id: nat, now: nat)
    | Trapped(id: nat)
    | Deposited(account: Account, amount: nat)
    | InviteCodeAdded(code: string)
    | Upgraded(args: Option<UpgradeArgs>)

  predicate AsksBalance(c: Call) {
    c.VerifyCall? || c.RefundBalanceCall?
  }

  function Destination(c: Call): Owner
    requires !AsksBalance(c)
  {
    if c.ShareCall? then Treasury else c.to
  }

  /** The transfer a call asks for: the ledger takes its fee on top. */
  function TransferOf(c: Call): Entry
    requires !AsksBalance(c)
  {
    Out(if c.ShareCall? then Sharing else Refunding, SubaccountOf(c.order),
        Account(c.order.token, Destination(c)), c.amount, TokenFee(c.order.token))
  }

  function Settle(w: World, id: nat, r: (Canister, Outcome)): World {
    w.(hub := r.0,
       calls := if r.1.Suspended? then w.calls[id := InFlight(r.1.call, Waiting)] else w.calls - {id})
  }

  function Resume(c: Canister, id: nat, f: InFlight, now: nat): (Canister, Outcome) {
    match (f.call, f.answer)
    case (VerifyCall(o), BalanceRead(b)) => HubHandlers.ResumeVerify(c, id, o, b, now)
    case (ShareCall(o, _), TransferDone(ok)) => HubHandlers.ResumeShare(c, id, o, ok, now)
    case (RefundBalanceCall(o, to), BalanceRead(b)) => HubHandlers.ResumeRefundBalance(c, id, o, to, b, now)
    case (RefundTransferCall(o, _, _), TransferDone(ok)) => HubHandlers.ResumeRefundTransfer(c, id, o, ok, now)
    case _ => (c, Suspended(f.call))
  }

  /** A balance answer is the balance, or 0 when the ledger could not be reached. */
  function AnswerBalance(w: World, id: nat, reached: bool): World
    requires id in w.calls
  {
    var f := w.calls[id];
    var a := SubaccountOf(f.call.order);
    var b := Balance(w.log, a);
    if !AsksBalance(f.call) || f.answer != Waiting then w
    else if reached && b >= 0 then
      w.(log := w.log + [Read(a)], calls := w.calls[id := f.(answer := BalanceRead(b))])
    else w.(calls := w.calls[id := f.(answer := BalanceRead(0))])
  }

  /** A transfer goes through or fails; it always fails when the money is not there. */
  function AnswerTransfer(w: World, id: nat, accepted: bool): World
    requires id in w.calls
  {
    var f := w.calls[id];
    if AsksBalance(f.call) || f.answer != Waiting then w
    else
      var t := TransferOf(f.call);
      if accepted && Balance(w.log, t.from) >= t.amount + t.fee then
        w.(log := w.log + [t], calls := w.calls[id := f.(answer := TransferDone(true))])
      else w.(calls := w.calls[id := f.(answer := TransferDone(false))])
  }

  /** One event. Events that do not apply, and calls that would overlap on an order, change nothing. */
  function Next(w: World, e: Event): World {
    match e
    case CreateCalled(payer, source, token, amount, now) =>
      w.(hub := CreateOrder(w.hub, payer, source, token, amount, now))
    case ConfirmCalled(id, now) =>
      if id in w.calls then w else Settle(w, id, Confirm(w.hub, id, now))
    case RefundCalled(id, caller, to, now) =>
      if id in w.calls then w else Settle(w, id, Refund(w.hub, id, caller, to, now))
    case BalanceAnswered(id, reached) =>
      if id in w.calls then AnswerBalance(w, id, reached) else w
    case TransferAnswered(id, accepted) =>
      if id in w.calls then AnswerTransfer(w, id, accepted) else w
    case Resumed(id, now) =>
      if id in w.calls && w.calls[id].answer != Waiting
      then Settle(w, id, Resume(w.hub, id, w.calls[id], now)) else w
    case Trapped(id) =>
      // the stretch after a balance answer may trap; nothing it did is kept
      if id in w.calls && w.calls[id].answer.BalanceRead? then w.(calls := w.calls - {id}) else w
    case Deposited(account, amount) => w.(log := w.log + [Credit(account, amount)])
    case InviteCodeAdded(code) => w.(hub := AddInviteCode(w.hub, code))
    case Upgraded(args) =>
      // a canister is stopped, with no call in flight, before it is upgraded
      if w.calls == map[] then w.(hub := Upgrade(w.hub, args)) else w
  }

  function After(config: Config, es: seq<Event>): World {
    if es == [] then World(Initial(config), [], map[])
    else Next(After(config, es[..|es| - 1]), es[|es| - 1])
  }

  lemma Extend(config: Config, es: seq<Event>, e: Event)
    ensures After(config, es + [e]) == Next(After(config, es), e)
  {
    assert (es + [e])[..|es + [e]| - 1] == es;
  }

  // ---- what every run keeps ----

  /** The two counters agree, in both copies, and the ids handed out are those below them. */
  ghost predicate CountersOk(c: Canister) {
    && c.heap.nextOrderId == c.heap.totalOrders == c.stable.nextOrderId == c.stable.totalOrders
    && (forall i :: i in c.orders <==> 0 <= i < c.heap.nextOrderId)
    && c.heap.inviteCodes == c.stable.inviteCodes
  }

  /** An order's subaccount holds `kept`, and beyond that exactly what came in since it was last read. */
  ghost predicate HoldsExactly(log: Log, o: PaymentOrder, kept: int) {
    Balance(log, SubaccountOf(o)) == kept + IncomingSinceRead(log, SubaccountOf(o))
  }

  ghost predicate Funded(log: Log, o: PaymentOrder) {
    HoldsExactly(log, o, o.amountPaid)
  }

  /** What a completed share leaves behind. */
  function KeptAfterShare(o: PaymentOrder): int {
    DAO_BASE_FEE - TokenFee(o.token)
  }

  ghost predicate Covered(o: PaymentOrder) {
    o.amountPaid >= o.amount && o.amountPaid > 0 && o.verifiedTime.Some?
  }

  /** An order with no call in flight: its record matches the transfers out of its subaccount. */
  ghost predicate Resting(log: Log, o: PaymentOrder) {
    var outs := TransfersOut(log, SubaccountOf(o));
    match o.status
    case Unpaid => outs == 0 && o.sharedTime == None
    case TimedOut => outs == 0 && o.sharedTime == None
    case Refunded => outs == 1 && o.sharedTime == None && HoldsExactly(log, o, 0)
    case Paid =>
      && Covered(o)
      && if o.sharedTime == None || o.amountPaid <= DAO_BASE_FEE
         then outs == 0 && Funded(log, o)
         else outs == 1 && HoldsExactly(log, o, KeptAfterShare(o))
    case _ => false
  }

  /** What a balance answer says about the ledger, once it is there. */
  ghost predicate AnswerHolds(log: Log, o: PaymentOrder, answer: Answer) {
    match answer
    case Waiting => true
    case BalanceRead(b) => b == 0 || Funded(log, o.(amountPaid := b))
    case TransferDone(_) => false
  }

  /** What a transfer answer says: the money is still there, or went out once. */
  ghost predicate TransferHolds(log: Log, o: PaymentOrder, kept: int, answer: Answer) {
    var outs := TransfersOut(log, SubaccountOf(o));
    match answer
    case BalanceRead(_) => false
    case Waiting => outs == 0 && Funded(log, o)
    case TransferDone(ok) => if ok then outs == 1 && HoldsExactly(log, o, kept) else outs == 0 && Funded(log, o)
  }

  ghost predicate Open(o: PaymentOrder) {
    (o.status == Unpaid || o.status == TimedOut) && o.sharedTime == None
  }

  /** An order with a call in flight: how the call's copy and the ledger relate to the stored order. */
  ghost predicate CallOk(log: Log, o: PaymentOrder, f: InFlight) {
    && Supported(o.token)
    && match f.call
       case VerifyCall(k) =>
         && o.status == Unpaid && o.sharedTime == None && k == o.(status := Verifying)
         && TransfersOut(log, SubaccountOf(o)) == 0 && AnswerHolds(log, o, f.answer)
       case ShareCall(k, amount) =>
         && (k == o || (o.status == Unpaid && o.sharedTime == None))
         && k == o.(status := Paid, amountPaid := k.amountPaid, verifiedTime := k.verifiedTime)
         && k.sharedTime == None && Covered(k)
         && k.amountPaid > DAO_BASE_FEE && amount == k.amountPaid - DAO_BASE_FEE
         && TransferHolds(log, k, KeptAfterShare(k), f.answer)
       case RefundBalanceCall(k, _) =>
         && Open(o) && k == o
         && TransfersOut(log, SubaccountOf(o)) == 0 && AnswerHolds(log, o, f.answer)
       case RefundTransferCall(k, _, amount) =>
         && Open(o) && k == o.(amountPaid := k.amountPaid)
         && k.amountPaid == amount + TokenFee(o.token)
         && TransferHolds(log, k, 0, f.answer)
  }

  ghost predicate OrderOk(w: World, id: nat)
    requires id in w.hub.orders
  {
    var o := w.hub.orders[id];
    o.id == id && if id in w.calls then CallOk(w.log, o, w.calls[id]) else Resting(w.log, o)
  }

  /** What a transfer in the log is worth: all but the base fee, or everything, and what came in since. */
  ghost predicate TransferOk(log: Log, k: nat)
    requires k < |log| && log[k].Out?
  {
    var t := log[k];
    && t.fee == TokenFee(t.from.token)
    && t.to.token == t.from.token
    && (t.purpose == Sharing ==> t.to.owner == Treasury)
    && Balance(log[..k], t.from) == t.amount + IncomingSinceRead(log[..k], t.from)
         + if t.purpose == Sharing then DAO_BASE_FEE else t.fee
  }

  /** Every transfer in the log left the subaccount of a stored order. */
  ghost predicate LogOk(w: World) {
    forall k :: 0 <= k < |w.log| && w.log[k].Out? ==>
      && TransferOk(w.log, k)
      && w.log[k].from.owner.OrderSubaccount? && w.log[k].from.owner.id in w.hub.orders
      && w.log[k].from == SubaccountOf(w.hub.orders[w.log[k].from.owner.id])
  }

  ghost predicate Good(w: World) {
    && CountersOk(w.hub)
    && w.calls.Keys <= w.hub.orders.Keys
    && (forall id :: id in w.hub.orders ==> OrderOk(w, id))
    && LogOk(w)
  }

  /** How a stored order may change. */
  ghost predicate Evolves(o: PaymentOrder, o': PaymentOrder) {
    && o'.id == o.id && o'.payer == o.payer && o'.amount == o.amount && o'.token == o.token
    && o'.createdTime == o.createdTime && o'.source == o.source && o'.paymentType == o.paymentType
    && o'.status != Verifying && o'.status != Cancelled
    && (o.status == Refunded ==> o' == o)
    && (o.status == TimedOut ==> o'.status == TimedOut || o'.status == Refunded)
    && (o.status == Paid ==> o' == o.(sharedTime := o'.sharedTime))
    && (o.sharedTime.Some? ==> o' == o)
  }

  // ---- one stretch of a handler ----

  /** A stretch leaves its order in a state that fits the ledger, and everything else alone. */
  ghost predicate GoodOutcome(log: Log, c: Canister, id: nat, r: (Canister, Outcome))
    requires id in c.orders
  {
    && r.0 == c.(orders := r.0.orders)
    && id in r.0.orders && r.0.orders == c.orders[id := r.0.orders[id]]
    && Evolves(c.orders[id], r.0.orders[id])
    && match r.1
       case Returned(_) => Resting(log, r.0.orders[id])
       case Suspended(call) => CallOk(log, r.0.orders[id], InFlight(call, Waiting))
       case Aborted => r.0 == c && Resting(log, c.orders[id])
  }

  /** `confirm_payment_order` answers Ok exactly when it leaves the order Paid. */
  ghost predicate ConfirmTellsTruth(r: (Canister, Outcome), id: nat) {
    r.1.Returned? ==> id in r.0.orders && (r.1.answer.Ok? <==> r.0.orders[id].status == Paid)
  }

  /** `refund_payment_order` answers Ok exactly when it turns an order into a Refunded one. */
  ghost predicate RefundTellsTruth(c: Canister, r: (Canister, Outcome), id: nat) {
    r.1.Returned? ==>
      && id in c.orders && id in r.0.orders
      && (r.1.answer.Ok? <==> c.orders[id].status != Refunded && r.0.orders[id].status == Refunded)
  }

  lemma ConfirmGood(log: Log, c: Canister, id: nat, now: nat)
    requires id in c.orders && Resting(log, c.orders[id])
    ensures GoodOutcome(log, c, id, Confirm(c, id, now))
    ensures ConfirmTellsTruth(Confirm(c, id, now), id)
  {
  }

  lemma RefundGood(log: Log, c: Canister, id: nat, caller: Principal, to: Owner, now: nat)
    requires id in c.orders && Resting(log, c.orders[id])
    ensures GoodOutcome(log, c, id, Refund(c, id, caller, to, now))
    ensures RefundTellsTruth(c, Refund(c, id, caller, to, now), id)
  {
  }

  lemma ResumeVerifyGood(log: Log, c: Canister, id: nat, f: InFlight, now: nat)
    requires id in c.orders && CallOk(log, c.orders[id], f) && f.call.VerifyCall? && f.answer != Waiting
    ensures GoodOutcome(log, c, id, Resume(c, id, f, now))
    ensures ConfirmTellsTruth(Resume(c, id, f, now), id)
  {
  }

  lemma ResumeRefundGood(log: Log, c: Canister, id: nat, f: InFlight, now: nat)
    requires id in c.orders && CallOk(log, c.orders[id], f) && f.call.RefundBalanceCall? && f.answer != Waiting
    ensures GoodOutcome(log, c, id, Resume(c, id, f, now))
    ensures RefundTellsTruth(c, Resume(c, id, f, now), id)
  {
  }

  lemma ResumeGood(log: Log, c: Canister, id: nat, f: InFlight, now: nat)
    requires id in c.orders && CallOk(log, c.orders[id], f) && f.answer != Waiting
    ensures GoodOutcome(log, c, id, Resume(c, id, f, now))
    ensures f.call.VerifyCall? || f.call.ShareCall? ==> ConfirmTellsTruth(Resume(c, id, f, now), id)
    ensures !(f.call.VerifyCall? || f.call.ShareCall?) ==> RefundTellsTruth(c, Resume(c, id, f, now), id)
  {
    if f.call.VerifyCall? {
      ResumeVerifyGood(log, c, id, f, now);
    } else if f.call.RefundBalanceCall? {
      ResumeRefundGood(log, c, id, f, now);
    }
  }

  // ---- the log grows ----

  /** An entry that neither reads nor spends an order's subaccount. */
  ghost predicate Foreign(e: Entry, o: PaymentOrder) {
    e != Read(SubaccountOf(o)) && (e.Out? ==> e.from != SubaccountOf(o))
  }

  lemma FundedExtends(log: Log, o: PaymentOrder, e: Entry)
    requires Foreign(e, o)
    ensures forall kept: int :: HoldsExactly(log + [e], o, kept) == HoldsExactly(log, o, kept)
    ensures TransfersOut(log + [e], SubaccountOf(o)) == TransfersOut(log, SubaccountOf(o))
  {
    Appended(log, e, SubaccountOf(o));
  }

  lemma OrderOkExtends(w: World, w': World, id: nat, e: Entry)
    requires id in w.hub.orders && OrderOk(w, id) && Foreign(e, w.hub.orders[id])
    requires w'.log == w.log + [e] && id in w'.hub.orders && w'.hub.orders[id] == w.hub.orders[id]
    requires id in w.calls <==> id in w'.calls
    requires id in w.calls ==> w'.calls[id] == w.calls[id]
    ensures OrderOk(w', id)
  {
    var o := w.hub.orders[id];
    FundedExtends(w.log, o, e);
    if id in w.calls {
      var f := w.calls[id];
      FundedExtends(w.log, f.call.order, e);
      if f.answer.BalanceRead? {
        FundedExtends(w.log, o.(amountPaid := f.answer.balance), e);
      }
    }
  }

  lemma LogOkExtends(w: World, w': World, e: Entry)
    requires LogOk(w) && w'.log == w.log + [e] && w'.hub.orders == w.hub.orders
    requires e.Out? ==>
      && TransferOk(w'.log, |w.log|)
      && e.from.owner.OrderSubaccount? && e.from.owner.id in w.hub.orders
      && e.from == SubaccountOf(w.hub.orders[e.from.owner.id])
    ensures LogOk(w')
  {
    forall k | 0 <= k < |w'.log| && w'.log[k].Out?
      ensures TransferOk(w'.log, k)
    {
      if k < |w.log| {
        assert w'.log[..k] == w.log[..k];
        assert TransferOk(w.log, k);
      }
    }
  }

  /** An account no transfer has left. */
  lemma {:induction false} NoTransfers(log: Log, a: Account)
    requires forall k :: 0 <= k < |log| && log[k].Out? ==> log[k].from != a
    ensures TransfersOut(log, a) == 0
    decreases |log|
  {
    if log != [] {
      NoTransfers(log[..|log| - 1], a);
    }
  }

  // ---- every event keeps the invariant ----

  lemma CreateKeepsGood(w: World, payer: Principal, source: string, token: string, amount: nat, now: nat)
    requires Good(w)
    ensures Good(Next(w, CreateCalled(payer, source, token, amount, now)))
  {
    var w' := Next(w, CreateCalled(payer, source, token, amount, now));
    var id := w.hub.stable.nextOrderId;
    assert id !in w.hub.orders;
    NoTransfers(w.log, SubaccountOf(w'.hub.orders[id]));
    forall j | j in w'.hub.orders
      ensures OrderOk(w', j)
    {
      if j != id {
        assert OrderOk(w, j);
      }
    }
  }

  lemma SettleKeepsGood(w: World, id: nat, r: (Canister, Outcome))
    requires Good(w) && id in w.hub.orders && GoodOutcome(w.log, w.hub, id, r)
    ensures Good(Settle(w, id, r))
  {
    var w' := Settle(w, id, r);
    assert OrderOk(w, id);
    forall j | j in w'.hub.orders
      ensures OrderOk(w', j)
    {
      if j != id {
        assert OrderOk(w, j);
      }
    }
  }

  lemma AnswerBalanceKeepsGood(w: World, id: nat, reached: bool)
    requires Good(w) && id in w.calls
    ensures Good(AnswerBalance(w, id, reached))
  {
    var w' := AnswerBalance(w, id, reached);
    var f := w.calls[id];
    assert OrderOk(w, id);
    var e := Read(SubaccountOf(f.call.order));
    Appended(w.log, e, SubaccountOf(f.call.order));
    if w'.log != w.log {
      LogOkExtends(w, w', e);
    }
    forall j | j in w'.hub.orders
      ensures OrderOk(w', j)
    {
      assert OrderOk(w, j);
      if j != id && w'.log != w.log {
        OrderOkExtends(w, w', j, e);
      }
    }
  }

  lemma AnswerTransferKeepsGood(w: World, id: nat, accepted: bool)
    requires Good(w) && id in w.calls
    ensures Good(AnswerTransfer(w, id, accepted))
  {
    var w' := AnswerTransfer(w, id, accepted);
    var f := w.calls[id];
    assert OrderOk(w, id);
    if w'.log != w.log {
      var t := TransferOf(f.call);
      Appended(w.log, t, t.from);
      assert w'.log[..|w.log|] == w.log;
      LogOkExtends(w, w', t);
      forall j | j in w'.hub.orders
        ensures OrderOk(w', j)
      {
        assert OrderOk(w, j);
        if j != id {
          OrderOkExtends(w, w', j, t);
        }
      }
    } else {
      forall j | j in w'.hub.orders
        ensures OrderOk(w', j)
      {
        assert OrderOk(w, j);
      }
    }
  }

  lemma DepositKeepsGood(w: World, account: Account, amount: nat)
    requires Good(w)
    ensures Good(Next(w, Deposited(account, amount)))
  {
    var w' := Next(w, Deposited(account, amount));
    var e := Credit(account, amount);
    LogOkExtends(w, w', e);
    forall j | j in w'.hub.orders
      ensures OrderOk(w', j)
    {
      assert OrderOk(w, j);
      OrderOkExtends(w, w', j, e);
    }
  }

  /** Dropping a call at its balance answer, or changing settings only, touches no order. */
  lemma QuietStepKeepsGood(w: World, w': World)
    requires Good(w) && CountersOk(w'.hub) && w'.hub.orders == w.hub.orders && w'.log == w.log
    requires w'.calls.Keys <= w.calls.Keys
    requires forall id :: id in w'.calls ==> w'.calls[id] == w.calls[id]
    requires forall id :: id in w.calls && id !in w'.calls ==> w.calls[id].answer.BalanceRead?
    ensures Good(w')
  {
    forall j | j in w'.hub.orders
      ensures OrderOk(w', j)
    {
      assert OrderOk(w, j);
    }
  }

  lemma NextKeepsGood(w: World, e: Event)
    requires Good(w)
    ensures Good(Next(w, e))
  {
    match e
    case CreateCalled(payer, source, token, amount, now) => CreateKeepsGood(w, payer, source, token, amount, now);
    case ConfirmCalled(id, now) =>
      if id !in w.calls && id in w.hub.orders {
        assert OrderOk(w, id);
        ConfirmGood(w.log, w.hub, id, now);
        SettleKeepsGood(w, id, Confirm(w.hub, id, now));
      } else {
        QuietStepKeepsGood(w, Next(w, e));
      }
    case RefundCalled(id, caller, to, now) =>
      if id !in w.calls && id in w.hub.orders && w.hub.orders[id].payer == caller {
        assert OrderOk(w, id);
        RefundGood(w.log, w.hub, id, caller, to, now);
        SettleKeepsGood(w, id, Refund(w.hub, id, caller, to, now));
      } else {
        QuietStepKeepsGood(w, Next(w, e));
      }
    case BalanceAnswered(id, reached) =>
      if id in w.calls {
        AnswerBalanceKeepsGood(w, id, reached);
      }
    case TransferAnswered(id, accepted) =>
      if id in w.calls {
        AnswerTransferKeepsGood(w, id, accepted);
      }
    case Resumed(id, now) =>
      if id in w.calls && w.calls[id].answer != Waiting {
        assert OrderOk(w, id);
        ResumeGood(w.log, w.hub, id, w.calls[id], now);
        SettleKeepsGood(w, id, Resume(w.hub, id, w.calls[id], now));
      }
    case Trapped(id) => QuietStepKeepsGood(w, Next(w, e));
    case Deposited(account, amount) => DepositKeepsGood(w, account, amount);
    case InviteCodeAdded(code) => QuietStepKeepsGood(w, Next(w, e));
    case Upgraded(args) => QuietStepKeepsGood(w, Next(w, e));
  }

  lemma {:induction false} RunsAreGood(config: Config, es: seq<Event>)
    ensures Good(After(config, es))
    decreases |es|
  {
    if es != [] {
      RunsAreGood(config, es[..|es| - 1]);
      NextKeepsGood(After(config, es[..|es| - 1]), es[|es| - 1]);
    }
  }
}
