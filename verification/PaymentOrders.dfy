/**
 Payment orders of the hub canister: the order, and what each stretch of a
 handler between two awaits does to it. An async handler is cut at its awaits:
 a stretch ends either with the call's answer or with a question to the ledger.
 */
module PaymentOrders {
  import opened Prelude
  import Subscription

  type Principal = string

  datatype PaymentStatus = Unpaid | Paid | Cancelled | TimedOut | Refunded | Verifying

  datatype PaymentType =
    | Price(subType: Subscription.SubscriptionType, price: nat)
    | CreationPrice(tokenName: string, price: nat)
    | Verification(verified: bool)
    | Award(aid: string)

  datatype PaymentOrder = PaymentOrder(
    id: nat,
    payer: Principal,
    amount: nat,
    paymentType: PaymentType,
    source: string,
    token: string,
    amountPaid: nat,
    status: PaymentStatus,
    verifiedTime: Option<nat>,
    sharedTime: Option<nat>,
    createdTime: nat)

  /** A ledger account: the canister's default one, an order's subaccount, or someone else's. */
  datatype Owner = Treasury | OrderSubaccount(payer: Principal, id: nat) | Elsewhere(address: string)

  datatype Account = Account(token: string, owner: Owner)

  const DAO_BASE_FEE: nat := 100_000
  const FIFTEEN_MINUTES: nat := 15 * 60 * NANOS_PER_SECOND

  function TokenFee(token: string): nat {
    if token == "ICP" then 10_000 else if token == "CKBTC" then 10 else 0
  }

  /** Other tokens have no ledger: their balance is 0 and their transfers fail, without an await. */
  predicate Supported(token: string) {
    token == "ICP" || token == "CKBTC"
  }

  /**
   A CKBTC destination must be a principal. The default account id, to which shares
   go, is too long for one, so the share of a CKBTC order traps.
   */
  predicate ShareTraps(token: string) {
    token == "CKBTC"
  }

  function SubaccountOf(o: PaymentOrder): Account {
    Account(o.token, OrderSubaccount(o.payer, o.id))
  }

  function NewOrder(id: nat, payer: Principal, source: string, token: string, amount: nat, paymentType: PaymentType,
                    now: nat): PaymentOrder
  {
    PaymentOrder(id, payer, amount, paymentType, source, token, 0, Unpaid, None, None, now)
  }

  /** A stretch of work on the handler's own copy of the order. */
  datatype Stretch = Finished(order: PaymentOrder, ok: bool) | NeedsBalance(order: PaymentOrder)
                   | NeedsTransfer(order: PaymentOrder, amount: nat)

  // ---- verify_payment_order, before and after its await ----

  function VerifyBegin(o: PaymentOrder, now: nat): Stretch {
    if o.status == Paid then Finished(o, true)
    else if o.status != Unpaid then Finished(o, false)
    else if o.createdTime + FIFTEEN_MINUTES < now then Finished(o.(status := TimedOut), false)
    else NeedsBalance(o.(status := Verifying))
  }

  function VerifyEnd(o: PaymentOrder, balance: nat, now: nat): Stretch {
    if balance == 0 || balance < o.amount
    then Finished(o.(amountPaid := balance, status := Unpaid), false)
    else Finished(o.(amountPaid := balance, status := Paid, verifiedTime := Some(now)), true)
  }

  // ---- share_pay ----

  function ShareBegin(o: PaymentOrder, now: nat): Stretch {
    if o.status != Paid || o.sharedTime.Some? then Finished(o, false)
    else if o.amountPaid <= DAO_BASE_FEE then Finished(o.(sharedTime := Some(now)), true)
    else NeedsTransfer(o, o.amountPaid - DAO_BASE_FEE)
  }

  function ShareEnd(o: PaymentOrder, sent: bool, now: nat): PaymentOrder {
    if sent then o.(sharedTime := Some(now)) else o
  }

  // ---- process_refund_payment_order ----

  function RefundBegin(o: PaymentOrder): Stretch {
    if o.status == Paid || o.status == Refunded || o.amount == 0 then Finished(o, false)
    else NeedsBalance(o)
  }

  function RefundMiddle(o: PaymentOrder, balance: nat): Stretch {
    var o' := o.(amountPaid := balance);
    if balance < TokenFee(o.token) then Finished(o', false)
    else NeedsTransfer(o', balance - TokenFee(o.token))
  }

  function RefundEnd(o: PaymentOrder, sent: bool, now: nat): Stretch {
    if sent then Finished(o.(status := Refunded, verifiedTime := Some(now)), true) else Finished(o, false)
  }

  // ---- the same stretches, step by step on the copy ----

  method VerifyPaymentOrderBegin(o: PaymentOrder, now: nat) returns (s: Stretch)
    ensures s == VerifyBegin(o, now)
  {
    var order := o;
    if order.status == Paid {
      return Finished(order, true);
    }
    if order.status != Unpaid {
      return Finished(order, false);
    }
    order := order.(status := Verifying);
    if order.createdTime + FIFTEEN_MINUTES < now {
      order := order.(status := TimedOut);
      return Finished(order, false);
    }
    return NeedsBalance(order);
  }

  method VerifyPaymentOrderEnd(o: PaymentOrder, balance: nat, now: nat) returns (s: Stretch)
    ensures s == VerifyEnd(o, balance, now)
  {
    var order := o.(amountPaid := balance);
    if balance == 0 || balance < order.amount {
      order := order.(status := Unpaid);
      return Finished(order, false);
    }
    order := order.(status := Paid);
    order := order.(verifiedTime := Some(now));
    return Finished(order, true);
  }

  method SharePayBegin(o: PaymentOrder, now: nat) returns (s: Stretch)
    ensures s == ShareBegin(o, now)
  {
    if o.status != Paid {
      return Finished(o, false);
    }
    if o.sharedTime.Some? {
      return Finished(o, false);
    }
    var amount := o.amountPaid;
    var sharedAmount := amount;
    if amount <= DAO_BASE_FEE {
      return Finished(o.(sharedTime := Some(now)), true);
    }
    amount := amount - DAO_BASE_FEE;
    if amount < sharedAmount {
      sharedAmount := amount;
    }
    return NeedsTransfer(o, sharedAmount);
  }

  method ProcessRefundMiddle(o: PaymentOrder, balance: nat) returns (s: Stretch)
    ensures s == RefundMiddle(o, balance)
  {
    var order := o.(amountPaid := balance);
    var fee := TokenFee(order.token);
    if balance < fee {
      return Finished(order, false);
    }
    return NeedsTransfer(order, balance - fee);
  }
}
