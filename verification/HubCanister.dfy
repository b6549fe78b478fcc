/** The hub canister's cells and handlers in the form of the source: fields updated in place. */
module HubCanister {
  import opened Prelude
  import opened PaymentOrders
  import H = HubHandlers

  /** What the caller of `create_payment_order` is told. */
  datatype PaymentInfo = PaymentInfo(id: nat, recipient: Account, token: string, amount: nat,
                                     paymentType: PaymentType, createdTime: nat)

  /** The price of creating a DAO. */
  const CREATION_TOKEN := "ICP"
  const CREATION_PRICE: nat := 100_000_000

  class Hub {
    var state: H.State
    var stateStore: H.State
    var paymentStore: map<nat, PaymentOrder>

    function Cells(): H.Canister
      reads this
    {
      H.Canister(state, stateStore, paymentStore)
    }

    constructor (config: H.Config)
      ensures Cells() == H.Initial(config)
    {
      var s := H.State(config, [], 0, 0);
      state := s;
      stateStore := s;
      paymentStore := map[];
    }

    method Load()
      modifies this`state
      ensures Cells() == H.Load(old(Cells()))
    {
      state := stateStore;
    }

    method Save()
      modifies this`stateStore
      ensures Cells() == H.Save(old(Cells()))
    {
      stateStore := state;
    }

    /** `store::payment::create_payment_order` */
    method StoreNewOrder(id: nat, payer: Principal, source: string, token: string, amount: nat,
                         paymentType: PaymentType, now: nat)
      returns (info: PaymentInfo)
      modifies this`paymentStore
      ensures paymentStore == old(paymentStore)[id := NewOrder(id, payer, source, token, amount, paymentType, now)]
      ensures info == PaymentInfo(id, SubaccountOf(paymentStore[id]), token, amount, paymentType, now)
    {
      var order := PaymentOrder(id, payer, amount, paymentType, source, token, 0, Unpaid, None, None, now);
      paymentStore := paymentStore[id := order];
      info := PaymentInfo(id, SubaccountOf(order), token, amount, paymentType, now);
    }

    /** The api call: the order id comes from the reloaded state, which is then saved. */
    method CreatePaymentOrder(payer: Principal, source: string, now: nat) returns (info: PaymentInfo)
      modifies this
      ensures Cells() == H.CreateOrder(old(Cells()), payer, source, CREATION_TOKEN, CREATION_PRICE, now)
      ensures info.id == old(stateStore.nextOrderId)
      ensures info.recipient == Account("ICP", OrderSubaccount(payer, info.id))
      ensures info.token == "ICP" && info.amount == 100_000_000
      ensures info.paymentType == CreationPrice("ICP", 100_000_000) && info.createdTime == now
    {
      Load();
      var newOrderId := state.nextOrderId;
      var paymentType := CreationPrice(CREATION_TOKEN, CREATION_PRICE);
      info := StoreNewOrder(newOrderId, payer, source, CREATION_TOKEN, CREATION_PRICE, paymentType, now);
      state := state.(totalOrders := state.totalOrders + 1);
      state := state.(nextOrderId := state.nextOrderId + 1);
      Save();
    }

    method AddInviteCode(code: string) returns (r: Result<string, H.HubError>)
      modifies this
      ensures Cells() == H.AddInviteCode(old(Cells()), code)
      ensures r.Ok? <==> code in stateStore.inviteCodes
    {
      Load();
      if code in state.inviteCodes {
        Save();
        return Ok(code);
      }
      if |state.inviteCodes| >= H.MAX_INVITE_CODES {
        return Err(H.MaximumRecords);
      }
      state := state.(inviteCodes := state.inviteCodes + [code]);
      Save();
      return Ok(code);
    }

    method UpgradeCanister(args: Option<H.UpgradeArgs>)
      modifies this
      ensures Cells() == H.Upgrade(old(Cells()), args)
    {
      Save();
      Load();
      if args.Some? {
        var upgradeArgs, config := args.value, state.config;
        if upgradeArgs.name.Some? {
          config := config.(name := upgradeArgs.name.value);
        }
        if upgradeArgs.owner.Some? {
          config := config.(owner := upgradeArgs.owner.value);
        }
        if upgradeArgs.factoryCanisterId.Some? {
          config := config.(factoryCanisterId := upgradeArgs.factoryCanisterId.value);
        }
        if upgradeArgs.env.Some? {
          config := config.(env := upgradeArgs.env.value);
        }
        state := state.(config := config);
      }
    }

    /** The write-back at the end of `confirm_payment_order`. */
    method FinishConfirm(id: nat, checkOrder: PaymentOrder, isVerified: bool) returns (outcome: H.Outcome)
      modifies this`paymentStore
      ensures (Cells(), outcome) == H.ConfirmFinish(old(Cells()), id, checkOrder, isVerified)
    {
      paymentStore := paymentStore[id := checkOrder];
      if isVerified {
        return H.Returned(Ok(true));
      } else {
        return H.Returned(Err(H.VerificationFailed));
      }
    }

    /** From the end of verification on: share a verified order, then write it back. */
    method ShareAndFinish(id: nat, checkOrder: PaymentOrder, isVerified: bool, now: nat) returns (outcome: H.Outcome)
      modifies this`paymentStore
      ensures (Cells(), outcome) == H.AfterVerify(old(Cells()), id, Finished(checkOrder, isVerified), now)
    {
      if isVerified {
        var s := SharePayBegin(checkOrder, now);
        if s.NeedsTransfer? {
          if ShareTraps(checkOrder.token) {
            return H.Aborted;
          }
          if Supported(checkOrder.token) {
            return H.Suspended(H.ShareCall(s.order, s.amount));
          }
          outcome := ResumeShare(id, s.order, false, now);
          return;
        }
        outcome := FinishConfirm(id, s.order, true);
      } else {
        outcome := FinishConfirm(id, checkOrder, false);
      }
    }

    method ConfirmPaymentOrder(id: nat, now: nat) returns (outcome: H.Outcome)
      modifies this`paymentStore
      ensures (Cells(), outcome) == H.Confirm(old(Cells()), id, now)
    {
      if id !in paymentStore {
        return H.Returned(Err(H.OrderNotFound));
      }
      var s := VerifyPaymentOrderBegin(paymentStore[id], now);
      if s.NeedsBalance? {
        if Supported(s.order.token) {
          return H.Suspended(H.VerifyCall(s.order));
        }
        outcome := ResumeVerify(id, s.order, 0, now);
        return;
      }
      outcome := ShareAndFinish(id, s.order, s.ok, now);
    }

    method ResumeVerify(id: nat, order: PaymentOrder, balance: nat, now: nat) returns (outcome: H.Outcome)
      modifies this`paymentStore
      ensures (Cells(), outcome) == H.ResumeVerify(old(Cells()), id, order, balance, now)
    {
      var s := VerifyPaymentOrderEnd(order, balance, now);
      outcome := ShareAndFinish(id, s.order, s.ok, now);
    }

    method ResumeShare(id: nat, order: PaymentOrder, sent: bool, now: nat) returns (outcome: H.Outcome)
      modifies this`paymentStore
      ensures (Cells(), outcome) == H.ResumeShare(old(Cells()), id, order, sent, now)
    {
      var checkOrder := order;
      if sent {
        checkOrder := checkOrder.(sharedTime := Some(now));
      }
      outcome := FinishConfirm(id, checkOrder, true);
    }

    method RefundPaymentOrder(id: nat, caller: Principal, to: Owner, now: nat) returns (outcome: H.Outcome)
      modifies this`paymentStore
      ensures (Cells(), outcome) == H.Refund(old(Cells()), id, caller, to, now)
    {
      if id !in paymentStore {
        return H.Returned(Err(H.OrderNotFound));
      }
      var checkOrder := paymentStore[id];
      if checkOrder.payer != caller {
        return H.Returned(Err(H.NotOwner));
      }
      if checkOrder.status == Paid || checkOrder.status == Refunded || checkOrder.amount == 0 {
        paymentStore := paymentStore[id := checkOrder];
        return H.Returned(Err(H.RefundFailed));
      }
      if Supported(checkOrder.token) {
        return H.Suspended(H.RefundBalanceCall(checkOrder, to));
      }
      outcome := ResumeRefundBalance(id, checkOrder, to, 0, now);
    }

    method ResumeRefundBalance(id: nat, order: PaymentOrder, to: Owner, balance: nat, now: nat)
      returns (outcome: H.Outcome)
      modifies this`paymentStore
      ensures (Cells(), outcome) == H.ResumeRefundBalance(old(Cells()), id, order, to, balance, now)
    {
      var s := ProcessRefundMiddle(order, balance);
      if s.Finished? {
        paymentStore := paymentStore[id := s.order];
        return H.Returned(Err(H.RefundFailed));
      }
      if Supported(order.token) {
        return H.Suspended(H.RefundTransferCall(s.order, to, s.amount));
      }
      outcome := ResumeRefundTransfer(id, s.order, false, now);
    }

    method ResumeRefundTransfer(id: nat, order: PaymentOrder, sent: bool, now: nat) returns (outcome: H.Outcome)
      modifies this`paymentStore
      ensures (Cells(), outcome) == H.ResumeRefundTransfer(old(Cells()), id, order, sent, now)
    {
      var checkOrder := order;
      if sent {
        checkOrder := checkOrder.(status := Refunded);
        checkOrder := checkOrder.(verifiedTime := Some(now));
      }
      paymentStore := paymentStore[id := checkOrder];
      if sent {
        return H.Returned(Ok(true));
      } else {
        return H.Returned(Err(H.RefundFailed));
      }
    }
  }
}
