/** What holds of the payment orders in every run. */
module HubSafety {
  import opened Prelude
  import opened PaymentOrders
  import opened HubHandlers
  import opened Ledger
  import opened HubRuns
  import opened HubCanister

  ghost predicate AwaitingShare(o: PaymentOrder) {
    o.status == Paid && o.sharedTime == None
  }

  /** The ledger has carried out the share of this order, and the canister has not heard of it yet. */
  ghost predicate ShareUnheard(w: World, id: nat) {
    id in w.calls && w.calls[id].call.ShareCall? && w.calls[id].answer == TransferDone(true)
  }

  /**
   A Paid order that has not been shared is backed: its subaccount holds what was
   paid, which is at least the price and not nothing, and all that came in since.
   The one exception is the moment between the share and its answer.
   */
  lemma PaidOrdersAreBacked(config: Config, es: seq<Event>, id: nat)
    requires id in After(config, es).hub.orders && AwaitingShare(After(config, es).hub.orders[id])
    ensures var w := After(config, es);
            var o := w.hub.orders[id];
            var a := SubaccountOf(o);
            && o.amountPaid >= o.amount && o.amountPaid > 0
            && Balance(w.log, a) == IncomingSinceRead(w.log, a)
                 + if ShareUnheard(w, id) then KeptAfterShare(o) else o.amountPaid
  {
    RunsAreGood(config, es);
    assert OrderOk(After(config, es), id);
  }

  /** So it is backed exactly when its share is not done yet, or enough came in since the last reading. */
  lemma BackedExactlyWhen(config: Config, es: seq<Event>, id: nat)
    requires id in After(config, es).hub.orders && AwaitingShare(After(config, es).hub.orders[id])
    ensures var w := After(config, es);
            var o := w.hub.orders[id];
            var since := IncomingSinceRead(w.log, SubaccountOf(o));
            Balance(w.log, SubaccountOf(o)) >= o.amountPaid
            <==> !ShareUnheard(w, id) || since + KeptAfterShare(o) >= o.amountPaid
  {
    PaidOrdersAreBacked(config, es, id);
  }

  /** No order's subaccount is ever transferred out of twice, whether to share or to refund. */
  lemma AtMostOneTransferOut(config: Config, es: seq<Event>, a: Account)
    requires a.owner.OrderSubaccount?
    ensures TransfersOut(After(config, es).log, a) <= 1
  {
    var w := After(config, es);
    RunsAreGood(config, es);
    var id := a.owner.id;
    if id in w.hub.orders && SubaccountOf(w.hub.orders[id]) == a {
      assert OrderOk(w, id);
    } else {
      NoTransfers(w.log, a);
    }
  }

  /**
   With no call in flight the records tell the ledger's story: money left the
   subaccount exactly for Refunded orders and for shares above the base fee, and a
   share leaves the base fee less the transfer fee, a refund nothing, besides what
   came in after the balance was read.
   */
  lemma RecordsMatchLedger(config: Config, es: seq<Event>, id: nat)
    requires id in After(config, es).hub.orders && id !in After(config, es).calls
    ensures var w := After(config, es);
            var o := w.hub.orders[id];
            var a := SubaccountOf(o);
            var shared := o.status == Paid && o.sharedTime.Some? && o.amountPaid > DAO_BASE_FEE;
            && (TransfersOut(w.log, a) == 1 <==> shared || o.status == Refunded)
            && (shared ==> Balance(w.log, a) == DAO_BASE_FEE - TokenFee(o.token) + IncomingSinceRead(w.log, a))
            && (o.status == Refunded ==> Balance(w.log, a) == IncomingSinceRead(w.log, a))
  {
    RunsAreGood(config, es);
    assert OrderOk(After(config, es), id);
  }

  /**
   Every transfer in the log, at the moment it was made: it takes all but the base
   fee (a share, which goes to the treasury) or everything but the transfer fee (a
   refund), of what the last balance reading had seen.
   */
  lemma TransferAmounts(config: Config, es: seq<Event>, k: nat)
    requires k < |After(config, es).log| && After(config, es).log[k].Out?
    ensures TransferOk(After(config, es).log, k)
  {
    RunsAreGood(config, es);
  }

  // ---- how orders change over a run ----

  lemma OutcomeEvolves(w: World, j: nat, r: (Canister, Outcome), id: nat)
    requires Good(w) && id in w.hub.orders && j in w.hub.orders && GoodOutcome(w.log, w.hub, j, r)
    ensures id in r.0.orders && Evolves(w.hub.orders[id], r.0.orders[id])
  {
    StoredStatus(w, id);
  }

  /** Verifying and Cancelled are never stored. */
  lemma StoredStatus(w: World, id: nat)
    requires Good(w) && id in w.hub.orders
    ensures Evolves(w.hub.orders[id], w.hub.orders[id])
  {
    assert OrderOk(w, id);
  }

  lemma StepEvolves(w: World, e: Event, id: nat)
    requires Good(w) && id in w.hub.orders
    ensures id in Next(w, e).hub.orders && Evolves(w.hub.orders[id], Next(w, e).hub.orders[id])
  {
    StoredStatus(w, id);
    match e
    case ConfirmCalled(j, now) =>
      if j !in w.calls && j in w.hub.orders {
        assert OrderOk(w, j);
        ConfirmGood(w.log, w.hub, j, now);
        OutcomeEvolves(w, j, Confirm(w.hub, j, now), id);
      }
    case RefundCalled(j, caller, to, now) =>
      if j !in w.calls && j in w.hub.orders {
        assert OrderOk(w, j);
        RefundGood(w.log, w.hub, j, caller, to, now);
        if w.hub.orders[j].payer == caller {
          OutcomeEvolves(w, j, Refund(w.hub, j, caller, to, now), id);
        }
      }
    case Resumed(j, now) =>
      if j in w.calls && w.calls[j].answer != Waiting {
        assert OrderOk(w, j);
        ResumeGood(w.log, w.hub, j, w.calls[j], now);
        OutcomeEvolves(w, j, Resume(w.hub, j, w.calls[j], now), id);
      }
    case _ =>
  }

  /**
   From any point of a run to its end: an order keeps its id, payer, price and
   token; Paid and Refunded are never left; TimedOut leads only to Refunded;
   Verifying and Cancelled are never stored; a share is recorded once.
   */
  lemma {:induction false} OrdersEvolve(config: Config, es: seq<Event>, k: nat, id: nat)
    requires k <= |es| && id in After(config, es[..k]).hub.orders
    ensures id in After(config, es).hub.orders
    ensures Evolves(After(config, es[..k]).hub.orders[id], After(config, es).hub.orders[id])
    decreases |es|
  {
    if k == |es| {
      assert es[..k] == es;
      RunsAreGood(config, es);
      assert OrderOk(After(config, es), id);
    } else {
      var init := es[..|es| - 1];
      assert init[..k] == es[..k];
      OrdersEvolve(config, init, k, id);
      RunsAreGood(config, init);
      StepEvolves(After(config, init), es[|es| - 1], id);
    }
  }

  function IdsBelow(n: nat): (ids: set<nat>)
    ensures |ids| == n
    ensures forall i :: i in ids <==> 0 <= i < n
  {
    if n == 0 then {} else IdsBelow(n - 1) + {n - 1}
  }

  /** Ids are handed out without gaps, and both copies of the counters always agree. */
  lemma IdsAreDense(config: Config, es: seq<Event>)
    ensures var c := After(config, es).hub;
            && c.orders.Keys == IdsBelow(c.heap.nextOrderId)
            && c.heap.totalOrders == c.heap.nextOrderId == |c.orders|
            && c.stable.nextOrderId == c.heap.nextOrderId && c.stable.totalOrders == c.heap.totalOrders
            && forall id :: id in c.orders ==> c.orders[id].id == id
  {
    RunsAreGood(config, es);
    var c := After(config, es).hub;
    assert forall id :: id in c.orders ==> OrderOk(After(config, es), id);
    assert c.orders.Keys == IdsBelow(c.heap.nextOrderId);
  }

  /** A new order gets an id no order ever had, and disturbs none. */
  lemma CreateIsFresh(config: Config, es: seq<Event>, payer: Principal, source: string, token: string,
                      amount: nat, now: nat)
    ensures var c := After(config, es).hub;
            var c' := CreateOrder(c, payer, source, token, amount, now);
            && c.heap.nextOrderId !in c.orders
            && c'.orders == c.orders[c.heap.nextOrderId :=
                 PaymentOrder(c.heap.nextOrderId, payer, amount, CreationPrice(token, amount), source, token,
                              0, Unpaid, None, None, now)]
  {
    RunsAreGood(config, es);
  }

  /**
   Upgrade arguments are applied to the heap copy only, so the first order created
   afterwards reloads the old settings: the new ones last exactly if they are the old ones.
   */
  lemma UpgradeArgumentsAreLost(c: Canister, args: UpgradeArgs, payer: Principal, source: string, now: nat)
    ensures var merged := Merged(c.heap.config, args);
            var upgraded := Upgrade(c, Some(args));
            && upgraded.heap.config == merged
            && merged.name == (if args.name.Some? then args.name.value else c.heap.config.name)
            && merged.owner == (if args.owner.Some? then args.owner.value else c.heap.config.owner)
            && merged.factoryCanisterId
               == (if args.factoryCanisterId.Some? then args.factoryCanisterId.value else c.heap.config.factoryCanisterId)
            && merged.env == (if args.env.Some? then args.env.value else c.heap.config.env)
            && (CreateOrder(upgraded, payer, source, CREATION_TOKEN, CREATION_PRICE, now).heap.config == merged
                <==> merged == c.heap.config)
  {
  }

  /**
   Invite codes after any run, in both copies: a new code is added while there are
   fewer than 500, and no call or upgrade ever loses or repeats one.
   */
  lemma InviteCodeAdds(config: Config, es: seq<Event>, code: string)
    ensures var codes := After(config, es).hub.heap.inviteCodes;
            var hub := After(config, es + [InviteCodeAdded(code)]).hub;
            && hub.heap.inviteCodes == hub.stable.inviteCodes
            && hub.heap.inviteCodes == if code in codes || |codes| >= 500 then codes else codes + [code]
  {
    RunsAreGood(config, es);
    Extend(config, es, InviteCodeAdded(code));
  }

  lemma {:induction false} InviteCodesStay(config: Config, es: seq<Event>, k: nat)
    requires k <= |es|
    ensures After(config, es[..k]).hub.heap.inviteCodes <= After(config, es).hub.heap.inviteCodes
    ensures |After(config, es).hub.heap.inviteCodes| <= 500
    ensures var codes := After(config, es).hub.heap.inviteCodes;
            forall i, j :: 0 <= i < j < |codes| ==> codes[i] != codes[j]
    decreases |es|
  {
    if es != [] {
      var init, e := es[..|es| - 1], es[|es| - 1];
      InviteCodesStay(config, init, if k == |es| then |init| else k);
      assert es[..|es|] == es && init[..|init|] == init;
      assert k < |es| ==> init[..k] == es[..k];
      RunsAreGood(config, init);
      CodesStep(After(config, init), e);
    } else {
      assert es[..0] == [];
    }
  }

  lemma CodesStep(w: World, e: Event)
    requires Good(w)
    ensures var codes, codes' := w.hub.heap.inviteCodes, Next(w, e).hub.heap.inviteCodes;
            if e.InviteCodeAdded? && e.code !in codes && |codes| < 500 then codes' == codes + [e.code]
            else codes' == codes
  {
  }

  // ---- a run in which an order is briefly not backed ----

  /** The price is paid, the first share fails, the second goes through but is not heard of yet. */
  const UNBACKED_RUN: seq<Event> := [
    CreateCalled("payer", "web", CREATION_TOKEN, CREATION_PRICE, 0),
    Deposited(BOX, CREATION_PRICE),
    ConfirmCalled(0, 1),
    BalanceAnswered(0, true),
    Resumed(0, 2),
    TransferAnswered(0, false),
    Resumed(0, 3),
    ConfirmCalled(0, 4),
    TransferAnswered(0, true)]

  const BOX := Account(CREATION_TOKEN, OrderSubaccount("payer", 0))
  const CREATION := CreationPrice(CREATION_TOKEN, CREATION_PRICE)
  const FRESH := NewOrder(0, "payer", "web", CREATION_TOKEN, CREATION_PRICE, CREATION, 0)
  const PAID := FRESH.(status := Paid, amountPaid := CREATION_PRICE, verifiedTime := Some(2))
  const SHARED: nat := CREATION_PRICE - DAO_BASE_FEE
  const SHARE := Out(Sharing, BOX, Account(CREATION_TOKEN, Treasury), SHARED, TokenFee(CREATION_TOKEN))

  /** The stages of the run: the stored order, the log and the call in flight. */
  function Stage(config: Config, o: PaymentOrder, log: Log, calls: map<nat, InFlight>): World {
    var s := State(config, [], 1, 1);
    World(Canister(s, s, map[0 := o]), log, calls)
  }

  const L1: Log := [Credit(BOX, CREATION_PRICE)]
  const L2: Log := L1 + [Read(BOX)]

  function Verifying0(a: Answer): map<nat, InFlight> {
    map[0 := InFlight(VerifyCall(FRESH.(status := Verifying)), a)]
  }

  function Sharing0(a: Answer): map<nat, InFlight> {
    map[0 := InFlight(ShareCall(PAID, SHARED), a)]
  }

  lemma BalancesOfRun()
    ensures Balance(L1, BOX) == Balance(L2, BOX) == CREATION_PRICE && Balance(L2 + [SHARE], BOX) == 90_000
  {
    assert [] + [Credit(BOX, CREATION_PRICE)] == L1;
    Appended([], Credit(BOX, CREATION_PRICE), BOX);
    Appended(L1, Read(BOX), BOX);
    Appended(L2, SHARE, BOX);
  }

  lemma DepositArrives(config: Config)
    ensures Next(Stage(config, FRESH, [], map[]), UNBACKED_RUN[1]) == Stage(config, FRESH, L1, map[])
    ensures Next(Stage(config, FRESH, L1, map[]), UNBACKED_RUN[2]) == Stage(config, FRESH, L1, Verifying0(Waiting))
  {
    assert [] + [Credit(BOX, CREATION_PRICE)] == L1;
  }

  lemma OrderIsPaid(config: Config)
    ensures Next(Stage(config, FRESH, L1, Verifying0(Waiting)), UNBACKED_RUN[3])
         == Stage(config, FRESH, L2, Verifying0(BalanceRead(CREATION_PRICE)))
    ensures Next(Stage(config, FRESH, L2, Verifying0(BalanceRead(CREATION_PRICE))), UNBACKED_RUN[4])
         == Stage(config, FRESH, L2, Sharing0(Waiting))
  {
    BalancesOfRun();
  }

  lemma ShareFailsThenSucceeds(config: Config)
    ensures Next(Stage(config, FRESH, L2, Sharing0(Waiting)), UNBACKED_RUN[5])
         == Stage(config, FRESH, L2, Sharing0(TransferDone(false)))
    ensures Next(Stage(config, FRESH, L2, Sharing0(TransferDone(false))), UNBACKED_RUN[6])
         == Stage(config, PAID, L2, map[])
    ensures Next(Stage(config, PAID, L2, map[]), UNBACKED_RUN[7]) == Stage(config, PAID, L2, Sharing0(Waiting))
    ensures Next(Stage(config, PAID, L2, Sharing0(Waiting)), UNBACKED_RUN[8])
         == Stage(config, PAID, L2 + [SHARE], Sharing0(TransferDone(true)))
  {
    BalancesOfRun();
  }

  lemma BrieflyNotBacked(config: Config)
    ensures var w := After(config, UNBACKED_RUN);
            && 0 in w.hub.orders && AwaitingShare(w.hub.orders[0]) && ShareUnheard(w, 0)
            && w.hub.orders[0].amountPaid == 100_000_000
            && Balance(w.log, SubaccountOf(w.hub.orders[0])) == 90_000
  {
    assert After(config, UNBACKED_RUN) == Stage(config, PAID, L2 + [SHARE], Sharing0(TransferDone(true))) by {
      RunUnfolds(config);
      DepositArrives(config);
      OrderIsPaid(config);
      ShareFailsThenSucceeds(config);
    }
    BalancesOfRun();
  }

  lemma RunUnfolds(config: Config)
    ensures var w1 := Stage(config, FRESH, [], map[]);
            var w5 := Next(Next(Next(Next(w1, UNBACKED_RUN[1]), UNBACKED_RUN[2]), UNBACKED_RUN[3]), UNBACKED_RUN[4]);
            After(config, UNBACKED_RUN)
            == Next(Next(Next(Next(w5, UNBACKED_RUN[5]), UNBACKED_RUN[6]), UNBACKED_RUN[7]), UNBACKED_RUN[8])
  {
    var es := UNBACKED_RUN;
    forall k | 0 <= k < 9
      ensures After(config, es[..k + 1]) == Next(After(config, es[..k]), es[k])
    {
      assert es[..k + 1] == es[..k] + [es[k]];
      Extend(config, es[..k], es[k]);
    }
    assert es[..9] == es && es[..0] == [];
    assert Next(After(config, es[..0]), es[0]) == Stage(config, FRESH, [], map[]);
    assert After(config, es[..1]) == Stage(config, FRESH, [], map[]);
    var w5 := After(config, es[..5]);
    assert w5 == Next(After(config, es[..4]), es[4]);
  }
}
