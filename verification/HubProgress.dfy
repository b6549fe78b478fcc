/**
 What each call comes to: who may refund, when an order is marked Paid or TimedOut,
 and that confirm and refund get done once the ledger answers, whatever else happens
 meanwhile.
 */
module HubProgress {
  import opened Prelude
  import opened PaymentOrders
  import opened HubHandlers
  import opened Ledger
  import opened HubRuns
  import HubSafety

  // ---- events of other orders ----

  /** An event of a call on this order. */
  predicate About(e: Event, id: nat) {
    match e
    case ConfirmCalled(j, _) => j == id
    case RefundCalled(j, _, _, _) => j == id
    case BalanceAnswered(j, _) => j == id
    case TransferAnswered(j, _) => j == id
    case Resumed(j, _) => j == id
    case Trapped(j) => j == id
    case _ => false
  }

  predicate Others(es: seq<Event>, id: nat) {
    forall i :: 0 <= i < |es| ==> !About(es[i], id)
  }

  function Continue(w: World, es: seq<Event>): World {
    if es == [] then w else Next(Continue(w, es[..|es| - 1]), es[|es| - 1])
  }

  /** The order and its call are as they were, and nothing has left its subaccount. */
  ghost predicate Kept(w: World, w': World, id: nat)
    requires id in w.hub.orders
  {
    && id in w'.hub.orders && w'.hub.orders[id] == w.hub.orders[id]
    && (id in w.calls <==> id in w'.calls) && (id in w.calls ==> w'.calls[id] == w.calls[id])
    && Balance(w'.log, SubaccountOf(w.hub.orders[id])) >= Balance(w.log, SubaccountOf(w.hub.orders[id]))
  }

  lemma SettleKeeps(w: World, j: nat, r: (Canister, Outcome), id: nat)
    requires j in w.hub.orders && id in w.hub.orders && j != id && GoodOutcome(w.log, w.hub, j, r)
    ensures Kept(w, Settle(w, j, r), id)
  {
  }

  lemma EntryKeeps(w: World, w': World, e: Entry, id: nat)
    requires id in w.hub.orders && !(e.Out? && e.from == SubaccountOf(w.hub.orders[id]))
    requires w'.hub == w.hub && (w'.log == w.log || w'.log == w.log + [e])
    requires (id in w.calls <==> id in w'.calls) && (id in w.calls ==> w'.calls[id] == w.calls[id])
    ensures Kept(w, w', id)
  {
    Appended(w.log, e, SubaccountOf(w.hub.orders[id]));
  }

  lemma TransferKeeps(w: World, j: nat, accepted: bool, id: nat)
    requires Good(w) && id in w.hub.orders && j in w.calls && j != id
    ensures Kept(w, AnswerTransfer(w, j, accepted), id)
  {
    assert OrderOk(w, id) && OrderOk(w, j);
    var call := w.calls[j].call;
    assert call.order.id == j;
    EntryKeeps(w, AnswerTransfer(w, j, accepted),
               if AsksBalance(call) then Read(SubaccountOf(call.order)) else TransferOf(call), id);
  }

  lemma ConfirmKeeps(w: World, j: nat, now: nat, id: nat)
    requires Good(w) && id in w.hub.orders && j in w.hub.orders && j !in w.calls && j != id
    ensures Kept(w, Settle(w, j, Confirm(w.hub, j, now)), id)
  {
    assert OrderOk(w, j);
    ConfirmGood(w.log, w.hub, j, now);
    SettleKeeps(w, j, Confirm(w.hub, j, now), id);
  }

  lemma RefundKeeps(w: World, j: nat, caller: Principal, to: Owner, now: nat, id: nat)
    requires Good(w) && id in w.hub.orders && j in w.hub.orders && j !in w.calls && j != id
    ensures Kept(w, Settle(w, j, Refund(w.hub, j, caller, to, now)), id)
  {
    assert OrderOk(w, j);
    RefundGood(w.log, w.hub, j, caller, to, now);
    SettleKeeps(w, j, Refund(w.hub, j, caller, to, now), id);
  }

  lemma ResumeKeeps(w: World, j: nat, now: nat, id: nat)
    requires Good(w) && id in w.hub.orders && j in w.calls && w.calls[j].answer != Waiting && j != id
    ensures Kept(w, Settle(w, j, Resume(w.hub, j, w.calls[j], now)), id)
  {
    assert OrderOk(w, j);
    ResumeGood(w.log, w.hub, j, w.calls[j], now);
    SettleKeeps(w, j, Resume(w.hub, j, w.calls[j], now), id);
  }

  lemma OtherEventKeeps(w: World, e: Event, id: nat)
    requires Good(w) && id in w.hub.orders && !About(e, id)
    ensures Kept(w, Next(w, e), id)
  {
    match e
    case ConfirmCalled(j, now) =>
      if j !in w.calls && j in w.hub.orders {
        ConfirmKeeps(w, j, now, id);
      }
    case RefundCalled(j, caller, to, now) =>
      if j !in w.calls && j in w.hub.orders {
        RefundKeeps(w, j, caller, to, now, id);
      }
    case Resumed(j, now) =>
      if j in w.calls && w.calls[j].answer != Waiting {
        ResumeKeeps(w, j, now, id);
      }
    case BalanceAnswered(j, reached) =>
      if j in w.calls {
        EntryKeeps(w, Next(w, e), Read(SubaccountOf(w.calls[j].call.order)), id);
      }
    case TransferAnswered(j, accepted) =>
      if j in w.calls {
        TransferKeeps(w, j, accepted, id);
      }
    case Deposited(account, amount) => EntryKeeps(w, Next(w, e), Credit(account, amount), id);
    case _ =>
  }

  lemma {:induction false} OthersKeep(w: World, es: seq<Event>, id: nat)
    requires Good(w) && id in w.hub.orders && Others(es, id)
    ensures Good(Continue(w, es)) && Kept(w, Continue(w, es), id)
    decreases |es|
  {
    if es != [] {
      var w1 := Continue(w, es[..|es| - 1]);
      OthersKeep(w, es[..|es| - 1], id);
      NextKeepsGood(w1, es[|es| - 1]);
      OtherEventKeeps(w1, es[|es| - 1], id);
    }
  }

  // ---- the ledger's answers ----

  lemma {:induction false} NeverOverdrawn(log: Log, a: Account)
    requires TransfersOut(log, a) == 0
    ensures Balance(log, a) >= 0
    decreases |log|
  {
    if log != [] {
      NeverOverdrawn(log[..|log| - 1], a);
    }
  }

  /** A call that asks for a balance is told that of the order's own subaccount. */
  lemma BalanceIsRead(w: World, id: nat)
    requires id in w.hub.orders && OrderOk(w, id) && id in w.calls
    requires AsksBalance(w.calls[id].call) && w.calls[id].answer == Waiting
    ensures var o := w.hub.orders[id];
            var a := Account(o.token, OrderSubaccount(o.payer, id));
            && Balance(w.log, a) >= 0
            && Next(w, BalanceAnswered(id, true)) ==
                 w.(log := w.log + [Read(a)],
                    calls := w.calls[id := InFlight(w.calls[id].call, BalanceRead(Balance(w.log, a)))])
  {
    NeverOverdrawn(w.log, SubaccountOf(w.hub.orders[id]));
  }

  /** The money for a transfer that a call asks for is always there, with the fee on top. */
  lemma TransferIsFunded(w: World, id: nat)
    requires id in w.hub.orders && OrderOk(w, id) && id in w.calls
    requires !AsksBalance(w.calls[id].call) && w.calls[id].answer == Waiting
    ensures var o, call := w.hub.orders[id], w.calls[id].call;
            var a := Account(o.token, OrderSubaccount(o.payer, id));
            var fee := if o.token == "ICP" then 10_000 else 10;
            && Balance(w.log, a) >= call.amount + fee
            && Next(w, TransferAnswered(id, true)) ==
                 w.(log := w.log + [if call.ShareCall? then Out(Sharing, a, Account(o.token, Treasury), call.amount, fee)
                                    else Out(Refunding, a, Account(o.token, call.to), call.amount, fee)],
                    calls := w.calls[id := InFlight(call, TransferDone(true))])
  {
  }

  // ---- confirm ----

  function Ended(w: World, id: nat, o: PaymentOrder): World {
    w.(hub := w.hub.(orders := w.hub.orders[id := o]), calls := w.calls - {id})
  }

  function Waits(w: World, id: nat, call: Call): World {
    w.(calls := w.calls[id := InFlight(call, Waiting)])
  }

  /** Confirming an Unpaid order: TimedOut after a quarter of an hour, and only then. */
  lemma ConfirmStarts(w: World, id: nat, now: nat)
    requires id in w.hub.orders && id !in w.calls && w.hub.orders[id].status == Unpaid
    ensures var o, w' := w.hub.orders[id], Next(w, ConfirmCalled(id, now));
            && id in w'.hub.orders
            && (w'.hub.orders[id].status == TimedOut <==> o.createdTime + 900_000_000_000 < now)
            && w' == if o.createdTime + 900_000_000_000 < now then Ended(w, id, o.(status := TimedOut))
                     else if o.token == "ICP" || o.token == "CKBTC" then Waits(w, id, VerifyCall(o.(status := Verifying)))
                     else Ended(w, id, o.(amountPaid := 0))
  {
    var o := w.hub.orders[id];
    assert w.calls - {id} == w.calls;
  }

  /** Confirming a missing order, or one that is not Unpaid: a Paid one is only shared, if it was not yet. */
  lemma ConfirmOtherwise(w: World, id: nat, now: nat)
    requires id !in w.calls && (id in w.hub.orders ==> w.hub.orders[id].status != Unpaid)
    ensures var w', answer := Next(w, ConfirmCalled(id, now)), Confirm(w.hub, id, now).1;
            if id !in w.hub.orders then w' == w && answer == Returned(Err(OrderNotFound))
            else
              var o := w.hub.orders[id];
              if o.status != Paid then w' == w && answer == Returned(Err(VerificationFailed))
              else if o.sharedTime.Some? then w' == w && answer == Returned(Ok(true))
              else if o.amountPaid <= 100_000 then
                w' == Ended(w, id, o.(sharedTime := Some(now))) && answer == Returned(Ok(true))
              else if o.token == "ICP" then w' == Waits(w, id, ShareCall(o, o.amountPaid - 100_000))
              else w' == w && answer == if o.token == "CKBTC" then Aborted else Returned(Ok(true))
  {
    assert w.calls - {id} == w.calls;
    if id in w.hub.orders {
      assert w.hub.orders[id := w.hub.orders[id]] == w.hub.orders;
    }
  }

  /** The answer to a confirm call that has read balance `b`: at least the price, and not nothing, is enough. */
  lemma VerifyResumed(w: World, id: nat, b: nat, now: nat)
    requires id in w.hub.orders && OrderOk(w, id) && id in w.calls
    requires w.calls[id].call.VerifyCall? && w.calls[id].answer == BalanceRead(b)
    ensures var o, w' := w.hub.orders[id], Next(w, Resumed(id, now));
            var paid := o.(status := Paid, amountPaid := b, verifiedTime := Some(now));
            var answer := Resume(w.hub, id, w.calls[id], now).1;
            if !(b > 0 && b >= o.amount) then
              w' == Ended(w, id, o.(amountPaid := b)) && answer == Returned(Err(VerificationFailed))
            else if b <= 100_000 then
              w' == Ended(w, id, paid.(sharedTime := Some(now))) && answer == Returned(Ok(true))
            else if o.token == "ICP" then
              w' == Waits(w, id, ShareCall(paid, b - 100_000)) && answer == Suspended(ShareCall(paid, b - 100_000))
            else
              w' == w.(calls := w.calls - {id}) && answer == Aborted
  {
    var o := w.hub.orders[id];
    assert w.hub.orders[id := o] == w.hub.orders;
  }

  /** A share that went through is recorded; one that failed leaves the order Paid and unshared. */
  lemma ShareResumed(w: World, id: nat, sent: bool, now: nat)
    requires id in w.hub.orders && id in w.calls
    requires w.calls[id].call.ShareCall? && w.calls[id].answer == TransferDone(sent)
    ensures var k := w.calls[id].call.order;
            && Next(w, Resumed(id, now)) == Ended(w, id, if sent then k.(sharedTime := Some(now)) else k)
            && Resume(w.hub, id, w.calls[id], now).1 == Returned(Ok(true))
  {
  }

  /**
   In every run: once a confirm call's balance answer is in, resuming it makes the
   order Paid, or has it wait for its share, if and only if the balance is positive and
   reaches the price, and the share of it would not trap.
   */
  lemma EnoughIsPaid(config: Config, es: seq<Event>, id: nat, b: nat, now: nat)
    requires var w := After(config, es);
             id in w.calls && w.calls[id].call.VerifyCall? && w.calls[id].answer == BalanceRead(b)
    ensures var w, w' := After(config, es), After(config, es + [Resumed(id, now)]);
            && id in w.hub.orders && id in w'.hub.orders
            && (w'.hub.orders[id].status == Paid || (id in w'.calls && w'.calls[id].call.ShareCall?)
                <==> b > 0 && b >= w.hub.orders[id].amount && (w.hub.orders[id].token == "ICP" || b <= 100_000))
  {
    var w := After(config, es);
    RunsAreGood(config, es);
    Extend(config, es, Resumed(id, now));
    assert OrderOk(w, id);
    VerifyResumed(w, id, b, now);
  }

  /** In every run: confirming an Unpaid order with no call in flight stores TimedOut exactly after 15 minutes. */
  lemma TimedOutIff(config: Config, es: seq<Event>, id: nat, now: nat)
    requires var w := After(config, es);
             id in w.hub.orders && id !in w.calls && w.hub.orders[id].status == Unpaid
    ensures var w, w' := After(config, es), After(config, es + [ConfirmCalled(id, now)]);
            && id in w'.hub.orders
            && (w'.hub.orders[id].status == TimedOut <==> w.hub.orders[id].createdTime + 900_000_000_000 < now)
  {
    Extend(config, es, ConfirmCalled(id, now));
    ConfirmStarts(After(config, es), id, now);
  }

  // ---- refund ----

  /** A refund call on a resting order, whoever makes it. */
  lemma RefundStarts(w: World, id: nat, caller: Principal, to: Owner, now: nat)
    requires id in w.hub.orders && id !in w.calls && OrderOk(w, id)
    ensures var o, w' := w.hub.orders[id], Next(w, RefundCalled(id, caller, to, now));
            var answer := Refund(w.hub, id, caller, to, now).1;
            if caller != o.payer then w' == w && answer == Returned(Err(NotOwner))
            else if o.status == Paid || o.status == Refunded || o.amount == 0 then
              w' == w && answer == Returned(Err(RefundFailed))
            else if o.token == "ICP" || o.token == "CKBTC" then
              w' == Waits(w, id, RefundBalanceCall(o, to))
            else
              w' == Ended(w, id, o.(amountPaid := 0)) && answer == Returned(Err(RefundFailed))
  {
    var o := w.hub.orders[id];
    assert w.calls - {id} == w.calls;
    assert w.hub.orders[id := o] == w.hub.orders;
  }

  /** In every run: a refund call by anyone but the payer, or on a missing order, changes nothing. */
  lemma OnlyThePayerRefunds(config: Config, es: seq<Event>, id: nat, caller: Principal, to: Owner, now: nat)
    requires var orders := After(config, es).hub.orders;
             id !in orders || orders[id].payer != caller
    ensures After(config, es + [RefundCalled(id, caller, to, now)]) == After(config, es)
    ensures Refund(After(config, es).hub, id, caller, to, now).1
         == Returned(Err(if id in After(config, es).hub.orders then NotOwner else OrderNotFound))
  {
    var w := After(config, es);
    RunsAreGood(config, es);
    Extend(config, es, RefundCalled(id, caller, to, now));
    if id !in w.calls {
      assert w.calls - {id} == w.calls;
    }
  }

  lemma RefundBalanceResumed(w: World, id: nat, b: nat, now: nat)
    requires id in w.hub.orders && OrderOk(w, id) && id in w.calls
    requires w.calls[id].call.RefundBalanceCall? && w.calls[id].answer == BalanceRead(b)
    ensures var o, w' := w.hub.orders[id], Next(w, Resumed(id, now));
            var fee := if o.token == "ICP" then 10_000 else 10;
            if b < fee then w' == Ended(w, id, o.(amountPaid := b))
            else w' == Waits(w, id, RefundTransferCall(o.(amountPaid := b), w.calls[id].call.to, b - fee))
  {
  }

  lemma RefundTransferResumed(w: World, id: nat, sent: bool, now: nat)
    requires id in w.hub.orders && id in w.calls
    requires w.calls[id].call.RefundTransferCall? && w.calls[id].answer == TransferDone(sent)
    ensures var k := w.calls[id].call.order;
            Next(w, Resumed(id, now))
            == Ended(w, id, if sent then k.(status := Refunded, verifiedTime := Some(now)) else k)
  {
  }

  // ---- calls get done ----

  /** The event `e`, then any events of other orders. */
  function Step(w: World, e: Event, others: seq<Event>): World {
    Continue(Next(w, e), others)
  }

  /** A world that some run leads to. */
  ghost predicate Reachable(w: World) {
    exists config: Config, es: seq<Event> :: w == After(config, es)
  }

  lemma ReachableIsGood(w: World)
    requires Reachable(w)
    ensures Good(w)
  {
    var config: Config, es: seq<Event> :| w == After(config, es);
    RunsAreGood(config, es);
  }

  lemma NextIsReachable(w: World, e: Event)
    requires Reachable(w)
    ensures Reachable(Next(w, e))
  {
    var config: Config, es: seq<Event> :| w == After(config, es);
    Extend(config, es, e);
  }

  lemma {:induction false} ContinueIsReachable(w: World, es: seq<Event>)
    requires Reachable(w)
    ensures Reachable(Continue(w, es))
    decreases |es|
  {
    if es != [] {
      ContinueIsReachable(w, es[..|es| - 1]);
      NextIsReachable(Continue(w, es[..|es| - 1]), es[|es| - 1]);
    }
  }

  lemma StepKeeps(w: World, e: Event, others: seq<Event>, id: nat)
    requires Reachable(w) && id in w.hub.orders && Others(others, id)
    ensures id in Next(w, e).hub.orders && Reachable(Step(w, e, others)) && Kept(Next(w, e), Step(w, e, others), id)
    ensures OrderOk(w, id)
  {
    ReachableIsGood(w);
    NextKeepsGood(w, e);
    HubSafety.StepEvolves(w, e, id);
    OthersKeep(Next(w, e), others, id);
    NextIsReachable(w, e);
    ContinueIsReachable(Next(w, e), others);
  }

  /** The order `o` has a call in flight that carries on with `f`. */
  ghost predicate InCall(w: World, id: nat, o: PaymentOrder, f: InFlight) {
    && Reachable(w) && id in w.hub.orders && w.hub.orders[id] == o
    && id in w.calls && w.calls[id] == f
  }

  function Box(o: PaymentOrder, id: nat): Account {
    Account(o.token, OrderSubaccount(o.payer, id))
  }

  lemma AsksAndReads(w: World, id: nat, o: PaymentOrder, call: Call, others: seq<Event>)
    requires InCall(w, id, o, InFlight(call, Waiting)) && AsksBalance(call) && Others(others, id)
    ensures Balance(w.log, Box(o, id)) >= 0
    ensures InCall(Step(w, BalanceAnswered(id, true), others), id, o,
                   InFlight(call, BalanceRead(Balance(w.log, Box(o, id)))))
  {
    StepKeeps(w, BalanceAnswered(id, true), others, id);
    BalanceIsRead(w, id);
  }

  lemma TransfersAndHears(w: World, id: nat, o: PaymentOrder, call: Call, others: seq<Event>)
    requires InCall(w, id, o, InFlight(call, Waiting)) && !AsksBalance(call) && Others(others, id)
    ensures InCall(Step(w, TransferAnswered(id, true), others), id, o, InFlight(call, TransferDone(true)))
  {
    StepKeeps(w, TransferAnswered(id, true), others, id);
    TransferIsFunded(w, id);
  }

  lemma RefundAsks(w: World, id: nat, to: Owner, t: nat, others: seq<Event>)
    requires Refundable(w, id) && Others(others, id)
    ensures var o := w.hub.orders[id];
            var w1 := Step(w, RefundCalled(id, o.payer, to, t), others);
            && InCall(w1, id, o, InFlight(RefundBalanceCall(o, to), Waiting))
            && Balance(w1.log, Box(o, id)) >= Balance(w.log, Box(o, id))
  {
    var o := w.hub.orders[id];
    StepKeeps(w, RefundCalled(id, o.payer, to, t), others, id);
    RefundStarts(w, id, o.payer, to, t);
  }

  lemma RefundOrders(w: World, id: nat, o: PaymentOrder, to: Owner, b: nat, t: nat, others: seq<Event>)
    requires InCall(w, id, o, InFlight(RefundBalanceCall(o, to), BalanceRead(b))) && Others(others, id)
    requires b >= if o.token == "ICP" then 10_000 else 10
    ensures ReadyToRefund(Step(w, Resumed(id, t), others), id, o, to, b)
  {
    StepKeeps(w, Resumed(id, t), others, id);
    RefundBalanceResumed(w, id, b, t);
  }

  lemma ConfirmAsks(w: World, id: nat, t: nat, others: seq<Event>)
    requires Confirmable(w, id, t) && Others(others, id)
    ensures var o := w.hub.orders[id];
            var w1 := Step(w, ConfirmCalled(id, t), others);
            && InCall(w1, id, o, InFlight(VerifyCall(o.(status := Verifying)), Waiting))
            && Balance(w1.log, Box(o, id)) >= Balance(w.log, Box(o, id))
  {
    StepKeeps(w, ConfirmCalled(id, t), others, id);
    ConfirmStarts(w, id, t);
  }

  lemma ConfirmOrders(w: World, id: nat, o: PaymentOrder, b: nat, t: nat, others: seq<Event>)
    requires InCall(w, id, o, InFlight(VerifyCall(o.(status := Verifying)), BalanceRead(b))) && Others(others, id)
    requires o.token == "ICP" && b >= o.amount && b > 100_000
    ensures InCall(Step(w, Resumed(id, t), others), id, o,
                   InFlight(ShareCall(o.(status := Paid, amountPaid := b, verifiedTime := Some(t)), b - 100_000),
                            Waiting))
  {
    StepKeeps(w, Resumed(id, t), others, id);
    VerifyResumed(w, id, b, t);
  }

  /** An open order of positive amount that holds at least the fee. */
  ghost predicate Refundable(w: World, id: nat) {
    && Reachable(w) && id in w.hub.orders && id !in w.calls
    && var o := w.hub.orders[id];
       && (o.status == Unpaid || o.status == TimedOut) && o.amount > 0
       && (o.token == "ICP" || o.token == "CKBTC")
       && Balance(w.log, Box(o, id)) >= if o.token == "ICP" then 10_000 else 10
  }

  /** An Unpaid order, still in time, that holds its price and more than the base fee. */
  ghost predicate Confirmable(w: World, id: nat, now: nat) {
    && Reachable(w) && id in w.hub.orders && id !in w.calls
    && var o := w.hub.orders[id];
       && o.status == Unpaid && o.token == "ICP" && now <= o.createdTime + 900_000_000_000
       && Balance(w.log, Box(o, id)) >= o.amount && Balance(w.log, Box(o, id)) > 100_000
  }

  /** The world in which a call has asked for its transfer, with other events after each step. */
  function Asking(w: World, start: Event, id: nat, t: nat, os: seq<seq<Event>>): World
    requires |os| == 4
  {
    Step(Step(Step(w, start, os[0]), BalanceAnswered(id, true), os[1]), Resumed(id, t), os[2])
  }

  /** The ledger logs the refund, and resuming the call that has heard of it stores Refunded. */
  ghost predicate RefundDone(asking: World, heard: World, id: nat, o: PaymentOrder, to: Owner, paid: nat, now: nat) {
    var fee := if o.token == "ICP" then 10_000 else 10;
    && Next(asking, TransferAnswered(id, true)).log
       == asking.log + [Out(Refunding, Box(o, id), Account(o.token, to), Max(0, paid - fee), fee)]
    && Next(heard, Resumed(id, now))
       == Ended(heard, id, o.(status := Refunded, amountPaid := paid, verifiedTime := Some(now)))
  }

  /** A refund call has read balance `b` and waits for the transfer of all but the fee. */
  ghost predicate ReadyToRefund(w: World, id: nat, o: PaymentOrder, to: Owner, b: nat) {
    var fee := if o.token == "ICP" then 10_000 else 10;
    b >= fee && InCall(w, id, o, InFlight(RefundTransferCall(o.(amountPaid := b), to, b - fee), Waiting))
  }

  /** The ledger logs the share, and resuming the call that has heard of it stores Paid and shared. */
  ghost predicate ShareDone(asking: World, heard: World, id: nat, o: PaymentOrder, paid: nat, verified: nat, now: nat) {
    && Next(asking, TransferAnswered(id, true)).log
       == asking.log + [Out(Sharing, Box(o, id), Account("ICP", Treasury), Max(0, paid - 100_000), 10_000)]
    && Next(heard, Resumed(id, now))
       == Ended(heard, id, o.(status := Paid, amountPaid := paid, verifiedTime := Some(verified),
                              sharedTime := Some(now)))
  }

  /**
   A payer's refund goes through: his Unpaid or TimedOut order of positive amount,
   whose subaccount holds at least the fee, is Refunded once the ledger has given the
   balance and accepted the transfer, of all but the fee, to where he said.
   */
  lemma RefundGoesThrough(w: World, id: nat, to: Owner, t1: nat, t2: nat, t3: nat, os: seq<seq<Event>>)
    requires Refundable(w, id)
    requires |os| == 4 && forall i :: 0 <= i < 4 ==> Others(os[i], id)
    ensures var o := w.hub.orders[id];
            var start := RefundCalled(id, o.payer, to, t1);
            var fee := if o.token == "ICP" then 10_000 else 10;
            var balance := Balance(Step(w, start, os[0]).log, Box(o, id));
            var asking := Asking(w, start, id, t2, os);
            balance >= fee && RefundDone(asking, Step(asking, TransferAnswered(id, true), os[3]), id, o, to, balance, t3)
  {
    var o := w.hub.orders[id];
    var balance := RefundReachesTransfer(w, id, to, t1, t2, os);
    RefundTransferred(Asking(w, RefundCalled(id, o.payer, to, t1), id, t2, os), id, o, to, balance, t3, os[3]);
  }

  lemma RefundReachesTransfer(w: World, id: nat, to: Owner, t1: nat, t2: nat, os: seq<seq<Event>>) returns (balance: nat)
    requires Refundable(w, id)
    requires |os| == 4 && forall i :: 0 <= i < 4 ==> Others(os[i], id)
    ensures var o := w.hub.orders[id];
            var start := RefundCalled(id, o.payer, to, t1);
            var fee := if o.token == "ICP" then 10_000 else 10;
            && balance == Balance(Step(w, start, os[0]).log, Box(o, id)) && balance >= fee
            && ReadyToRefund(Asking(w, start, id, t2, os), id, o, to, balance)
  {
    var o := w.hub.orders[id];
    RefundAsks(w, id, to, t1, os[0]);
    var w1 := Step(w, RefundCalled(id, o.payer, to, t1), os[0]);
    balance := Balance(w1.log, Box(o, id));
    AsksAndReads(w1, id, o, RefundBalanceCall(o, to), os[1]);
    RefundOrders(Step(w1, BalanceAnswered(id, true), os[1]), id, o, to, balance, t2, os[2]);
  }

  lemma RefundTransferred(w: World, id: nat, o: PaymentOrder, to: Owner, b: nat, t: nat, others: seq<Event>)
    requires ReadyToRefund(w, id, o, to, b) && Others(others, id)
    ensures RefundDone(w, Step(w, TransferAnswered(id, true), others), id, o, to, b, t)
  {
    var call := w.calls[id].call;
    StepKeeps(w, TransferAnswered(id, true), others, id);
    TransferIsFunded(w, id);
    TransfersAndHears(w, id, o, call, others);
    RefundTransferResumed(Step(w, TransferAnswered(id, true), others), id, true, t);
  }

  /**
   A payment in time goes through: an Unpaid ICP order whose subaccount holds its price
   and more than the base fee is Paid and shared once the ledger has given the balance and
   accepted the share, of all but the base fee, to the treasury.
   */
  lemma ConfirmGoesThrough(w: World, id: nat, t1: nat, t2: nat, t3: nat, os: seq<seq<Event>>)
    requires Confirmable(w, id, t1)
    requires |os| == 4 && forall i :: 0 <= i < 4 ==> Others(os[i], id)
    ensures var o := w.hub.orders[id];
            var start := ConfirmCalled(id, t1);
            var balance := Balance(Step(w, start, os[0]).log, Box(o, id));
            var asking := Asking(w, start, id, t2, os);
            balance > 100_000
            && ShareDone(asking, Step(asking, TransferAnswered(id, true), os[3]), id, o, balance, t2, t3)
  {
    var balance := ConfirmReachesShare(w, id, t1, t2, os);
    ShareTransferred(Asking(w, ConfirmCalled(id, t1), id, t2, os), id, w.hub.orders[id], balance, t2, t3, os[3]);
  }

  lemma ConfirmReachesShare(w: World, id: nat, t1: nat, t2: nat, os: seq<seq<Event>>) returns (balance: nat)
    requires Confirmable(w, id, t1)
    requires |os| == 4 && forall i :: 0 <= i < 4 ==> Others(os[i], id)
    ensures var o := w.hub.orders[id];
            var start := ConfirmCalled(id, t1);
            && balance == Balance(Step(w, start, os[0]).log, Box(o, id)) && balance > 100_000
            && InCall(Asking(w, start, id, t2, os), id, o,
                      InFlight(ShareCall(o.(status := Paid, amountPaid := balance, verifiedTime := Some(t2)),
                                         balance - 100_000), Waiting))
  {
    var o := w.hub.orders[id];
    ConfirmAsks(w, id, t1, os[0]);
    var w1 := Step(w, ConfirmCalled(id, t1), os[0]);
    balance := Balance(w1.log, Box(o, id));
    AsksAndReads(w1, id, o, VerifyCall(o.(status := Verifying)), os[1]);
    ConfirmOrders(Step(w1, BalanceAnswered(id, true), os[1]), id, o, balance, t2, os[2]);
  }

  lemma ShareTransferred(w: World, id: nat, o: PaymentOrder, b: nat, t2: nat, t3: nat, others: seq<Event>)
    requires o.token == "ICP" && b > 100_000
    requires InCall(w, id, o,
                    InFlight(ShareCall(o.(status := Paid, amountPaid := b, verifiedTime := Some(t2)), b - 100_000),
                             Waiting))
    requires Others(others, id)
    ensures ShareDone(w, Step(w, TransferAnswered(id, true), others), id, o, b, t2, t3)
  {
    var call := w.calls[id].call;
    StepKeeps(w, TransferAnswered(id, true), others, id);
    TransferIsFunded(w, id);
    TransfersAndHears(w, id, o, call, others);
    ShareResumed(Step(w, TransferAnswered(id, true), others), id, true, t3);
  }

  // ---- refunds were asked for by their payers ----

  predicate IsRequest(e: Event, id: nat, payer: Principal, to: Owner) {
    e.RefundCalled? && e.id == id && e.caller == payer && e.to == to
  }

  ghost predicate Asked(es: seq<Event>, id: nat, payer: Principal, to: Owner) {
    exists i :: 0 <= i < |es| && IsRequest(es[i], id, payer, to)
  }

  predicate IsRefund(c: Call) {
    c.RefundBalanceCall? || c.RefundTransferCall?
  }

  ghost predicate CallsAsked(w: World, es: seq<Event>) {
    forall id :: id in w.calls && IsRefund(w.calls[id].call) ==>
      Asked(es, id, w.calls[id].call.order.payer, w.calls[id].call.to)
  }

  /** Each refund in the log goes where the payer of that order said in an earlier call. */
  ghost predicate RefundsAsked(log: Log, es: seq<Event>) {
    forall k :: 0 <= k < |log| && log[k].Out? && log[k].purpose == Refunding ==>
      && log[k].from.owner.OrderSubaccount?
      && Asked(es, log[k].from.owner.id, log[k].from.owner.payer, log[k].to.owner)
  }

  lemma AskedStays(es: seq<Event>, e: Event, id: nat, payer: Principal, to: Owner)
    requires Asked(es, id, payer, to) || IsRequest(e, id, payer, to)
    ensures Asked(es + [e], id, payer, to)
  {
    assert (es + [e])[|es|] == e;
    assert forall i :: 0 <= i < |es| ==> (es + [e])[i] == es[i];
  }

  /** The refund call `call` goes on with what `earlier` was asked. */
  predicate SameRequest(earlier: Call, call: Call) {
    IsRefund(earlier) && IsRefund(call) && earlier.order.payer == call.order.payer && earlier.to == call.to
  }

  lemma ConfirmAsksNoRefund(c: Canister, id: nat, now: nat)
    ensures Confirm(c, id, now).1.Suspended? ==> !IsRefund(Confirm(c, id, now).1.call)
  {
  }

  lemma RefundAsksItself(c: Canister, id: nat, caller: Principal, to: Owner, now: nat)
    ensures Refund(c, id, caller, to, now).1.Suspended? ==>
      var call := Refund(c, id, caller, to, now).1.call;
      IsRefund(call) && call.order.payer == caller && call.to == to
  {
  }

  lemma ResumeAsksTheSame(c: Canister, id: nat, f: InFlight, now: nat)
    requires Resume(c, id, f, now).1.Suspended? && IsRefund(Resume(c, id, f, now).1.call)
    ensures SameRequest(f.call, Resume(c, id, f, now).1.call)
  {
  }

  lemma StretchAsks(w: World, e: Event, id: nat)
    requires id in Next(w, e).calls && IsRefund(Next(w, e).calls[id].call)
    ensures var call := Next(w, e).calls[id].call;
            || IsRequest(e, id, call.order.payer, call.to)
            || (id in w.calls && SameRequest(w.calls[id].call, call))
  {
    match e
    case ConfirmCalled(j, now) =>
      if j !in w.calls {
        ConfirmAsksNoRefund(w.hub, j, now);
        SettledCall(w, j, Confirm(w.hub, j, now), id);
      }
    case RefundCalled(j, caller, to, now) =>
      if j !in w.calls {
        RefundAsksItself(w.hub, j, caller, to, now);
        SettledCall(w, j, Refund(w.hub, j, caller, to, now), id);
      }
    case Resumed(j, now) =>
      if j in w.calls && w.calls[j].answer != Waiting {
        var r := Resume(w.hub, j, w.calls[j], now);
        SettledCall(w, j, r, id);
        if id == j && r.1.Suspended? {
          ResumeAsksTheSame(w.hub, j, w.calls[j], now);
        }
      }
    case _ =>
  }

  lemma SettledCall(w: World, j: nat, r: (Canister, Outcome), id: nat)
    requires id in Settle(w, j, r).calls
    ensures if id == j then r.1.Suspended? && Settle(w, j, r).calls[id].call == r.1.call
            else id in w.calls && Settle(w, j, r).calls[id] == w.calls[id]
  {
  }

  lemma TransferWasAsked(w: World, e: Event, t: Entry)
    requires Good(w) && Next(w, e).log == w.log + [t] && t.Out? && t.purpose == Refunding
    ensures e.TransferAnswered? && e.id in w.calls && IsRefund(w.calls[e.id].call)
    ensures t.from.owner == OrderSubaccount(w.calls[e.id].call.order.payer, e.id)
    ensures t.to.owner == w.calls[e.id].call.to
  {
    assert (w.log + [t])[|w.log|] == t;
    if e.TransferAnswered? && e.id in w.calls {
      assert OrderOk(w, e.id);
    }
  }

  lemma LogGrows(w: World, e: Event) returns (t: Entry)
    ensures Next(w, e).log == w.log || Next(w, e).log == w.log + [t]
  {
    var log := Next(w, e).log;
    t := if |log| > 0 then log[|log| - 1] else Read(Account("", Treasury));
  }

  /** In every run, every refund was asked for by the payer of the order, to that destination. */
  lemma {:induction false} RefundsWereAsked(config: Config, es: seq<Event>)
    ensures CallsAsked(After(config, es), es) && RefundsAsked(After(config, es).log, es)
    decreases |es|
  {
    if es != [] {
      var init, e := es[..|es| - 1], es[|es| - 1];
      var w := After(config, init);
      RefundsWereAsked(config, init);
      RunsAreGood(config, init);
      CallsStayAsked(w, init, e);
      LogStaysAsked(w, init, e);
      assert es == init + [e];
      assert After(config, es) == Next(w, e);
    }
  }

  lemma CallsStayAsked(w: World, es: seq<Event>, e: Event)
    requires Good(w) && CallsAsked(w, es)
    ensures CallsAsked(Next(w, e), es + [e])
  {
    var w' := Next(w, e);
    forall id | id in w'.calls && IsRefund(w'.calls[id].call)
      ensures Asked(es + [e], id, w'.calls[id].call.order.payer, w'.calls[id].call.to)
    {
      StretchAsks(w, e, id);
      AskedStays(es, e, id, w'.calls[id].call.order.payer, w'.calls[id].call.to);
    }
  }

  lemma LogStaysAsked(w: World, es: seq<Event>, e: Event)
    requires Good(w) && CallsAsked(w, es) && RefundsAsked(w.log, es)
    ensures RefundsAsked(Next(w, e).log, es + [e])
  {
    var log := Next(w, e).log;
    var t := LogGrows(w, e);
    forall k | 0 <= k < |log| && log[k].Out? && log[k].purpose == Refunding
      ensures log[k].from.owner.OrderSubaccount?
      ensures Asked(es + [e], log[k].from.owner.id, log[k].from.owner.payer, log[k].to.owner)
    {
      if k < |w.log| {
        assert log[k] == w.log[k];
      } else {
        TransferWasAsked(w, e, t);
      }
      AskedStays(es, e, log[k].from.owner.id, log[k].from.owner.payer, log[k].to.owner);
    }
  }
}
