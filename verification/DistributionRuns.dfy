/** What holds over all runs of the distribution timer. */
module DistributionRuns {
  import opened Prelude
  import opened Distribution
  import opened Numerals

  /** A completed tick: when it fired, what it paid and what it recorded. */
  datatype Tick = Tick(now: nat, plan: Plan, records: seq<Record>)

  function ModelAfter(m: Model, ts: seq<Tick>): Model {
    if ts == [] then m else TickModel(ModelAfter(m, ts[..|ts| - 1]), ts[|ts| - 1].now)
  }

  function HistoryAfter(ts: seq<Tick>): seq<Record> {
    if ts == [] then [] else HistoryAfter(ts[..|ts| - 1]) + ts[|ts| - 1].records
  }

  ghost predicate IsTick(m: Model, t: Tick) {
    IsPlan(m, t.now, t.plan) && Records(t.records, t.plan.All(), t.now)
  }

  ghost predicate IsRun(m: Model, ts: seq<Tick>) {
    ts == [] || (IsRun(m, ts[..|ts| - 1]) && IsTick(ModelAfter(m, ts[..|ts| - 1]), ts[|ts| - 1]))
  }

  /** The clock does not run backwards. */
  ghost predicate ClockOk(ts: seq<Tick>) {
    forall i, j :: 0 <= i < j < |ts| ==> ts[i].now <= ts[j].now
  }

  // ---- the lock: ticks that overlap a running one change nothing ----

  datatype Running = Running(now: nat, plan: Plan, paid: seq<Record>)

  /** The shared cell and the history; `running` is the tick that has the model borrowed. */
  datatype Cell = Cell(model: Model, history: seq<Record>, running: Option<Running>)

  datatype TimerEvent = Fired(now: nat, plan: Plan) | TransferDone(success: bool)

  ghost function Finish(c: Cell, r: Running): Cell {
    if |r.paid| == |r.plan.All()| then c.(model := TickModel(c.model, r.now), running := None)
    else c.(running := Some(r))
  }

  /**
   A tick fires, with some iteration order of the table, or the transfer awaited by
   the running tick is answered. A tick that finds the model borrowed panics.
   */
  ghost function Next(c: Cell, e: TimerEvent): Cell {
    match e
    case Fired(now, plan) =>
      if c.running.Some? || !IsPlan(c.model, now, plan) then c else Finish(c, Running(now, plan, []))
    case TransferDone(success) =>
      if c.running == None then c
      else
        var r := c.running.value;
        if |r.paid| >= |r.plan.All()| then c
        else
          var record := Record(r.plan.All()[|r.paid|], r.now, success);
          Finish(c.(history := c.history + [record]), r.(paid := r.paid + [record]))
  }

  ghost function After(m: Model, es: seq<TimerEvent>): Cell {
    if es == [] then Cell(m, [], None) else Next(After(m, es[..|es| - 1]), es[|es| - 1])
  }

  /** What the running tick has recorded so far. */
  function Partial(c: Cell): seq<Record> {
    if c.running.Some? then c.running.value.paid else []
  }

  /**
   However ticks fire and transfers are answered, model and history are those of
   some sequence of whole ticks, one after the other, plus the part of the running
   tick that is done.
   */
  ghost predicate Serial(m: Model, c: Cell, ts: seq<Tick>) {
    && IsRun(m, ts) && c.model == ModelAfter(m, ts) && c.history == HistoryAfter(ts) + Partial(c)
    && (c.running.Some? ==>
          var r := c.running.value;
          && IsPlan(c.model, r.now, r.plan) && |r.paid| < |r.plan.All()|
          && Records(r.paid, r.plan.All()[..|r.paid|], r.now))
  }

  lemma FinishIsSerial(m: Model, c: Cell, ts: seq<Tick>, r: Running) returns (ts': seq<Tick>)
    requires IsRun(m, ts) && c.model == ModelAfter(m, ts) && c.history == HistoryAfter(ts) + r.paid
    requires IsPlan(c.model, r.now, r.plan) && |r.paid| <= |r.plan.All()|
    requires Records(r.paid, r.plan.All()[..|r.paid|], r.now)
    ensures Serial(m, Finish(c, r), ts')
  {
    if |r.paid| == |r.plan.All()| {
      assert r.plan.All()[..|r.paid|] == r.plan.All();
      var t := Tick(r.now, r.plan, r.paid);
      ts' := ts + [t];
      assert ts'[..|ts'| - 1] == ts;
      assert HistoryAfter(ts') + [] == HistoryAfter(ts) + r.paid;
    } else {
      ts' := ts;
    }
  }

  lemma NextIsSerial(m: Model, c: Cell, ts: seq<Tick>, e: TimerEvent) returns (ts': seq<Tick>)
    requires Serial(m, c, ts)
    ensures Serial(m, Next(c, e), ts')
  {
    ts' := ts;
    if e.Fired? && c.running == None && IsPlan(c.model, e.now, e.plan) {
      ts' := FinishIsSerial(m, c, ts, Running(e.now, e.plan, []));
    } else if e.TransferDone? && c.running.Some? {
      ts' := DoneIsSerial(m, c, ts, e.success);
    }
  }

  /** The running tick's next transfer is answered. */
  lemma DoneIsSerial(m: Model, c: Cell, ts: seq<Tick>, success: bool) returns (ts': seq<Tick>)
    requires Serial(m, c, ts) && c.running.Some?
    ensures Serial(m, Next(c, TransferDone(success)), ts')
  {
    var r := c.running.value;
    var k := |r.paid|;
    var ps := r.plan.All();
    var record := Record(ps[k], r.now, success);
    assert ps[..k + 1] == ps[..k] + [ps[k]];
    RecordsConcat(r.paid, ps[..k], [record], [ps[k]], r.now);
    assert c.history + [record] == HistoryAfter(ts) + (r.paid + [record]);
    ts' := FinishIsSerial(m, c.(history := c.history + [record]), ts, r.(paid := r.paid + [record]));
  }

  lemma {:induction false} OverlapIsHarmless(m: Model, es: seq<TimerEvent>) returns (ts: seq<Tick>)
    ensures Serial(m, After(m, es), ts)
    decreases |es|
  {
    if es == [] {
      ts := [];
    } else {
      ts := OverlapIsHarmless(m, es[..|es| - 1]);
      ts := NextIsSerial(m, After(m, es[..|es| - 1]), ts, es[|es| - 1]);
    }
  }

  // ---- the ledger equation ----

  function PaidOut(ps: seq<Payment>): nat {
    if ps == [] then 0 else PaidOut(ps[..|ps| - 1]) + ps[|ps| - 1].amount
  }

  function Recorded(rs: seq<Record>): nat {
    if rs == [] then 0 else Recorded(rs[..|rs| - 1]) + rs[|rs| - 1].payment.amount
  }

  ghost function TableSum(table: map<string, nat>): nat
    decreases |table|
  {
    if table == map[] then 0
    else
      var k :| k in table;
      table[k] + TableSum(table - {k})
  }

  /** Taking out any address, not only the one the definition picks, leaves the rest of the sum. */
  lemma {:induction false} TableSumWithout(table: map<string, nat>, a: string)
    requires a in table
    ensures TableSum(table) == table[a] + TableSum(table - {a})
    decreases |table|
  {
    var k :| k in table && TableSum(table) == table[k] + TableSum(table - {k});
    if k != a {
      TableSumWithout(table - {k}, a);
      TableSumWithout(table - {a}, k);
      assert table - {k} - {a} == table - {a} - {k};
    }
  }

  /** The total of a payout does not depend on the order in which the table was iterated. */
  lemma {:induction false} PayoutTotal(kind: DistributionType, table: map<string, nat>, ps: seq<Payment>)
    requires PaysAll(kind, table, None, ps)
    ensures PaidOut(ps) == TableSum(table)
    decreases |ps|
  {
    if ps == [] {
      assert table == map[];
    } else {
      var init, last := ps[..|ps| - 1], ps[|ps| - 1];
      PayoutTotal(kind, table - {last.recipient}, init);
      TableSumWithout(table, last.recipient);
    }
  }

  lemma {:induction false} FlatPayoutTotal(rate: nat, ps: seq<Payment>)
    requires forall i :: 0 <= i < |ps| ==> ps[i].amount == rate
    ensures PaidOut(ps) == Times(|ps|, rate)
    decreases |ps|
  {
    if ps != [] {
      FlatPayoutTotal(rate, ps[..|ps| - 1]);
    }
  }

  lemma {:induction false} PaidOutConcat(ps: seq<Payment>, qs: seq<Payment>)
    ensures PaidOut(ps + qs) == PaidOut(ps) + PaidOut(qs)
    decreases |qs|
  {
    if qs == [] {
      assert ps + qs == ps;
    } else {
      assert (ps + qs)[..|ps + qs| - 1] == ps + qs[..|qs| - 1];
      PaidOutConcat(ps, qs[..|qs| - 1]);
    }
  }

  lemma {:induction false} RecordedConcat(rs: seq<Record>, qs: seq<Record>)
    ensures Recorded(rs + qs) == Recorded(rs) + Recorded(qs)
    decreases |qs|
  {
    if qs == [] {
      assert rs + qs == rs;
    } else {
      assert (rs + qs)[..|rs + qs| - 1] == rs + qs[..|qs| - 1];
      RecordedConcat(rs, qs[..|qs| - 1]);
    }
  }

  lemma {:induction false} RecordedIsPaidOut(rs: seq<Record>, ps: seq<Payment>, now: nat)
    requires Records(rs, ps, now)
    ensures Recorded(rs) == PaidOut(ps)
    decreases |rs|
  {
    if rs != [] {
      RecordedIsPaidOut(rs[..|rs| - 1], ps[..|ps| - 1], now);
    }
  }

  /** Amounts of the items executed in the second schedule but not in the first. */
  function NewlyUnlocked(before: seq<UnlockItem>, after: seq<UnlockItem>): nat
    requires |before| == |after|
  {
    if before == [] then 0
    else
      var n := |before| - 1;
      NewlyUnlocked(before[..n], after[..n]) + if after[n].executed && !before[n].executed then before[n].amount else 0
  }

  lemma {:induction false} UnlockPaymentsTotal(items: seq<UnlockItem>, now: nat)
    ensures PaidOut(UnlockPayments(items, now)) == NewlyUnlocked(items, Unlocked(items, now))
    decreases |items|
  {
    if items != [] {
      var init := items[..|items| - 1];
      UnlockPaymentsTotal(init, now);
      assert Unlocked(items, now)[..|items| - 1] == Unlocked(init, now);
      var ps := UnlockPayments(items, now);
      if ItemDue(items[|items| - 1], now) {
        assert ps[..|ps| - 1] == UnlockPayments(init, now);
      }
    }
  }

  /** The same items; none goes back from executed. */
  ghost predicate Advances(before: seq<UnlockItem>, after: seq<UnlockItem>) {
    |before| == |after| && forall i :: 0 <= i < |before| ==>
      after[i] == before[i].(executed := after[i].executed) && (before[i].executed ==> after[i].executed)
  }

  lemma {:induction false} NewlyUnlockedAdds(a: seq<UnlockItem>, b: seq<UnlockItem>, c: seq<UnlockItem>)
    requires Advances(a, b) && Advances(b, c)
    ensures Advances(a, c) && NewlyUnlocked(a, c) == NewlyUnlocked(a, b) + NewlyUnlocked(b, c)
    decreases |a|
  {
    if a != [] {
      var n := |a| - 1;
      NewlyUnlockedAdds(a[..n], b[..n], c[..n]);
    }
  }

  lemma {:induction false} NothingUnlocked(items: seq<UnlockItem>)
    ensures NewlyUnlocked(items, items) == 0
  {
    if items != [] {
      NothingUnlocked(items[..|items| - 1]);
    }
  }

  lemma {:induction false} ScheduleAdvances(m: Model, ts: seq<Tick>)
    ensures ModelAfter(m, ts) == m.(initialExecutedAt := ModelAfter(m, ts).initialExecutedAt,
                                    lastEmissionTime := ModelAfter(m, ts).lastEmissionTime,
                                    unlockSchedule := ModelAfter(m, ts).unlockSchedule)
    ensures Advances(m.unlockSchedule, ModelAfter(m, ts).unlockSchedule)
    decreases |ts|
  {
    if ts != [] {
      ScheduleAdvances(m, ts[..|ts| - 1]);
    }
  }

  /** The times at which emissions were paid. */
  function EmissionTimes(m: Model, ts: seq<Tick>): seq<nat> {
    if ts == [] then []
    else
      var init, t := ts[..|ts| - 1], ts[|ts| - 1];
      if EmissionDue(ModelAfter(m, init), t.now) then EmissionTimes(m, init) + [t.now] else EmissionTimes(m, init)
  }

  function InitialTotal(before: Option<nat>, after: Option<nat>, total: nat): nat {
    if before == None && after.Some? then total else 0
  }

  function RateOf(m: Model): nat {
    if m.emissionRate.Some? then m.emissionRate.value else 0
  }

  /** What one emission pays to all recipients together. */
  function EachEmission(m: Model): nat {
    Times(|m.initialDistribution|, RateOf(m))
  }

  lemma {:induction false} TickTotal(m: Model, t: Tick)
    requires IsTick(m, t)
    ensures var m' := TickModel(m, t.now);
            Recorded(t.records) ==
              InitialTotal(m.initialExecutedAt, m'.initialExecutedAt, TableSum(m.initialDistribution))
              + (if EmissionDue(m, t.now) then EachEmission(m) else 0)
              + NewlyUnlocked(m.unlockSchedule, m'.unlockSchedule)
  {
    RecordedIsPaidOut(t.records, t.plan.All(), t.now);
    PaidOutConcat(t.plan.initial + t.plan.emission, t.plan.unlocks);
    PaidOutConcat(t.plan.initial, t.plan.emission);
    if InitialDue(m) {
      PayoutTotal(Initial, m.initialDistribution, t.plan.initial);
    }
    if EmissionDue(m, t.now) {
      FlatPayoutTotal(RateOf(m), t.plan.emission);
    }
    UnlockPaymentsTotal(m.unlockSchedule, t.now);
  }

  /** The initial table if it was paid since `m`, one rate for each recipient and emission, the unlocked amounts. */
  ghost function LedgerSum(m: Model, m': Model, emissions: nat): nat
    requires |m.unlockSchedule| == |m'.unlockSchedule|
  {
    InitialTotal(m.initialExecutedAt, m'.initialExecutedAt, TableSum(m.initialDistribution))
    + Times(emissions, EachEmission(m))
    + NewlyUnlocked(m.unlockSchedule, m'.unlockSchedule)
  }

  /**
   Over any run, everything ever recorded is: the initial table if it was paid in
   the run, one rate for each recipient and emission, and the unlocked amounts.
   */
  lemma {:induction false} LedgerEquation(m: Model, ts: seq<Tick>)
    requires IsRun(m, ts)
    ensures |m.unlockSchedule| == |ModelAfter(m, ts).unlockSchedule|
    ensures Recorded(HistoryAfter(ts)) == LedgerSum(m, ModelAfter(m, ts), |EmissionTimes(m, ts)|)
    decreases |ts|
  {
    if ts == [] {
      NothingUnlocked(m.unlockSchedule);
    } else {
      LedgerEquation(m, ts[..|ts| - 1]);
      LedgerStep(m, ts[..|ts| - 1], ts[|ts| - 1]);
      assert ts[..|ts| - 1] + [ts[|ts| - 1]] == ts;
    }
  }

  /** What one more tick adds to each side of the equation. */
  lemma {:induction false} LedgerStep(m: Model, init: seq<Tick>, t: Tick)
    requires IsTick(ModelAfter(m, init), t)
    requires |m.unlockSchedule| == |ModelAfter(m, init).unlockSchedule|
    requires Recorded(HistoryAfter(init)) == LedgerSum(m, ModelAfter(m, init), |EmissionTimes(m, init)|)
    ensures |m.unlockSchedule| == |ModelAfter(m, init + [t]).unlockSchedule|
    ensures Recorded(HistoryAfter(init + [t]))
         == LedgerSum(m, ModelAfter(m, init + [t]), |EmissionTimes(m, init + [t])|)
  {
    var m1 := ModelAfter(m, init);
    OneMoreTick(m, init, t);
    SettingsStay(m, init);
    TickTotal(m1, t);
    InitialStep(m, init, t.now);
    EmissionStep(m, init, t);
    UnlockStep(m, init, t.now);
  }

  lemma {:induction false} OneMoreTick(m: Model, init: seq<Tick>, t: Tick)
    ensures ModelAfter(m, init + [t]) == TickModel(ModelAfter(m, init), t.now)
    ensures Recorded(HistoryAfter(init + [t])) == Recorded(HistoryAfter(init)) + Recorded(t.records)
  {
    var ts := init + [t];
    assert ts[..|ts| - 1] == init && ts[|ts| - 1] == t;
    RecordedConcat(HistoryAfter(init), t.records);
  }

  lemma {:induction false} SettingsStay(m: Model, init: seq<Tick>)
    ensures ModelAfter(m, init).initialDistribution == m.initialDistribution
    ensures ModelAfter(m, init).emissionRate == m.emissionRate
  {
    ScheduleAdvances(m, init);
  }

  lemma {:induction false} InitialStep(m: Model, init: seq<Tick>, now: nat)
    ensures var total := TableSum(m.initialDistribution);
            var before, after := ModelAfter(m, init).initialExecutedAt, TickModel(ModelAfter(m, init), now).initialExecutedAt;
            InitialTotal(m.initialExecutedAt, after, total)
            == InitialTotal(m.initialExecutedAt, before, total) + InitialTotal(before, after, total)
  {
    StaysExecuted(m, init);
  }

  lemma {:induction false} StaysExecuted(m: Model, ts: seq<Tick>)
    ensures m.initialExecutedAt.Some? ==> ModelAfter(m, ts).initialExecutedAt.Some?
    decreases |ts|
  {
    if ts != [] {
      StaysExecuted(m, ts[..|ts| - 1]);
    }
  }

  lemma {:induction false} EmissionStep(m: Model, init: seq<Tick>, t: Tick)
    ensures Times(|EmissionTimes(m, init + [t])|, EachEmission(m)) == Times(|EmissionTimes(m, init)|, EachEmission(m))
              + if EmissionDue(ModelAfter(m, init), t.now) then EachEmission(m) else 0
  {
    EmissionCountStep(m, init, t);
    TimesOneMore(|EmissionTimes(m, init)|, EachEmission(m));
  }

  lemma {:induction false} EmissionCountStep(m: Model, init: seq<Tick>, t: Tick)
    ensures |EmissionTimes(m, init + [t])|
              == |EmissionTimes(m, init)| + if EmissionDue(ModelAfter(m, init), t.now) then 1 else 0
  {
    var ts := init + [t];
    assert ts[..|ts| - 1] == init && ts[|ts| - 1] == t;
  }

  lemma TimesOneMore(n: nat, x: nat)
    ensures Times(n + 1, x) == Times(n, x) + x
  {
  }

  lemma {:induction false} UnlockStep(m: Model, init: seq<Tick>, now: nat)
    ensures var items, items1 := m.unlockSchedule, ModelAfter(m, init).unlockSchedule;
            && |items| == |items1|
            && NewlyUnlocked(items, Unlocked(items1, now))
               == NewlyUnlocked(items, items1) + NewlyUnlocked(items1, Unlocked(items1, now))
  {
    var items1 := ModelAfter(m, init).unlockSchedule;
    ScheduleAdvances(m, init);
    NewlyUnlockedAdds(m.unlockSchedule, items1, Unlocked(items1, now));
  }

  /** The equation for a model whose timer has just been set up, with the products written out. */
  lemma {:induction false} FreshLedgerEquation(m: Model, ts: seq<Tick>)
    requires IsRun(m, ts) && m.initialExecutedAt == None
    ensures var m' := ModelAfter(m, ts);
            && |m.unlockSchedule| == |m'.unlockSchedule|
            && Recorded(HistoryAfter(ts)) ==
                 (if m'.initialExecutedAt.Some? then TableSum(m.initialDistribution) else 0)
                 + |EmissionTimes(m, ts)| * (|m.initialDistribution| * RateOf(m))
                 + NewlyUnlocked(m.unlockSchedule, m'.unlockSchedule)
  {
    LedgerEquation(m, ts);
    TimesIsProduct(|EmissionTimes(m, ts)|, EachEmission(m));
    TimesIsProduct(|m.initialDistribution|, RateOf(m));
  }

  /**
   The equation at every moment of every interleaving of ticks and transfer
   answers: what is recorded is that of some whole ticks, plus what the running
   tick has recorded so far.
   */
  lemma {:induction false} LedgerAtAnyMoment(m: Model, es: seq<TimerEvent>) returns (ts: seq<Tick>)
    ensures var c := After(m, es);
            && IsRun(m, ts) && c.model == ModelAfter(m, ts)
            && |m.unlockSchedule| == |c.model.unlockSchedule|
            && Recorded(c.history) ==
                 LedgerSum(m, c.model, |EmissionTimes(m, ts)|) + Recorded(Partial(c))
  {
    ts := OverlapIsHarmless(m, es);
    LedgerEquation(m, ts);
    RecordedConcat(HistoryAfter(ts), Partial(After(m, es)));
  }

  lemma OneMore(n: nat, x: nat)
    ensures (n + 1) * x == n * x + x
  {
  }

  // ---- the unlock schedule ----

  /** The tick at which an item is paid. */
  ghost predicate PaidAt(m: Model, ts: seq<Tick>, i: nat, k: nat) {
    && k < |ts| && i < |ModelAfter(m, ts[..k]).unlockSchedule|
    && ItemDue(ModelAfter(m, ts[..k]).unlockSchedule[i], ts[k].now)
  }

  ghost predicate Reached(ts: seq<Tick>, due: nat, k: nat) {
    k < |ts| && due <= ts[k].now
  }

  /** An item is executed after a run iff it was before, or some tick reached its time. */
  lemma {:induction false} ItemExecuted(m: Model, ts: seq<Tick>, i: nat)
    requires i < |m.unlockSchedule|
    ensures var m' := ModelAfter(m, ts);
            && i < |m'.unlockSchedule|
            && m'.unlockSchedule[i] == m.unlockSchedule[i].(executed := m'.unlockSchedule[i].executed)
            && (m'.unlockSchedule[i].executed <==>
                  m.unlockSchedule[i].executed || exists k: nat :: Reached(ts, Nanos(m.unlockSchedule[i].timestamp), k))
    decreases |ts|
  {
    var due := Nanos(m.unlockSchedule[i].timestamp);
    if ts != [] {
      var n := |ts| - 1;
      var init := ts[..n];
      ItemExecuted(m, init, i);
      assert forall k: nat :: k < n ==> (Reached(ts, due, k) <==> Reached(init, due, k));
      assert Reached(ts, due, n) <==> due <= ts[n].now;
      assert forall k: nat :: Reached(ts, due, k) ==> k == n || Reached(init, due, k);
    }
  }

  // ---- the payments of the schedule ----

  function PaymentsOf(rs: seq<Record>): seq<Payment> {
    seq(|rs|, i requires 0 <= i < |rs| => rs[i].payment)
  }

  /** The payments of one kind among all payments. */
  function OfKind(ps: seq<Payment>, kind: DistributionType): multiset<Payment> {
    if ps == [] then multiset{}
    else
      var init, p := OfKind(ps[..|ps| - 1], kind), ps[|ps| - 1];
      if p.kind == kind then init + multiset{p} else init
  }

  /** One payment for each item executed in the second schedule but not in the first. */
  function ItemPayments(before: seq<UnlockItem>, after: seq<UnlockItem>): multiset<Payment>
    requires |before| == |after|
  {
    if before == [] then multiset{}
    else
      var n := |before| - 1;
      var init := ItemPayments(before[..n], after[..n]);
      if after[n].executed && !before[n].executed
      then init + multiset{Payment(Scheduled, before[n].addr, before[n].amount)} else init
  }

  lemma {:induction false} OfKindConcat(ps: seq<Payment>, qs: seq<Payment>, kind: DistributionType)
    ensures OfKind(ps + qs, kind) == OfKind(ps, kind) + OfKind(qs, kind)
    decreases |qs|
  {
    if qs == [] {
      assert ps + qs == ps;
    } else {
      assert (ps + qs)[..|ps + qs| - 1] == ps + qs[..|qs| - 1];
      OfKindConcat(ps, qs[..|qs| - 1], kind);
    }
  }

  lemma {:induction false} NoneOfKind(ps: seq<Payment>, kind: DistributionType)
    requires forall i :: 0 <= i < |ps| ==> ps[i].kind != kind
    ensures OfKind(ps, kind) == multiset{}
    decreases |ps|
  {
    if ps != [] {
      NoneOfKind(ps[..|ps| - 1], kind);
    }
  }

  lemma {:induction false} AllOfKind(ps: seq<Payment>, kind: DistributionType)
    requires forall i :: 0 <= i < |ps| ==> ps[i].kind == kind
    ensures OfKind(ps, kind) == multiset(ps)
    decreases |ps|
  {
    if ps != [] {
      AllOfKind(ps[..|ps| - 1], kind);
      assert ps == ps[..|ps| - 1] + [ps[|ps| - 1]];
    }
  }

  lemma {:induction false} UnlocksAreItems(items: seq<UnlockItem>, now: nat)
    ensures OfKind(UnlockPayments(items, now), Scheduled) == ItemPayments(items, Unlocked(items, now))
    decreases |items|
  {
    if items != [] {
      var init := items[..|items| - 1];
      UnlocksAreItems(init, now);
      assert Unlocked(items, now)[..|items| - 1] == Unlocked(init, now);
      var ps := UnlockPayments(items, now);
      if ItemDue(items[|items| - 1], now) {
        assert ps[..|ps| - 1] == UnlockPayments(init, now);
      }
    }
  }

  lemma {:induction false} ItemPaymentsAdd(a: seq<UnlockItem>, b: seq<UnlockItem>, c: seq<UnlockItem>)
    requires Advances(a, b) && Advances(b, c)
    ensures ItemPayments(a, c) == ItemPayments(a, b) + ItemPayments(b, c)
    decreases |a|
  {
    if a != [] {
      var n := |a| - 1;
      ItemPaymentsAdd(a[..n], b[..n], c[..n]);
    }
  }

  lemma {:induction false} NoItemPayments(items: seq<UnlockItem>)
    ensures ItemPayments(items, items) == multiset{}
  {
    if items != [] {
      NoItemPayments(items[..|items| - 1]);
    }
  }

  /** A tick records a scheduled payment for each item it turns executed, and no other. */
  lemma {:induction false} TickPaysItems(m: Model, t: Tick)
    requires IsTick(m, t)
    ensures OfKind(PaymentsOf(t.records), Scheduled) == ItemPayments(m.unlockSchedule, Unlocked(m.unlockSchedule, t.now))
  {
    assert PaymentsOf(t.records) == t.plan.All();
    OfKindConcat(t.plan.initial + t.plan.emission, t.plan.unlocks, Scheduled);
    NoneOfKind(t.plan.initial + t.plan.emission, Scheduled);
    UnlocksAreItems(m.unlockSchedule, t.now);
  }

  lemma {:induction false} ScheduledPaymentsGrow(ts: seq<Tick>)
    requires ts != []
    ensures var init, t := ts[..|ts| - 1], ts[|ts| - 1];
            OfKind(PaymentsOf(HistoryAfter(ts)), Scheduled)
            == OfKind(PaymentsOf(HistoryAfter(init)), Scheduled) + OfKind(PaymentsOf(t.records), Scheduled)
  {
    var init, t := ts[..|ts| - 1], ts[|ts| - 1];
    OfKindConcat(PaymentsOf(HistoryAfter(init)), PaymentsOf(t.records), Scheduled);
    assert PaymentsOf(HistoryAfter(ts)) == PaymentsOf(HistoryAfter(init)) + PaymentsOf(t.records);
  }

  lemma {:induction false} ItemPaymentsGrow(m: Model, init: seq<Tick>, now: nat)
    ensures var items, items1 := m.unlockSchedule, ModelAfter(m, init).unlockSchedule;
            && |items| == |items1|
            && ItemPayments(items, Unlocked(items1, now))
               == ItemPayments(items, items1) + ItemPayments(items1, Unlocked(items1, now))
  {
    var items1 := ModelAfter(m, init).unlockSchedule;
    ScheduleAdvances(m, init);
    ItemPaymentsAdd(m.unlockSchedule, items1, Unlocked(items1, now));
  }

  /**
   Over any run, the recorded scheduled payments are exactly one for each item
   that went from unexecuted to executed, to its address and of its amount.
   */
  lemma {:induction false} ScheduledPaymentsMatch(m: Model, ts: seq<Tick>)
    requires IsRun(m, ts)
    ensures |m.unlockSchedule| == |ModelAfter(m, ts).unlockSchedule|
    ensures OfKind(PaymentsOf(HistoryAfter(ts)), Scheduled) == ItemPayments(m.unlockSchedule, ModelAfter(m, ts).unlockSchedule)
    decreases |ts|
  {
    if ts == [] {
      NoItemPayments(m.unlockSchedule);
    } else {
      var init, t := ts[..|ts| - 1], ts[|ts| - 1];
      ScheduledPaymentsMatch(m, init);
      ScheduledPaymentsGrow(ts);
      TickPaysItems(ModelAfter(m, init), t);
      ItemPaymentsGrow(m, init, t.now);
    }
  }

  lemma {:induction false} TicksOfRun(m: Model, ts: seq<Tick>, k: nat)
    requires IsRun(m, ts) && k < |ts|
    ensures IsTick(ModelAfter(m, ts[..k]), ts[k])
    decreases |ts|
  {
    if k < |ts| - 1 {
      var init := ts[..|ts| - 1];
      TicksOfRun(m, init, k);
      assert init[..k] == ts[..k];
    }
  }

  lemma {:induction false} DueItemPayment(before: seq<UnlockItem>, after: seq<UnlockItem>, i: nat)
    requires Advances(before, after) && i < |before| && after[i].executed && !before[i].executed
    ensures Payment(Scheduled, before[i].addr, before[i].amount) in ItemPayments(before, after)
    decreases |before|
  {
    var n := |before| - 1;
    if i < n {
      DueItemPayment(before[..n], after[..n], i);
    }
  }

  lemma {:induction false} OfKindAreAmong(ps: seq<Payment>, kind: DistributionType, p: Payment)
    requires p in OfKind(ps, kind)
    ensures p in ps
    decreases |ps|
  {
    if ps[|ps| - 1] != p {
      OfKindAreAmong(ps[..|ps| - 1], kind, p);
    }
  }

  /** The tick at which an item is paid records the payment. */
  lemma PaidIsRecorded(m: Model, ts: seq<Tick>, i: nat, k: nat)
    requires IsRun(m, ts) && i < |m.unlockSchedule| && PaidAt(m, ts, i, k)
    ensures Payment(Scheduled, m.unlockSchedule[i].addr, m.unlockSchedule[i].amount) in PaymentsOf(ts[k].records)
  {
    var m1 := ModelAfter(m, ts[..k]);
    ScheduleAdvances(m, ts[..k]);
    TicksOfRun(m, ts, k);
    TickPaysItems(m1, ts[k]);
    DueItemPayment(m1.unlockSchedule, Unlocked(m1.unlockSchedule, ts[k].now), i);
    OfKindAreAmong(PaymentsOf(ts[k].records), Scheduled,
                   Payment(Scheduled, m.unlockSchedule[i].addr, m.unlockSchedule[i].amount));
  }

  // ---- the payments to the recipient table, in plain terms ----

  /** One payment to each address of the table. */
  function ToEach(kind: DistributionType, table: map<string, nat>, amount: Option<nat>): set<Payment> {
    set a | a in table :: Payment(kind, a, if amount.Some? then amount.value else table[a])
  }

  function Members(ps: seq<Payment>): set<Payment> {
    set p | p in ps
  }

  function Recipients(ps: seq<Payment>): set<string> {
    set p | p in ps :: p.recipient
  }

  ghost predicate NoRepeats(ps: seq<Payment>) {
    forall i, j :: 0 <= i < j < |ps| ==> ps[i].recipient != ps[j].recipient
  }

  lemma LastMember(ps: seq<Payment>)
    requires ps != []
    ensures var init, last := ps[..|ps| - 1], ps[|ps| - 1];
            && Members(ps) == Members(init) + {last}
            && Recipients(ps) == Recipients(init) + {last.recipient}
            && (NoRepeats(ps) ==> NoRepeats(init) && last.recipient !in Recipients(init) && last !in Members(init))
  {
    assert ps == ps[..|ps| - 1] + [ps[|ps| - 1]];
  }

  lemma {:induction false} MembersOnce(ps: seq<Payment>)
    requires NoRepeats(ps)
    ensures multiset(ps) == multiset(Members(ps))
    decreases |ps|
  {
    if ps != [] {
      var init, last := ps[..|ps| - 1], ps[|ps| - 1];
      MembersOnce(init);
      LastMember(ps);
      AddMember(Members(init), last);
      assert ps == init + [last];
    }
  }

  lemma AddMember<T>(s: set<T>, x: T)
    requires x !in s
    ensures multiset(s + {x}) == multiset(s) + multiset{x}
  {
  }

  lemma {:induction false} RecipientsOnce(ps: seq<Payment>)
    requires NoRepeats(ps)
    ensures |Recipients(ps)| == |ps|
    decreases |ps|
  {
    if ps != [] {
      RecipientsOnce(ps[..|ps| - 1]);
      LastMember(ps);
    }
  }

  lemma EachIsMember(kind: DistributionType, table: map<string, nat>, amount: Option<nat>, ps: seq<Payment>)
    requires PaysAll(kind, table, amount, ps) && Recipients(ps) == table.Keys
    ensures Members(ps) == ToEach(kind, table, amount)
  {
    forall a | a in table
      ensures Payment(kind, a, if amount.Some? then amount.value else table[a]) in Members(ps)
    {
      assert a in Recipients(ps);
    }
  }

  lemma PaysEach(kind: DistributionType, table: map<string, nat>, amount: Option<nat>, ps: seq<Payment>)
    requires PaysAll(kind, table, amount, ps)
    ensures multiset(ps) == multiset(ToEach(kind, table, amount))
  {
    MembersOnce(ps);
    RecipientsOnce(ps);
    SameSizeSubset(Recipients(ps), table.Keys);
    EachIsMember(kind, table, amount, ps);
  }

  lemma SameSizeSubset<T>(a: set<T>, b: set<T>)
    requires a <= b && |a| == |b|
    ensures a == b
  {
    assert b == a + (b - a);
  }

  lemma {:induction false} TickKinds(m: Model, t: Tick)
    requires IsTick(m, t)
    ensures OfKind(PaymentsOf(t.records), Initial) == multiset(t.plan.initial)
    ensures OfKind(PaymentsOf(t.records), Emission) == multiset(t.plan.emission)
  {
    UnlocksAreScheduled(m.unlockSchedule, t.now);
    assert PaymentsOf(t.records) == t.plan.All();
    InitialOfPlan(t.plan);
    EmissionOfPlan(t.plan);
  }

  ghost predicate Staged(plan: Plan) {
    && (forall p :: p in plan.initial ==> p.kind == Initial)
    && (forall p :: p in plan.emission ==> p.kind == Emission)
    && (forall p :: p in plan.unlocks ==> p.kind == Scheduled)
  }

  lemma InitialOfPlan(plan: Plan)
    requires Staged(plan)
    ensures OfKind(plan.All(), Initial) == multiset(plan.initial)
  {
    KindsOfPlan(plan, Initial);
    AllOfKind(plan.initial, Initial);
    NoneOfKind(plan.emission, Initial);
    NoneOfKind(plan.unlocks, Initial);
  }

  lemma EmissionOfPlan(plan: Plan)
    requires Staged(plan)
    ensures OfKind(plan.All(), Emission) == multiset(plan.emission)
  {
    KindsOfPlan(plan, Emission);
    NoneOfKind(plan.initial, Emission);
    AllOfKind(plan.emission, Emission);
    NoneOfKind(plan.unlocks, Emission);
  }

  lemma KindsOfPlan(plan: Plan, kind: DistributionType)
    ensures OfKind(plan.All(), kind) == OfKind(plan.initial, kind) + OfKind(plan.emission, kind) + OfKind(plan.unlocks, kind)
  {
    OfKindConcat(plan.initial + plan.emission, plan.unlocks, kind);
    OfKindConcat(plan.initial, plan.emission, kind);
  }

  lemma {:induction false} UnlocksAreScheduled(items: seq<UnlockItem>, now: nat)
    ensures forall p :: p in UnlockPayments(items, now) ==> p.kind == Scheduled
    decreases |items|
  {
    if items != [] {
      UnlocksAreScheduled(items[..|items| - 1], now);
    }
  }

  /**
   Tick `k` of a run pays the rate to each address if a rate is set and there was no
   emission yet or a period has passed since the last one, and then notes its time;
   otherwise it pays no emission.
   */
  lemma EmissionAtTick(m: Model, ts: seq<Tick>, k: nat)
    requires IsRun(m, ts) && k < |ts|
    ensures var last, now := ModelAfter(m, ts[..k]).lastEmissionTime, ts[k].now;
            var period := WrapU64((if m.emissionPeriod.Some? then m.emissionPeriod.value else 60) * 1_000_000_000);
            var emits := m.emissionRate.Some? && (last == None || now - last.value >= period || period == 0);
            && OfKind(PaymentsOf(ts[k].records), Emission)
               == (if emits then multiset(ToEach(Emission, m.initialDistribution, m.emissionRate)) else multiset{})
            && ModelAfter(m, ts[..k + 1]).lastEmissionTime == if emits then Some(now) else last
  {
    var m1 := ModelAfter(m, ts[..k]);
    TicksOfRun(m, ts, k);
    ScheduleAdvances(m, ts[..k]);
    TickKinds(m1, ts[k]);
    if EmissionDue(m1, ts[k].now) {
      PaysEach(Emission, m.initialDistribution, m.emissionRate, ts[k].plan.emission);
    }
    ModelAfterOne(m, ts, k);
  }

  lemma ModelAfterOne(m: Model, ts: seq<Tick>, k: nat)
    requires k < |ts|
    ensures ModelAfter(m, ts[..k + 1]) == TickModel(ModelAfter(m, ts[..k]), ts[k].now)
  {
    assert ts[..k + 1][..k] == ts[..k];
  }

  /** The first tick of a fresh model pays its table, if that is not empty; no other tick pays it. */
  lemma InitialAtTick(m: Model, ts: seq<Tick>, k: nat)
    requires IsRun(m, ts) && k < |ts|
    ensures var pays := k == 0 && m.initialExecutedAt == None && m.initialDistribution != map[];
            OfKind(PaymentsOf(ts[k].records), Initial)
            == if pays then multiset(ToEach(Initial, m.initialDistribution, None)) else multiset{}
    ensures ModelAfter(m, ts[..k + 1]).initialExecutedAt
         == if m.initialExecutedAt == None && m.initialDistribution != map[] then Some(ts[0].now) else m.initialExecutedAt
  {
    var m1 := ModelAfter(m, ts[..k]);
    TicksOfRun(m, ts, k);
    ScheduleAdvances(m, ts[..k]);
    InitialTime(m, ts, k);
    InitialTime(m, ts, k + 1);
    TickKinds(m1, ts[k]);
    if InitialDue(m1) {
      PaysEach(Initial, m.initialDistribution, None, ts[k].plan.initial);
    }
  }

  lemma {:induction false} InitialTime(m: Model, ts: seq<Tick>, k: nat)
    requires k <= |ts|
    ensures ModelAfter(m, ts[..k]).initialExecutedAt
         == if k > 0 && m.initialExecutedAt == None && m.initialDistribution != map[] then Some(ts[0].now)
            else m.initialExecutedAt
    decreases k
  {
    if k > 0 {
      InitialTime(m, ts, k - 1);
      ScheduleAdvances(m, ts[..k - 1]);
      ModelAfterOne(m, ts, k - 1);
    } else {
      assert ts[..0] == [];
    }
  }

  /** With a clock that does not run backwards only the last tick matters. */
  lemma ItemExecutedByLastTick(m: Model, ts: seq<Tick>, i: nat)
    requires i < |m.unlockSchedule| && ts != [] && ClockOk(ts)
    ensures i < |ModelAfter(m, ts).unlockSchedule|
    ensures ModelAfter(m, ts).unlockSchedule[i].executed <==>
            m.unlockSchedule[i].executed || Nanos(m.unlockSchedule[i].timestamp) <= ts[|ts| - 1].now
  {
    ItemExecuted(m, ts, i);
    var due := Nanos(m.unlockSchedule[i].timestamp);
    assert Reached(ts, due, |ts| - 1) <==> due <= ts[|ts| - 1].now;
  }

  /** An item is paid in exactly one tick if it becomes executed, and in none otherwise. */
  lemma ItemPaidOnce(m: Model, ts: seq<Tick>, i: nat)
    requires i < |m.unlockSchedule|
    ensures i < |ModelAfter(m, ts).unlockSchedule|
    ensures (exists k: nat :: PaidAt(m, ts, i, k)) <==>
            ModelAfter(m, ts).unlockSchedule[i].executed && !m.unlockSchedule[i].executed
    ensures forall j: nat, k: nat :: PaidAt(m, ts, i, j) && PaidAt(m, ts, i, k) ==> j == k
  {
    ItemExecuted(m, ts, i);
    forall j: nat, k: nat | PaidAt(m, ts, i, j) && PaidAt(m, ts, i, k)
      ensures j == k
    {
      PaidThenExecuted(m, ts, i, j, k);
      PaidThenExecuted(m, ts, i, k, j);
    }
    if ModelAfter(m, ts).unlockSchedule[i].executed && !m.unlockSchedule[i].executed {
      var k := PayingTick(m, ts, i);
    }
    forall k: nat | PaidAt(m, ts, i, k)
      ensures ModelAfter(m, ts).unlockSchedule[i].executed && !m.unlockSchedule[i].executed
    {
      ItemExecuted(m, ts[..k], i);
      assert Reached(ts, Nanos(m.unlockSchedule[i].timestamp), k);
    }
  }

  /** Once paid, an item is not paid in a later tick. */
  lemma PaidThenExecuted(m: Model, ts: seq<Tick>, i: nat, j: nat, k: nat)
    requires i < |m.unlockSchedule| && PaidAt(m, ts, i, j) && PaidAt(m, ts, i, k)
    ensures j >= k
  {
    ItemExecuted(m, ts[..j], i);
    ItemExecuted(m, ts[..k], i);
    var due := Nanos(m.unlockSchedule[i].timestamp);
    assert j < k ==> Reached(ts[..k], due, j);
  }

  lemma {:induction false} PayingTick(m: Model, ts: seq<Tick>, i: nat) returns (k: nat)
    requires i < |m.unlockSchedule| && i < |ModelAfter(m, ts).unlockSchedule|
    requires ModelAfter(m, ts).unlockSchedule[i].executed && !m.unlockSchedule[i].executed
    ensures PaidAt(m, ts, i, k)
    decreases |ts|
  {
    var init := ts[..|ts| - 1];
    ItemExecuted(m, init, i);
    if ModelAfter(m, init).unlockSchedule[i].executed {
      k := PayingTick(m, init, i);
      assert init[..k] == ts[..k];
    } else {
      k := |ts| - 1;
    }
  }

  /**
   An item is never paid before its time exactly when its time in nanoseconds fits
   in u64; otherwise the wrapped time makes it due early.
   */
  lemma NeverEarlyIff(item: UnlockItem)
    requires !item.executed
    ensures (forall now: nat | now < TWO64 :: ItemDue(item, now) ==> item.timestamp * NANOS_PER_SECOND <= now)
            <==> item.timestamp * NANOS_PER_SECOND < TWO64
  {
    var wrapped := Nanos(item.timestamp);
    assert ItemDue(item, wrapped);
  }

  // ---- the emissions ----

  ghost predicate Spaced(e: seq<nat>, p: nat) {
    forall i :: 0 <= i < |e| - 1 ==> e[i] + p <= e[i + 1]
  }

  /** Emissions are a period apart, also from the last one before the run. */
  lemma {:induction false} EmissionGaps(m: Model, ts: seq<Tick>)
    requires ClockOk(ts)
    ensures var e := EmissionTimes(m, ts);
            && ModelAfter(m, ts).lastEmissionTime == (if e == [] then m.lastEmissionTime else Some(e[|e| - 1]))
            && (e != [] ==> ts != [] && e[|e| - 1] <= ts[|ts| - 1].now)
            && (e != [] && m.lastEmissionTime.Some? ==> Max(0, e[0] - m.lastEmissionTime.value) >= PeriodNanos(m))
            && Spaced(e, PeriodNanos(m))
    decreases |ts|
  {
    if ts != [] {
      var init, now := ts[..|ts| - 1], ts[|ts| - 1].now;
      EmissionGaps(m, init);
      ScheduleAdvances(m, init);
      var e := EmissionTimes(m, init);
      if EmissionDue(ModelAfter(m, init), now) && e != [] {
        assert e[|e| - 1] <= init[|init| - 1].now <= now;
      }
    }
  }

  /** Ticks come at most `g` apart. */
  ghost predicate TicksWithin(ts: seq<Tick>, g: nat) {
    forall i :: 0 <= i < |ts| - 1 ==> ts[i + 1].now <= ts[i].now + g
  }

  ghost predicate SpacedAtMost(e: seq<nat>, gap: nat) {
    forall i :: 0 <= i < |e| - 1 ==> e[i + 1] <= e[i] + gap
  }

  /**
   Emissions keep up: with a rate set the first tick emits, successive emissions are at
   most a period and a tick apart, and after every tick none is overdue.
   */
  lemma {:induction false} EmissionsKeepUp(m: Model, ts: seq<Tick>, g: nat)
    requires m.emissionRate.Some? && m.lastEmissionTime == None && ClockOk(ts) && TicksWithin(ts, g) && ts != []
    ensures var e, period := EmissionTimes(m, ts), PeriodNanos(m);
            && e != [] && e[0] == ts[0].now && SpacedAtMost(e, period + g)
            && (ts[|ts| - 1].now == e[|e| - 1] || ts[|ts| - 1].now < e[|e| - 1] + period)
    decreases |ts|
  {
    var init, now := ts[..|ts| - 1], ts[|ts| - 1].now;
    if init != [] {
      EmissionsKeepUp(m, init, g);
      EmissionGaps(m, init);
      ScheduleAdvances(m, init);
      var prev := init[|init| - 1].now;
      assert prev == ts[|ts| - 2].now <= now <= prev + g;
      OneTickOn(EmissionTimes(m, init), prev, now, PeriodNanos(m), g);
    }
  }

  lemma OneTickOn(e: seq<nat>, prev: nat, now: nat, period: nat, g: nat)
    requires e != [] && SpacedAtMost(e, period + g) && e[|e| - 1] <= prev <= now <= prev + g
    requires prev == e[|e| - 1] || prev < e[|e| - 1] + period
    ensures SpacedAtMost(e + [now], period + g)
  {
  }

  lemma {:induction false} GapsAddUp(e: seq<nat>, p: nat)
    requires e != [] && Spaced(e, p)
    ensures e[0] + (|e| - 1) * p <= e[|e| - 1]
    decreases |e|
  {
    if |e| > 1 {
      GapsAddUp(e[..|e| - 1], p);
      OneMore(|e| - 2, p);
    }
  }

  /** E emissions take at least E - 1 periods. */
  lemma EmissionRateIsLimited(m: Model, ts: seq<Tick>)
    requires ClockOk(ts) && EmissionTimes(m, ts) != []
    ensures var e := EmissionTimes(m, ts);
            e[0] + (|e| - 1) * PeriodNanos(m) <= e[|e| - 1]
  {
    EmissionGaps(m, ts);
    GapsAddUp(EmissionTimes(m, ts), PeriodNanos(m));
  }

  /** The period in nanoseconds is the configured one exactly when that fits in u64. */
  lemma PeriodRightIff(m: Model)
    ensures var seconds := if m.emissionPeriod.Some? then m.emissionPeriod.value else DEFAULT_PERIOD;
            PeriodNanos(m) == seconds * NANOS_PER_SECOND <==> seconds * NANOS_PER_SECOND < TWO64
  {
  }
}
