/**
 The token distribution schedule of the backend canister: what one timer tick
 pays and how it moves the model on.
 */
module Distribution {
  import opened Prelude

  datatype DistributionType = Initial | Scheduled | Emission

  /** `timestamp` is in seconds. */
  datatype UnlockItem = UnlockItem(addr: string, timestamp: nat, amount: nat, executed: bool)

  datatype Model = Model(
    initialDistribution: map<string, nat>,
    emissionPeriod: Option<nat>,
    emissionRate: Option<nat>,
    unlockSchedule: seq<UnlockItem>,
    initialExecutedAt: Option<nat>,
    lastEmissionTime: Option<nat>)

  datatype Payment = Payment(kind: DistributionType, recipient: string, amount: nat)

  datatype Record = Record(payment: Payment, timestamp: nat, success: bool)

  const DEFAULT_PERIOD: nat := 60

  /** Seconds to nanoseconds, in wrapping u64. */
  function Nanos(seconds: nat): nat {
    WrapU64(seconds * NANOS_PER_SECOND)
  }

  function PeriodNanos(m: Model): nat {
    Nanos(if m.emissionPeriod.Some? then m.emissionPeriod.value else DEFAULT_PERIOD)
  }

  predicate InitialDue(m: Model) {
    m.initialExecutedAt == None && m.initialDistribution != map[]
  }

  predicate EmissionDue(m: Model, now: nat) {
    m.emissionRate.Some?
    && (m.lastEmissionTime == None || Max(0, now - m.lastEmissionTime.value) >= PeriodNanos(m))
  }

  predicate ItemDue(item: UnlockItem, now: nat) {
    !item.executed && Nanos(item.timestamp) <= now
  }

  /** The schedule after a tick: what is due is marked executed. */
  function Unlocked(items: seq<UnlockItem>, now: nat): seq<UnlockItem> {
    seq(|items|, i requires 0 <= i < |items| =>
      if ItemDue(items[i], now) then items[i].(executed := true) else items[i])
  }

  function TickModel(m: Model, now: nat): Model {
    m.(initialExecutedAt := if InitialDue(m) then Some(now) else m.initialExecutedAt,
       lastEmissionTime := if EmissionDue(m, now) then Some(now) else m.lastEmissionTime,
       unlockSchedule := Unlocked(m.unlockSchedule, now))
  }

  /** One payment to each address of a table, in whatever order the table is iterated. */
  ghost predicate PaysAll(kind: DistributionType, table: map<string, nat>, amount: Option<nat>, ps: seq<Payment>) {
    && |ps| == |table|
    && (forall i, j :: 0 <= i < j < |ps| ==> ps[i].recipient != ps[j].recipient)
    && (forall i :: 0 <= i < |ps| ==>
          && ps[i].recipient in table
          && ps[i] == Payment(kind, ps[i].recipient, if amount.Some? then amount.value else table[ps[i].recipient]))
  }

  /** The payments of the due schedule items, in schedule order. */
  function UnlockPayments(items: seq<UnlockItem>, now: nat): seq<Payment> {
    if items == [] then []
    else
      var init, item := UnlockPayments(items[..|items| - 1], now), items[|items| - 1];
      if ItemDue(item, now) then init + [Payment(Scheduled, item.addr, item.amount)] else init
  }

  /** What a tick pays, stage by stage. */
  datatype Plan = Plan(initial: seq<Payment>, emission: seq<Payment>, unlocks: seq<Payment>) {
    function All(): seq<Payment> {
      initial + emission + unlocks
    }
  }

  ghost predicate IsPlan(m: Model, now: nat, plan: Plan) {
    && (if InitialDue(m) then PaysAll(Initial, m.initialDistribution, None, plan.initial) else plan.initial == [])
    && (if EmissionDue(m, now)
        then PaysAll(Emission, m.initialDistribution, m.emissionRate, plan.emission) else plan.emission == [])
    && plan.unlocks == UnlockPayments(m.unlockSchedule, now)
  }

  /** Each payment of a tick, with the tick's time and its own result. */
  ghost predicate Records(rs: seq<Record>, ps: seq<Payment>, now: nat) {
    |rs| == |ps| && forall i :: 0 <= i < |ps| ==> rs[i].payment == ps[i] && rs[i].timestamp == now
  }

  lemma RecordsConcat(rs: seq<Record>, ps: seq<Payment>, qs: seq<Record>, os: seq<Payment>, now: nat)
    requires Records(rs, ps, now) && Records(qs, os, now)
    ensures Records(rs + qs, ps + os, now)
  {
  }

  // ---- steps of the loops ----

  /** The addresses not in `todo` have been paid, once each. */
  ghost predicate PaysPart(kind: DistributionType, table: map<string, nat>, amount: Option<nat>,
                           ps: seq<Payment>, todo: set<string>) {
    && todo <= table.Keys && |ps| + |todo| == |table|
    && (forall i, j :: 0 <= i < j < |ps| ==> ps[i].recipient != ps[j].recipient)
    && (forall i :: 0 <= i < |ps| ==>
          && ps[i].recipient in table && ps[i].recipient !in todo
          && ps[i] == Payment(kind, ps[i].recipient, if amount.Some? then amount.value else table[ps[i].recipient]))
  }

  lemma PaysOneMore(kind: DistributionType, table: map<string, nat>, amount: Option<nat>,
                    ps: seq<Payment>, todo: set<string>, addr: string)
    requires PaysPart(kind, table, amount, ps, todo) && addr in todo
    ensures PaysPart(kind, table, amount,
                     ps + [Payment(kind, addr, if amount.Some? then amount.value else table[addr])], todo - {addr})
  {
  }

  /** The first `i` items have been handled. */
  ghost predicate UnlockedPart(items: seq<UnlockItem>, now: nat, i: nat, items': seq<UnlockItem>, ps: seq<Payment>) {
    && i <= |items| == |items'|
    && items' == Unlocked(items[..i], now) + items[i..]
    && ps == UnlockPayments(items[..i], now)
  }

  lemma UnlocksOneMore(items: seq<UnlockItem>, now: nat, i: nat, items': seq<UnlockItem>, ps: seq<Payment>)
    requires UnlockedPart(items, now, i, items', ps) && i < |items|
    ensures items'[i] == items[i]
    ensures if ItemDue(items[i], now)
            then UnlockedPart(items, now, i + 1, items'[i := items[i].(executed := true)],
                              ps + [Payment(Scheduled, items[i].addr, items[i].amount)])
            else UnlockedPart(items, now, i + 1, items', ps)
  {
    assert items[..i + 1][..i] == items[..i];
    assert Unlocked(items[..i + 1], now)
        == Unlocked(items[..i], now) + [if ItemDue(items[i], now) then items[i].(executed := true) else items[i]];
  }

  // ---- the history as a list ----

  /** Ids 1 to `next - 1` are taken, no others. */
  ghost predicate Dense(next: nat, records: map<nat, Record>) {
    next >= 1 && forall id :: id in records <==> 1 <= id < next
  }

  ghost function HistoryOf(next: nat, records: map<nat, Record>): seq<Record>
    requires Dense(next, records)
  {
    seq(next - 1, i requires 0 <= i < next - 1 => records[i + 1])
  }

  /** The list has one entry for each stored record. */
  lemma {:induction false} HistoryIsWhole(next: nat, records: map<nat, Record>)
    requires Dense(next, records)
    ensures |HistoryOf(next, records)| == |records|
    decreases next
  {
    if next > 1 {
      HistoryIsWhole(next - 1, records - {next - 1});
    } else {
      assert records == map[];
    }
  }

  lemma HistoryGrows(next: nat, records: map<nat, Record>, r: Record)
    requires Dense(next, records)
    ensures Dense(next + 1, records[next := r])
    ensures HistoryOf(next + 1, records[next := r]) == HistoryOf(next, records) + [r]
  {
  }
}
