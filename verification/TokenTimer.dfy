/** The timer's shared model and the distribution history, updated in place. */
module TokenTimer {
  import opened Prelude
  import opened Distribution

  const DISTRIBUTION_KEY := "distribution"

  class Timer {
    var initialDistribution: map<string, nat>
    var emissionPeriod: Option<nat>
    var emissionRate: Option<nat>
    var unlockSchedule: seq<UnlockItem>
    var initialExecutedAt: Option<nat>
    var lastEmissionTime: Option<nat>

    /** `State.next_ids` and `DISTRIBUTION_HISTORY`. */
    var nextIds: map<string, nat>
    var records: map<nat, Record>

    function TheModel(): Model
      reads this
    {
      Model(initialDistribution, emissionPeriod, emissionRate, unlockSchedule, initialExecutedAt, lastEmissionTime)
    }

    function NextId(): nat
      reads this
    {
      if DISTRIBUTION_KEY in nextIds then nextIds[DISTRIBUTION_KEY] else 1
    }

    /** Record ids are 1, 2, 3, ... without gaps. */
    ghost predicate Valid()
      reads this
    {
      Dense(NextId(), records)
    }

    /** The history by ascending id. */
    ghost function History(): seq<Record>
      requires Valid()
      reads this
    {
      HistoryOf(NextId(), records)
    }

    /** A timer is set up with its own copy of the model, beside the history that is there. */
    constructor (m: Model, ids: map<string, nat>, history: map<nat, Record>)
      requires Dense(if DISTRIBUTION_KEY in ids then ids[DISTRIBUTION_KEY] else 1, history)
      ensures Valid() && TheModel() == m && nextIds == ids && records == history
      ensures |History()| == |history|
    {
      initialDistribution := m.initialDistribution;
      emissionPeriod := m.emissionPeriod;
      emissionRate := m.emissionRate;
      unlockSchedule := m.unlockSchedule;
      initialExecutedAt := m.initialExecutedAt;
      lastEmissionTime := m.lastEmissionTime;
      nextIds, records := ids, history;
      new;
      HistoryIsWhole(NextId(), records);
    }

    method GetNextId(key: string) returns (id: nat)
      modifies this`nextIds
      ensures id == if key in old(nextIds) then old(nextIds)[key] else 1
      ensures nextIds == old(nextIds)[key := id + 1]
    {
      if key !in nextIds {
        nextIds := nextIds[key := 1];
      }
      id := nextIds[key];
      nextIds := nextIds[key := nextIds[key] + 1];
    }

    method AddDistributionRecord(record: Record) returns (id: nat)
      requires Valid()
      modifies this`nextIds, this`records
      ensures Valid() && History() == old(History()) + [record]
      ensures id !in old(records) && records == old(records)[id := record]
    {
      HistoryGrows(NextId(), records, record);
      id := GetNextId(DISTRIBUTION_KEY);
      records := records[id := record];
    }

    /** One transfer, whose result is the token ledger's, and its record. */
    method DistributeOne(payment: Payment, now: nat) returns (record: Record)
      requires Valid()
      modifies this`nextIds, this`records
      ensures Valid() && History() == old(History()) + [record]
      ensures record.payment == payment && record.timestamp == now
    {
      var success := *;
      record := Record(payment, now, success);
      var _ := AddDistributionRecord(record);
    }

    /** A transfer to every address of a table. */
    method DistributeToAll(table: map<string, nat>, amount: Option<nat>, kind: DistributionType, now: nat)
      returns (ps: seq<Payment>, rs: seq<Record>)
      requires Valid()
      modifies this`nextIds, this`records
      ensures Valid() && History() == old(History()) + rs
      ensures PaysAll(kind, table, amount, ps) && Records(rs, ps, now)
    {
      ps, rs := [], [];
      var todo := table.Keys;
      ghost var before := History();
      while todo != {}
        invariant Valid() && History() == before + rs
        invariant PaysPart(kind, table, amount, ps, todo) && Records(rs, ps, now)
      {
        var addr :| addr in todo;
        PaysOneMore(kind, table, amount, ps, todo, addr);
        todo := todo - {addr};
        var sendAmount := if amount.Some? then amount.value else table[addr];
        var payment := Payment(kind, addr, sendAmount);
        var record := DistributeOne(payment, now);
        RecordsConcat(rs, ps, [record], [payment], now);
        assert (before + rs) + [record] == before + (rs + [record]);
        ps := ps + [payment];
        rs := rs + [record];
      }
    }

    /** A due schedule item is a table with one entry. */
    method PayItem(item: UnlockItem, now: nat) returns (rs: seq<Record>)
      requires Valid()
      modifies this`nextIds, this`records
      ensures Valid() && History() == old(History()) + rs
      ensures Records(rs, [Payment(Scheduled, item.addr, item.amount)], now)
    {
      var ps;
      ps, rs := DistributeToAll(map[item.addr := item.amount], Some(item.amount), Scheduled, now);
      assert ps == [Payment(Scheduled, item.addr, item.amount)];
    }

    /** The unlock schedule: every due item is paid, then marked executed. */
    method RunSchedule(now: nat) returns (ps: seq<Payment>, rs: seq<Record>)
      requires Valid()
      modifies this`nextIds, this`records, this`unlockSchedule
      ensures Valid() && History() == old(History()) + rs
      ensures ps == UnlockPayments(old(unlockSchedule), now) && Records(rs, ps, now)
      ensures unlockSchedule == Unlocked(old(unlockSchedule), now)
    {
      ps, rs := [], [];
      ghost var items := unlockSchedule;
      ghost var before := History();
      for i := 0 to |unlockSchedule|
        invariant Valid() && History() == before + rs
        invariant UnlockedPart(items, now, i, unlockSchedule, ps) && Records(rs, ps, now)
      {
        UnlocksOneMore(items, now, i, unlockSchedule, ps);
        var item := unlockSchedule[i];
        var scheduledTimeNs := Nanos(item.timestamp);
        if !item.executed && scheduledTimeNs <= now {
          var ss := PayItem(item, now);
          RecordsConcat(rs, ps, ss, [Payment(Scheduled, item.addr, item.amount)], now);
          assert (before + rs) + ss == before + (rs + ss);
          ps := ps + [Payment(Scheduled, item.addr, item.amount)];
          rs := rs + ss;
          unlockSchedule := unlockSchedule[i := item.(executed := true)];
        }
      }
      assert items[..|items|] == items;
    }

    method RunInitial(now: nat) returns (ps: seq<Payment>, rs: seq<Record>)
      requires Valid()
      modifies this`nextIds, this`records, this`initialExecutedAt
      ensures Valid() && History() == old(History()) + rs && Records(rs, ps, now)
      ensures if old(InitialDue(TheModel())) then PaysAll(Initial, initialDistribution, None, ps) else ps == []
      ensures initialExecutedAt == if old(InitialDue(TheModel())) then Some(now) else old(initialExecutedAt)
    {
      ps, rs := [], [];
      if initialExecutedAt == None && initialDistribution != map[] {
        ps, rs := DistributeToAll(initialDistribution, None, Initial, now);
        initialExecutedAt := Some(now);
      }
    }

    method RunEmission(now: nat) returns (ps: seq<Payment>, rs: seq<Record>)
      requires Valid()
      modifies this`nextIds, this`records, this`lastEmissionTime
      ensures Valid() && History() == old(History()) + rs && Records(rs, ps, now)
      ensures if old(EmissionDue(TheModel(), now))
              then PaysAll(Emission, initialDistribution, emissionRate, ps) else ps == []
      ensures lastEmissionTime == if old(EmissionDue(TheModel(), now)) then Some(now) else old(lastEmissionTime)
    {
      ps, rs := [], [];
      if emissionRate.Some? {
        var periodSec := if emissionPeriod.Some? then emissionPeriod.value else DEFAULT_PERIOD;
        var periodNs := Nanos(periodSec);
        var shouldEmit := true;
        if lastEmissionTime.Some? {
          shouldEmit := Max(0, now - lastEmissionTime.value) >= periodNs;
        }
        if shouldEmit {
          ps, rs := DistributeToAll(initialDistribution, emissionRate, Emission, now);
          lastEmissionTime := Some(now);
        }
      }
    }

    /** The initial payout and the emission. */
    method RunPayouts(now: nat) returns (ps: seq<Payment>, qs: seq<Payment>, rs: seq<Record>)
      requires Valid()
      modifies this`nextIds, this`records, this`initialExecutedAt, this`lastEmissionTime
      ensures Valid() && History() == old(History()) + rs && Records(rs, ps + qs, now)
      ensures if old(InitialDue(TheModel())) then PaysAll(Initial, initialDistribution, None, ps) else ps == []
      ensures if old(EmissionDue(TheModel(), now))
              then PaysAll(Emission, initialDistribution, emissionRate, qs) else qs == []
      ensures TheModel() == TickModel(old(TheModel()), now).(unlockSchedule := unlockSchedule)
    {
      ghost var m, h := TheModel(), History();
      var initialRecords, emissionRecords;
      ps, initialRecords := RunInitial(now);
      assert EmissionDue(TheModel(), now) == EmissionDue(m, now);
      qs, emissionRecords := RunEmission(now);
      rs := initialRecords + emissionRecords;
      RecordsConcat(initialRecords, ps, emissionRecords, qs, now);
      assert (h + initialRecords) + emissionRecords == h + rs;
    }

    /** One tick that found the model free. */
    method DistributeTokens(now: nat) returns (plan: Plan, rs: seq<Record>)
      requires Valid()
      modifies this
      ensures Valid() && History() == old(History()) + rs
      ensures IsPlan(old(TheModel()), now, plan) && Records(rs, plan.All(), now)
      ensures TheModel() == TickModel(old(TheModel()), now)
    {
      ghost var m, h := TheModel(), History();
      var ps, qs, payoutRecords := RunPayouts(now);
      ghost var m2 := TheModel();
      assert m2.unlockSchedule == m.unlockSchedule;
      var os, unlockRecords := RunSchedule(now);
      plan := Plan(ps, qs, os);
      rs := payoutRecords + unlockRecords;
      RecordsConcat(payoutRecords, ps + qs, unlockRecords, os, now);
      assert (h + payoutRecords) + unlockRecords == h + rs;
    }
  }
}
