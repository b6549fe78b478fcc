/**
 The token ledgers as one log of what happened to their accounts: deposits,
 balances read by the hub, and transfers out of the hub's order subaccounts.
 */
module Ledger {
  import opened PaymentOrders

  datatype Purpose = Sharing | Refunding

  datatype Entry =
    | Credit(to: Account, amount: nat)
    | Read(of: Account)
    | Out(purpose: Purpose, from: Account, to: Account, amount: nat, fee: nat)

  type Log = seq<Entry>

  function Incoming(e: Entry, a: Account): nat {
    if (e.Credit? || e.Out?) && e.to == a then e.amount else 0
  }

  function Outgoing(e: Entry, a: Account): nat {
    if e.Out? && e.from == a then e.amount + e.fee else 0
  }

  function Balance(log: Log, a: Account): int {
    if log == [] then 0
    else Balance(log[..|log| - 1], a) + Incoming(log[|log| - 1], a) - Outgoing(log[|log| - 1], a)
  }

  /** What has come in since the hub last read the balance. */
  function IncomingSinceRead(log: Log, a: Account): nat {
    if log == [] || log[|log| - 1] == Read(a) then 0
    else IncomingSinceRead(log[..|log| - 1], a) + Incoming(log[|log| - 1], a)
  }

  /** The number of transfers out of an account. */
  function TransfersOut(log: Log, a: Account): nat {
    if log == [] then 0
    else TransfersOut(log[..|log| - 1], a) + if log[|log| - 1].Out? && log[|log| - 1].from == a then 1 else 0
  }

  lemma Appended(log: Log, e: Entry, a: Account)
    ensures Balance(log + [e], a) == Balance(log, a) + Incoming(e, a) - Outgoing(e, a)
    ensures IncomingSinceRead(log + [e], a)
         == if e == Read(a) then 0 else IncomingSinceRead(log, a) + Incoming(e, a)
    ensures TransfersOut(log + [e], a) == TransfersOut(log, a) + if e.Out? && e.from == a then 1 else 0
  {
    assert (log + [e])[..|log + [e]| - 1] == log;
  }
}
