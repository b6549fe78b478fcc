/** Subscription time accounting (payment.rs of ic_govmind_types). Times are u64 nanoseconds. */
module Subscription {
  import opened Prelude

  datatype SubscriptionType = Free | Day30 | Day90 | Day180 | Day360 | Day1000 | Permanent {

    function Value(): nat {
      match this
      case Free => 0
      case Day30 => 1
      case Day90 => 2
      case Day180 => 3
      case Day360 => 4
      case Day1000 => 5
      case Permanent => 6
    }

    /** How much time the type buys. */
    function ExpireTime(): nat {
      var day := 86400 * NANOS_PER_SECOND;
      match this
      case Free => 0
      case Day30 => 30 * day
      case Day90 => 90 * day
      case Day180 => 180 * day
      case Day360 => 360 * day
      case Day1000 => 1000 * day
      case Permanent => 500 * 360 * day
    }
  }

  /** The durations, in nanoseconds. */
  lemma Durations()
    ensures Free.ExpireTime() == 0
    ensures Day30.ExpireTime() == 2_592_000_000_000_000
    ensures Day90.ExpireTime() == 7_776_000_000_000_000
    ensures Day180.ExpireTime() == 15_552_000_000_000_000
    ensures Day360.ExpireTime() == 31_104_000_000_000_000
    ensures Day1000.ExpireTime() == 86_400_000_000_000_000
    ensures Permanent.ExpireTime() == 15_552_000_000_000_000_000
  {
  }

  /** A greater tier is one that lasts longer, so the better of two types is the longer one. */
  lemma TierIsDuration(a: SubscriptionType, b: SubscriptionType)
    ensures a.Value() < b.Value() <==> a.ExpireTime() < b.ExpireTime()
    ensures a.Value() == b.Value() <==> a == b
    ensures NextSubscriptionType(a, b) == if a.ExpireTime() < b.ExpireTime() then b else a
  {
  }

  function NextSubscriptionType(a: SubscriptionType, b: SubscriptionType): SubscriptionType {
    if a.Value() < b.Value() then b else a
  }

  /** The two fields an update changes. */
  datatype Term = Term(subType: SubscriptionType, expireTime: nat)

  /** What `Subscriber::new` sets at time `now`. */
  function Purchased(t: SubscriptionType, now: nat): Term {
    Term(t, WrapU64(now + t.ExpireTime()))
  }

  /** The three branches of `update_subscription`. */
  function Updated(old_: Term, bought: Term, now: nat): Term {
    if old_.subType == Free then
      Term(NextSubscriptionType(old_.subType, bought.subType), bought.expireTime)
    else if old_.expireTime < now then
      bought
    else
      Term(NextSubscriptionType(old_.subType, bought.subType),
           WrapU64(old_.expireTime + WrapU64(bought.expireTime - now)))
  }

  class Subscriber {
    var pid: string
    var created: nat
    var subType: SubscriptionType
    var expireTime: nat

    function Terms(): Term
      reads this
    {
      Term(subType, expireTime)
    }

    constructor (user: string, price: SubscriptionType, now: nat)
      ensures pid == user && created == now && Terms() == Purchased(price, now)
    {
      pid := user;
      created := now;
      subType := price;
      expireTime := WrapU64(now + price.ExpireTime());
    }

    method UpdateSubscription(newSubscriber: Subscriber, now: nat)
      requires newSubscriber != this
      modifies this
      ensures Terms() == Updated(old(Terms()), newSubscriber.Terms(), now)
      ensures pid == old(pid) && created == old(created)
    {
      if subType == Free {
        subType := NextSubscriptionType(subType, newSubscriber.subType);
        expireTime := newSubscriber.expireTime;
      } else if expireTime < now {
        subType := newSubscriber.subType;
        expireTime := newSubscriber.expireTime;
      } else {
        subType := NextSubscriptionType(subType, newSubscriber.subType);
        expireTime := WrapU64(expireTime + WrapU64(newSubscriber.expireTime - now));
      }
    }
  }

  /** A stored term at time `now`: fits in u64, and a Free one does not outlast the present. */
  ghost predicate Consistent(s: Term, now: nat) {
    s.expireTime < TWO64 && (s.subType == Free ==> s.expireTime <= now)
  }

  /** The one formula behind the branches: bought time starts now or when the old time ends. */
  function Extended(expire: nat, t: SubscriptionType, now: nat): nat {
    Max(expire, now) + t.ExpireTime()
  }

  /** All three branches give the formula, exactly when it fits in u64. */
  lemma OneFormula(s: Term, t: SubscriptionType, now: nat)
    requires Consistent(s, now) && now < TWO64
    ensures var s' := Updated(s, Purchased(t, now), now);
            && s'.expireTime < TWO64
            && (s'.expireTime == Extended(s.expireTime, t, now) <==> Extended(s.expireTime, t, now) < TWO64)
            && (Extended(s.expireTime, t, now) < TWO64 ==> Consistent(s', now))
  {
    assert t == Free ==> t.ExpireTime() == 0;
  }

  /** Buying Permanent twice does not fit: the wrapped expiry lies before the first one. */
  lemma PermanentTwice()
    ensures var now := 1_750_000_000 * NANOS_PER_SECOND;
            var once := Purchased(Permanent, now);
            Updated(once, Purchased(Permanent, now), now).expireTime < once.expireTime
  {
  }

  datatype Purchase = Purchase(subType: SubscriptionType, at: nat)

  /** The term after a history of purchases, each built and applied at its own time. */
  function After(start: Term, h: seq<Purchase>): Term {
    if h == [] then start
    else
      var p := h[|h| - 1];
      Updated(After(start, h[..|h| - 1]), Purchased(p.subType, p.at), p.at)
  }

  /** The same history in unbounded time. */
  function Ideal(expire: nat, h: seq<Purchase>): nat {
    if h == [] then expire
    else Extended(Ideal(expire, h[..|h| - 1]), h[|h| - 1].subType, h[|h| - 1].at)
  }

  /** Purchase times do not run backwards and lie after `from`. */
  ghost predicate InOrder(h: seq<Purchase>, from: nat) {
    && (forall i :: 0 <= i < |h| ==> from <= h[i].at < TWO64)
    && (forall i, j :: 0 <= i < j < |h| ==> h[i].at <= h[j].at)
  }

  function LastTime(h: seq<Purchase>, from: nat): nat {
    if h == [] then from else h[|h| - 1].at
  }

  /**
   Over any history the stored expiry is the ideal one exactly as long as that
   fits in u64; then a Free subscriber's expiry is never past the last purchase.
   */
  lemma {:induction false} HistoryExpiry(start: Term, h: seq<Purchase>, from: nat)
    requires Consistent(start, from) && InOrder(h, from)
    ensures After(start, h).expireTime == Ideal(start.expireTime, h) <==> Ideal(start.expireTime, h) < TWO64
    ensures Ideal(start.expireTime, h) < TWO64 ==> Consistent(After(start, h), LastTime(h, from))
    decreases |h|
  {
    if h != [] {
      var init, p := h[..|h| - 1], h[|h| - 1];
      HistoryExpiry(start, init, from);
      if Ideal(start.expireTime, init) < TWO64 {
        OneFormula(After(start, init), p.subType, p.at);
      }
    }
  }

  /** Total time bought. */
  function TimeBought(h: seq<Purchase>): nat {
    if h == [] then 0 else TimeBought(h[..|h| - 1]) + h[|h| - 1].subType.ExpireTime()
  }

  /** Expiry if the clock had last been behind at purchase `i`. */
  function RunFrom(h: seq<Purchase>, i: nat): nat
    requires i < |h|
  {
    h[i].at + TimeBought(h[i..])
  }

  /**
   The expiry in closed form: the greatest of the start's expiry plus all time
   bought, and of each purchase time plus all time bought from it on.
   */
  lemma {:induction false} IdealIsMaximum(expire: nat, h: seq<Purchase>)
    ensures expire + TimeBought(h) <= Ideal(expire, h)
    ensures forall i :: 0 <= i < |h| ==> RunFrom(h, i) <= Ideal(expire, h)
    ensures Ideal(expire, h) == expire + TimeBought(h)
         || exists i :: 0 <= i < |h| && Ideal(expire, h) == RunFrom(h, i)
    decreases |h|
  {
    if h != [] {
      var n := |h| - 1;
      var init, p := h[..n], h[n];
      IdealIsMaximum(expire, init);
      forall i | 0 <= i < n
        ensures RunFrom(h, i) == RunFrom(init, i) + p.subType.ExpireTime()
      {
        assert h[i..][..|h[i..]| - 1] == init[i..];
      }
      assert h[n..] == [p] && [p][..0] == [];
      assert RunFrom(h, n) == p.at + p.subType.ExpireTime();
      if Ideal(expire, init) >= p.at && Ideal(expire, init) != expire + TimeBought(init) {
        var i :| 0 <= i < n && Ideal(expire, init) == RunFrom(init, i);
        assert Ideal(expire, h) == RunFrom(h, i);
      }
    }
  }

  /** Expiry never decreases as purchases are added. */
  lemma {:induction false} ExpiryNeverDecreases(start: Term, h: seq<Purchase>, from: nat, k: nat)
    requires Consistent(start, from) && InOrder(h, from) && k <= |h|
    requires Ideal(start.expireTime, h) < TWO64
    ensures After(start, h[..k]).expireTime <= After(start, h).expireTime
    decreases |h|
  {
    HistoryExpiry(start, h, from);
    if k == |h| {
      assert h[..k] == h;
    } else {
      var init := h[..|h| - 1];
      assert init[..k] == h[..k];
      ExpiryNeverDecreases(start, init, from, k);
      HistoryExpiry(start, init, from);
    }
  }

  /** The last purchase that found the subscription run out, or -1. */
  function LastLapse(start: Term, h: seq<Purchase>): (i: int)
    ensures -1 <= i < |h|
  {
    if h == [] then -1
    else if After(start, h[..|h| - 1]).expireTime < h[|h| - 1].at then |h| - 1
    else LastLapse(start, h[..|h| - 1])
  }

  /** The greatest tier value among `floor` and the purchases from `i` on. */
  function BestSince(h: seq<Purchase>, i: nat, floor: nat): nat
    requires i <= |h|
    decreases |h| - i
  {
    if i == |h| then floor
    else Max(h[i].subType.Value(), BestSince(h, i + 1, floor))
  }

  lemma {:induction false} BestOfLast(h: seq<Purchase>, i: nat, floor: nat)
    requires i < |h|
    ensures BestSince(h, i, floor) == Max(BestSince(h[..|h| - 1], i, floor), h[|h| - 1].subType.Value())
    decreases |h| - i
  {
    if i < |h| - 1 {
      BestOfLast(h, i + 1, floor);
    } else {
      assert BestSince(h, i + 1, floor) == floor;
    }
  }

  /** The tier is the best one bought since the subscription last ran out. */
  lemma {:induction false} TierIsBestSinceLapse(start: Term, h: seq<Purchase>, from: nat)
    requires Consistent(start, from) && InOrder(h, from)
    requires Ideal(start.expireTime, h) < TWO64
    ensures var i := LastLapse(start, h);
            After(start, h).subType.Value() ==
            if i == -1 then BestSince(h, 0, start.subType.Value()) else BestSince(h, i, 0)
    decreases |h|
  {
    if h != [] {
      var init, p := h[..|h| - 1], h[|h| - 1];
      HistoryExpiry(start, init, from);
      TierIsBestSinceLapse(start, init, from);
      var i := LastLapse(start, h);
      if i == -1 {
        BestOfLast(h, 0, start.subType.Value());
      } else {
        BestOfLast(h, i, 0);
      }
    }
  }
}
