/** `limit_orders`: one payer's orders, page by page. `usize` has 32 bits on the canister. */
module OrderPages {
  import opened Prelude
  import opened PaymentOrders
  import opened OrderedKeys
  import opened Paging

  datatype QuerySort = TimeAsc | TimeDesc

  datatype QueryOrder = QueryOrder(order: PaymentOrder, recipient: Account)

  /** A missing page is the first one; a size outside 1 to 100 is 10. */
  function CheckPageSize(page: nat, size: nat): (r: (nat, nat))
    ensures r.0 >= 1 && 1 <= r.1 <= 100
    ensures page >= 1 ==> r.0 == page
    ensures page == 0 ==> r.0 == 1
    ensures 1 <= size <= 100 ==> r.1 == size
    ensures size < 1 || size > 100 ==> r.1 == 10
  {
    (if page > 0 then page else 1, if 0 < size <= 100 then size else 10)
  }

  function Query(o: PaymentOrder): QueryOrder {
    QueryOrder(o, SubaccountOf(o))
  }

  function Reverse<T>(xs: seq<T>): seq<T> {
    seq(|xs|, i requires 0 <= i < |xs| => xs[|xs| - 1 - i])
  }

  /** The stored orders by ascending id. */
  function Ascending(store: map<nat, PaymentOrder>): seq<PaymentOrder> {
    NatLeIsTotal();
    Along(Listing(store.Keys, NatLe), store)
  }

  function InOrder(store: map<nat, PaymentOrder>, sort: QuerySort): seq<PaymentOrder> {
    if sort == TimeAsc then Ascending(store) else Reverse(Ascending(store))
  }

  /** The caller's orders, as they are answered. */
  function Mine(os: seq<PaymentOrder>, caller: Principal): seq<QueryOrder> {
    if os == [] then []
    else
      var init := Mine(os[..|os| - 1], caller);
      if os[|os| - 1].payer == caller then init + [Query(os[|os| - 1])] else init
  }

  /** Where the requested page starts and ends, in wrapping 32-bit arithmetic. */
  function Window(page: nat, size: nat): (nat, nat) {
    var (p, s) := CheckPageSize(page, size);
    var start := WrapU32((p - 1) * s);
    (start, WrapU32(start + s))
  }

  /** Total, has-more flag and data for a window on a list. */
  function Answer<T>(xs: seq<T>, window: (nat, nat)): (nat, bool, seq<T>) {
    var (start, end) := window;
    (|xs|, |xs| > end, if start <= |xs| && start <= end then xs[start..Min(end, |xs|)] else [])
  }

  lemma AnswerGrows<T>(xs: seq<T>, x: T, window: (nat, nat))
    ensures Answer(xs + [x], window).2
         == Answer(xs, window).2 + if window.0 <= |xs| < window.1 then [x] else []
  {
  }

  lemma MineGrows(os: seq<PaymentOrder>, o: PaymentOrder, caller: Principal)
    ensures Mine(os + [o], caller) == Mine(os, caller) + if o.payer == caller then [Query(o)] else []
  {
    assert (os + [o])[..|os + [o]| - 1] == os;
  }

  /** Each listed order is shown with its own subaccount as the account to pay to. */
  ghost predicate PaidToItself(q: QueryOrder) {
    q.recipient == Account(q.order.token, OrderSubaccount(q.order.payer, q.order.id))
  }

  lemma {:induction false} ShownRecipients(os: seq<PaymentOrder>, caller: Principal)
    ensures forall q :: q in Mine(os, caller) ==> PaidToItself(q) && q.order.payer == caller
    decreases |os|
  {
    if os != [] {
      ShownRecipients(os[..|os| - 1], caller);
    }
  }

  /** The loop over all orders: counts the caller's, and keeps those inside the window. */
  method CollectPage(orders: seq<PaymentOrder>, caller: Principal, start: nat, end: nat)
    returns (total: nat, data: seq<QueryOrder>)
    ensures total == |Mine(orders, caller)|
    ensures data == Answer(Mine(orders, caller), (start, end)).2
  {
    total, data := 0, [];
    for i := 0 to |orders|
      invariant total == |Mine(orders[..i], caller)|
      invariant data == Answer(Mine(orders[..i], caller), (start, end)).2
    {
      var order := orders[i];
      ghost var before := Mine(orders[..i], caller);
      assert orders[..i + 1] == orders[..i] + [order];
      MineGrows(orders[..i], order, caller);
      if order.payer != caller {
        assert before + [] == before;
        continue;
      }
      AnswerGrows(before, Query(order), (start, end));
      if total >= start && total < end {
        data := data + [Query(order)];
      }
      total := total + 1;
    }
    assert orders[..|orders|] == orders;
  }

  method LimitOrders(store: map<nat, PaymentOrder>, caller: Principal, page: nat, size: nat, sort: QuerySort)
    returns (total: nat, hasMore: bool, data: seq<QueryOrder>)
    ensures (total, hasMore, data) == Answer(Mine(InOrder(store, sort), caller), Window(page, size))
    ensures forall q :: q in data ==>
      q.order.payer == caller && q.recipient == Account(q.order.token, OrderSubaccount(caller, q.order.id))
  {
    ShownRecipients(InOrder(store, sort), caller);
    var (start, end) := Window(page, size);
    var orders := Ascending(store);
    if sort == TimeDesc {
      orders := Reverse(orders);
    }
    total, data := CollectPage(orders, caller, start, end);
    hasMore := false;
    if total > end {
      hasMore := true;
    }
  }

  /** What a page request is meant to answer. */
  function Intended<T>(xs: seq<T>, page: nat, size: nat): (nat, bool, seq<T>)
    requires page > 0
  {
    (|xs|, Page(xs, page * size, size) != [], Page(xs, (page - 1) * size, size))
  }

  /** A request whose page ends within 32 bits gets the page it asks for; `has_more` tells of a next one. */
  lemma PageAnswered<T>(xs: seq<T>, page: nat, size: nat)
    requires var (p, s) := CheckPageSize(page, size); p * s < TWO32
    ensures var (p, s) := CheckPageSize(page, size);
            Answer(xs, Window(page, size)) == Intended(xs, p, s)
  {
    var (p, s) := CheckPageSize(page, size);
    assert p * s == (p - 1) * s + s;
    WindowAnswers(xs, (p - 1) * s, s);
  }

  lemma WindowAnswers<T>(xs: seq<T>, start: nat, size: nat)
    requires size > 0
    ensures Answer(xs, (start, start + size)) == (|xs|, Page(xs, start + size, size) != [], Page(xs, start, size))
  {
    assert Answer(xs, (start, start + size)).2 == Page(xs, start, size);
    assert |Page(xs, start + size, size)| > 0 <==> |xs| > start + size;
  }

  /** Any other request gets a wrong answer from some list. */
  lemma PageWraps(page: nat, size: nat) returns (xs: seq<nat>)
    requires var (p, s) := CheckPageSize(page, size); p * s >= TWO32
    ensures var (p, s) := CheckPageSize(page, size);
            Answer(xs, Window(page, size)) != Intended(xs, p, s)
  {
    var (p, s) := CheckPageSize(page, size);
    var (start, end) := Window(page, size);
    assert p * s == (p - 1) * s + s;
    if end <= start {
      xs := seq(end + 1, i => i);
    } else {
      xs := seq(start + 1, i => i);
    }
  }

  /** The page is right for every list exactly when it ends within 32 bits. */
  lemma PageRightIff(page: nat, size: nat)
    ensures var (p, s) := CheckPageSize(page, size);
            (forall xs: seq<nat> :: Answer(xs, Window(page, size)) == Intended(xs, p, s)) <==> p * s < TWO32
  {
    var (p, s) := CheckPageSize(page, size);
    if p * s < TWO32 {
      forall xs: seq<nat> {
        PageAnswered(xs, page, size);
      }
    } else {
      var xs := PageWraps(page, size);
    }
  }

  /** The answers to pages 1 to `n`, one after the other. */
  function Walk<T>(xs: seq<T>, size: nat, n: nat): seq<T> {
    if n == 0 then [] else Walk(xs, size, n - 1) + Answer(xs, Window(n, size)).2
  }

  lemma {:induction false} WalkIsPages<T>(xs: seq<T>, size: nat, n: nat)
    requires 0 < size <= 100 && n * size < TWO32
    ensures Walk(xs, size, n) == FirstPages(xs, size, n)
  {
    if n > 0 {
      PageBefore(size, n);
      WalkIsPages(xs, size, n - 1);
      PageAnswered(xs, n, size);
    }
  }

  lemma PageBefore(size: nat, n: nat)
    requires n > 0
    ensures 0 <= (n - 1) * size <= n * size
  {
    assert n * size == (n - 1) * size + size;
  }

  /** Walking through all pages of an allowed size reads the payer's whole list, in order. */
  lemma AllPages(store: map<nat, PaymentOrder>, caller: Principal, size: nat, sort: QuerySort)
    requires 0 < size <= 100
    requires |Mine(InOrder(store, sort), caller)| + size < TWO32
    ensures var mine := Mine(InOrder(store, sort), caller);
            Walk(mine, size, PageCount(|mine|, size)) == mine
  {
    var mine := Mine(InOrder(store, sort), caller);
    var n := PageCount(|mine|, size);
    PageCountBounds(|mine|, size);
    WalkIsPages(mine, size, n);
    PagesCoverList(mine, size);
  }

  /** The list that is paged: each of the caller's orders once, by id. */
  lemma {:induction false} MineIsComplete(os: seq<PaymentOrder>, caller: Principal, o: PaymentOrder)
    ensures Query(o) in Mine(os, caller) <==> o in os && o.payer == caller
    ensures |Mine(os, caller)| <= |os|
  {
    if os != [] {
      var init := os[..|os| - 1];
      MineIsComplete(init, caller, o);
      assert os == init + [os[|os| - 1]];
    }
  }

  /** Every stored order carries its own key as its id. */
  ghost predicate KeyedById(store: map<nat, PaymentOrder>) {
    forall id :: id in store ==> store[id].id == id
  }

  lemma ReverseKeeps<T>(xs: seq<T>, x: T)
    ensures x in Reverse(xs) <==> x in xs
  {
    if x in xs {
      var i :| 0 <= i < |xs| && xs[i] == x;
      assert Reverse(xs)[|xs| - 1 - i] == x;
    }
  }

  lemma ListedAlong(store: map<nat, PaymentOrder>, ids: seq<nat>, o: PaymentOrder)
    requires KeyedById(store) && forall k :: k in ids <==> k in store
    ensures o in Along(ids, store) <==> o.id in store && store[o.id] == o
  {
    if o.id in store && store[o.id] == o {
      var i :| 0 <= i < |ids| && ids[i] == o.id;
      assert Along(ids, store)[i] == o;
    }
  }

  lemma StoreIsListed(store: map<nat, PaymentOrder>, sort: QuerySort, o: PaymentOrder)
    requires KeyedById(store)
    ensures o in InOrder(store, sort) <==> o.id in store && store[o.id] == o
  {
    NatLeIsTotal();
    ListedAlong(store, Listing(store.Keys, NatLe), o);
    ReverseKeeps(Ascending(store), o);
  }

  /** The caller is shown exactly his own stored orders. */
  lemma ExactlyTheCallers(store: map<nat, PaymentOrder>, sort: QuerySort, caller: Principal, o: PaymentOrder)
    requires KeyedById(store)
    ensures Query(o) in Mine(InOrder(store, sort), caller)
            <==> o.id in store && store[o.id] == o && o.payer == caller
  {
    StoreIsListed(store, sort, o);
    MineIsComplete(InOrder(store, sort), caller, o);
  }

  /** Ids strictly rise, or strictly fall, along a list. */
  ghost predicate Sorted(os: seq<PaymentOrder>, sort: QuerySort) {
    forall i, j :: 0 <= i < j < |os| ==> Precedes(os[i], os[j], sort)
  }

  predicate Precedes(a: PaymentOrder, b: PaymentOrder, sort: QuerySort) {
    if sort == TimeAsc then a.id < b.id else a.id > b.id
  }

  ghost predicate ShownSorted(qs: seq<QueryOrder>, sort: QuerySort) {
    forall i, j :: 0 <= i < j < |qs| ==> Precedes(qs[i].order, qs[j].order, sort)
  }

  lemma {:induction false} MineIsSorted(os: seq<PaymentOrder>, caller: Principal, sort: QuerySort)
    requires Sorted(os, sort)
    ensures ShownSorted(Mine(os, caller), sort)
    ensures forall q :: q in Mine(os, caller) ==> q.order in os
    decreases |os|
  {
    if os != [] {
      MineIsSorted(os[..|os| - 1], caller, sort);
    }
  }

  lemma StoreIsSorted(store: map<nat, PaymentOrder>, ids: seq<nat>)
    requires KeyedById(store) && forall k :: k in ids <==> k in store
    requires OrderedKeys.Ascending(ids, NatLe)
    ensures Sorted(Along(ids, store), TimeAsc)
  {
    var os := Along(ids, store);
    assert forall i :: 0 <= i < |os| ==> os[i].id == ids[i];
  }

  lemma ReverseIsSorted(os: seq<PaymentOrder>)
    requires Sorted(os, TimeAsc)
    ensures Sorted(Reverse(os), TimeDesc)
  {
  }

  /** The caller's orders are shown by ascending or by descending id, so none is shown twice. */
  lemma ShownInOrder(store: map<nat, PaymentOrder>, sort: QuerySort, caller: Principal)
    requires KeyedById(store)
    ensures ShownSorted(Mine(InOrder(store, sort), caller), sort)
  {
    NatLeIsTotal();
    StoreIsSorted(store, Listing(store.Keys, NatLe));
    ReverseIsSorted(Ascending(store));
    MineIsSorted(InOrder(store, sort), caller, sort);
  }
}
