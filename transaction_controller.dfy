/** The order handlers (server/controllers/transactionController.js):
    creating an order, a user's history and single-order lookup, the admin
    listing with its statistics, the admin status update, and the dashboard
    figures with their month windows and growth rates. */
module TransactionController {
  import opened Wrappers
  import opened TransactionModel
  import opened TransactionStore
  import Sorting

  /** An HTTP reply: status code, the `success` flag and the payload. */
  datatype Reply<T> = Reply(status: int, success: bool, body: Option<T>)

  /** The filters the handlers apply to a list of orders. */
  datatype Criterion =
    | StatusIs(status: string)
    | UserIs(user: string)
    | CreatedSince(from: int)
    | CreatedBetween(from: int, until: int)

  predicate Holds(c: Criterion, t: Transaction)
  {
    match c
    case StatusIs(s) => t.status == s
    case UserIs(u) => t.user == u
    case CreatedSince(from) => t.createdAt >= from
    case CreatedBetween(from, until) => from <= t.createdAt < until
  }

  /** The orders meeting `c`, in their original order. */
  function Where(ts: seq<Transaction>, c: Criterion): (r: seq<Transaction>)
    ensures |r| <= |ts|
    ensures forall t :: t in r <==> t in ts && Holds(c, t)
  {
    if ts == [] then []
    else Where(ts[..|ts| - 1], c) + (if Holds(c, ts[|ts| - 1]) then [ts[|ts| - 1]] else [])
  }

  /** How many orders have the given status. */
  function CountStatus(ts: seq<Transaction>, status: string): nat
  {
    |Where(ts, StatusIs(status))|
  }

  /** The totals of the completed orders, folded from the left; other orders add nothing. */
  function Revenue(ts: seq<Transaction>): real
  {
    if ts == [] then 0.0
    else
      var last := ts[|ts| - 1];
      Revenue(ts[..|ts| - 1]) + (if last.status == "completed" then last.totalAmount else 0.0)
  }

  /** The sum of every total, whatever the status. */
  function SumAmounts(ts: seq<Transaction>): real
  {
    if ts == [] then 0.0 else SumAmounts(ts[..|ts| - 1]) + ts[|ts| - 1].totalAmount
  }

  lemma {:induction false} WhereAppend(a: seq<Transaction>, b: seq<Transaction>, c: Criterion)
    ensures Where(a + b, c) == Where(a, c) + Where(b, c)
  {
    if b == [] {
      assert a + b == a;
    } else {
      var p := b[..|b| - 1];
      var last := b[|b| - 1];
      assert b == p + [last];
      assert a + b == (a + p) + [last];
      WhereSnoc(a + p, last, c);
      WhereSnoc(p, last, c);
      WhereAppend(a, p, c);
      ConcatAssoc(Where(a, c), Where(p, c), if Holds(c, last) then [last] else []);
    }
  }

  lemma ConcatAssoc<T>(x: seq<T>, y: seq<T>, z: seq<T>)
    ensures (x + y) + z == x + (y + z)
  {
  }

  lemma WhereSnoc(ts: seq<Transaction>, x: Transaction, c: Criterion)
    ensures Where(ts + [x], c) == Where(ts, c) + if Holds(c, x) then [x] else []
  {
    var s := ts + [x];
    assert s[..|s| - 1] == ts && s[|s| - 1] == x;
  }

  lemma {:induction false} RevenueAppend(a: seq<Transaction>, b: seq<Transaction>)
    ensures Revenue(a + b) == Revenue(a) + Revenue(b)
  {
    if b == [] {
      assert a + b == a;
    } else {
      assert (a + b)[..|a + b| - 1] == a + b[..|b| - 1];
      RevenueAppend(a, b[..|b| - 1]);
    }
  }

  /** Revenue counts completed orders only: it is the sum of the totals of
      the completed orders. */
  lemma {:induction false} RevenueOfCompleted(ts: seq<Transaction>)
    ensures Revenue(ts) == SumAmounts(Where(ts, StatusIs("completed")))
  {
    if ts != [] {
      var init := ts[..|ts| - 1];
      var last := ts[|ts| - 1];
      RevenueOfCompleted(init);
      var w := Where(init, StatusIs("completed"));
      if last.status == "completed" {
        assert Where(ts, StatusIs("completed")) == w + [last];
        assert (w + [last])[..|w + [last]| - 1] == w;
      } else {
        assert Where(ts, StatusIs("completed")) == w + [];
        assert w + [] == w;
      }
    }
  }

  /** No completed order, no revenue. */
  lemma NoCompletedNoRevenue(ts: seq<Transaction>)
    requires CountStatus(ts, "completed") == 0
    ensures Revenue(ts) == 0.0
  {
    RevenueOfCompleted(ts);
    assert Where(ts, StatusIs("completed")) == [];
  }

  /** When every status is one the schema admits, the three counts add up to
      the number of orders. */
  lemma {:induction false} CountsPartition(ts: seq<Transaction>)
    requires forall i :: 0 <= i < |ts| ==> IsStatus(ts[i].status)
    ensures CountStatus(ts, "completed") + CountStatus(ts, "pending") + CountStatus(ts, "cancelled") == |ts|
  {
    if ts != [] {
      CountsPartition(ts[..|ts| - 1]);
    }
  }

  /** Revenue over the completed count, with `NaN` replaced by 0: with no
      completed order the quotient is `0 / 0`, which is `NaN` and falsy, so the value is 0. */
  function AverageOrderValue(ts: seq<Transaction>): (r: real)
    ensures CountStatus(ts, "completed") == 0 ==> r == 0.0
    ensures CountStatus(ts, "completed") > 0 ==> r * CountStatus(ts, "completed") as real == Revenue(ts)
  {
    var completed := CountStatus(ts, "completed");
    if completed == 0 then 0.0 else Revenue(ts) / completed as real
  }

  /** The admin listing's statistics. */
  datatype Stats = Stats(totalOrders: nat, completedOrders: nat, pendingOrders: nat, cancelledOrders: nat,
                         totalRevenue: real, averageOrderValue: real)

  function StatsOf(ts: seq<Transaction>): Stats
  {
    Stats(|ts|, CountStatus(ts, "completed"), CountStatus(ts, "pending"), CountStatus(ts, "cancelled"),
          Revenue(ts), AverageOrderValue(ts))
  }

  /** Newest first: a later creation time sorts ahead. */
  predicate NewerFirst(a: Transaction, b: Transaction)
  {
    a.createdAt > b.createdAt
  }

  lemma NewerFirstOrders()
    ensures Sorting.StrictWeakOrder(NewerFirst)
  {
  }

  datatype Listing = Listing(stats: Stats, transactions: seq<Transaction>)

  /** `getAllTransactions`: every order, newest first, with statistics over
      them. */
  function AllTransactions(all: seq<Transaction>): (r: Listing)
    ensures multiset(r.transactions) == multiset(all)
    ensures forall i, j :: 0 <= i < j < |r.transactions| ==>
      r.transactions[i].createdAt >= r.transactions[j].createdAt
    ensures r.stats.totalOrders == |all|
    ensures r.stats.totalRevenue == SumAmounts(Where(r.transactions, StatusIs("completed")))
    ensures (forall i :: 0 <= i < |all| ==> IsStatus(all[i].status)) ==>
      r.stats.completedOrders + r.stats.pendingOrders + r.stats.cancelledOrders == r.stats.totalOrders
  {
    SortedListing(all);
    var sorted := Sorting.SortSeq(all, NewerFirst);
    Listing(StatsOf(sorted), sorted)
  }

  lemma SortedListing(all: seq<Transaction>)
    ensures var sorted := Sorting.SortSeq(all, NewerFirst);
      && multiset(sorted) == multiset(all)
      && (forall i, j :: 0 <= i < j < |sorted| ==> sorted[i].createdAt >= sorted[j].createdAt)
      && Revenue(sorted) == SumAmounts(Where(sorted, StatusIs("completed")))
      && ((forall i :: 0 <= i < |all| ==> IsStatus(all[i].status)) ==>
           CountStatus(sorted, "completed") + CountStatus(sorted, "pending") + CountStatus(sorted, "cancelled") == |all|)
  {
    var sorted := Sorting.SortSeq(all, NewerFirst);
    NewestFirst(all);
    RevenueOfCompleted(sorted);
    if forall i :: 0 <= i < |all| ==> IsStatus(all[i].status) {
      forall i | 0 <= i < |sorted| ensures IsStatus(sorted[i].status) {
        assert sorted[i] in multiset(all);
      }
      CountsPartition(sorted);
    }
  }

  lemma NewestFirst(s: seq<Transaction>)
    ensures var sorted := Sorting.SortSeq(s, NewerFirst);
      && multiset(sorted) == multiset(s)
      && (forall i, j :: 0 <= i < j < |sorted| ==> sorted[i].createdAt >= sorted[j].createdAt)
  {
    Sorting.SortSeqPermutes(s, NewerFirst);
    NewerFirstOrders();
    Sorting.SortSeqSorted(s, NewerFirst);
  }

  /** `getTransactionHistory`: the caller's orders, newest first. */
  function History(all: seq<Transaction>, user: string): (r: seq<Transaction>)
    ensures forall t :: t in r <==> t in all && t.user == user
    ensures multiset(r) == multiset(Where(all, UserIs(user)))
    ensures forall i, j :: 0 <= i < j < |r| ==> r[i].createdAt >= r[j].createdAt
  {
    var mine := Where(all, UserIs(user));
    NewestFirst(mine);
    var r := Sorting.SortSeq(mine, NewerFirst);
    assert forall t :: t in r <==> t in multiset(r);
    assert forall t :: t in mine <==> t in multiset(mine);
    assert forall t :: Holds(UserIs(user), t) <==> t.user == user;
    r
  }

  /** `getTransactionById`: `findOne({ _id: id, user })`, so an order is
      returned only to its owner; any other caller gets 404. */
  method GetTransactionById(store: Store, id: string, user: string) returns (reply: Reply<Transaction>)
    requires store.Valid()
    ensures reply.success <==> reply.status == 200
    ensures reply.status == 200 <==> id in store.records && store.records[id].user == user
    ensures reply.status == 200 ==> reply.body == Some(store.records[id])
    ensures reply.status != 200 ==> reply.status == 404 && reply.body.None?
  {
    var found := store.FindById(id);
    if found.None? || found.value.user != user {
      return Reply(404, false, None);
    }
    reply := Reply(200, true, found);
  }

  /** `updateTransactionStatus`: the status, and only the status (with the
      update timestamp), is overwritten; any string is accepted and no rule
      on the current status applies. */
  method UpdateTransactionStatus(store: Store, id: string, status: Option<string>, now: int)
    returns (reply: Reply<Transaction>)
    requires store.Valid()
    modifies store
    ensures store.Valid() && store.order == old(store.order)
    ensures reply.status == 404 <==> id !in old(store.records)
    ensures id !in old(store.records) ==> store.records == old(store.records) && reply.body.None?
    ensures id in old(store.records) ==>
      var t := old(store.records)[id];
      && reply == Reply(200, true, Some(t.(status := status.GetOr(t.status), updatedAt := now)))
      && store.records == old(store.records)[id := reply.body.value]
  {
    var updated := store.FindByIdAndUpdate(id, Update(status, None, None), now);
    if updated.None? {
      return Reply(404, false, None);
    }
    reply := Reply(200, true, updated);
  }

  /** The body of a `createTransaction` request. */
  datatype OrderRequest = OrderRequest(items: seq<ItemInput>, totalAmount: Option<real>,
                                       shippingAddress: Address, paymentMethod: Option<string>)

  /** The document `createTransaction` builds: the caller as its user and no
      status, so the schema default applies. */
  function OrderInput(user: string, body: OrderRequest): TransactionInput
  {
    TransactionInput(Some(user), body.items, body.totalAmount, None, body.shippingAddress, body.paymentMethod)
  }

  /** `createTransaction`: a document that validates is stored as a pending
      order of the caller and returned with 201; one that does not (or whose
      id is taken) fails with 500 and nothing is stored. */
  method CreateTransaction(store: Store, user: string, body: OrderRequest, newId: string, now: int)
    returns (reply: Reply<Transaction>)
    requires store.Valid()
    modifies store
    ensures store.Valid()
    ensures reply.status == 201 <==> Admissible(OrderInput(user, body)) && newId !in old(store.records)
    ensures reply.status != 201 ==>
      && reply.status == 500 && !reply.success
      && store.records == old(store.records) && store.order == old(store.order)
    ensures reply.status == 201 ==>
      && reply.success && reply.body.Some?
      && reply.body.value.id == newId && reply.body.value.user == user
      && reply.body.value.status == "pending" && WellFormed(reply.body.value)
      && store.records == old(store.records)[newId := reply.body.value]
      && store.order == old(store.order) + [newId]
  {
    var input := OrderInput(user, body);
    var doc := NewTransaction(newId, input, now);
    if doc.Invalid? {
      return Reply(500, false, None);
    }
    var ok := store.Insert(doc.doc);
    if !ok {
      return Reply(500, false, None);
    }
    reply := Reply(201, true, Some(doc.doc));
  }

  /** Revenue and order count of one window. */
  datatype Window = Window(revenue: real, orders: nat)

  datatype Totals = Totals(revenue: real, orders: nat, completed: nat, cancelled: nat)

  /** The dashboard figures; `None` stands for a non-finite growth rate
      (`Infinity` or `NaN`, from a division by a zero revenue). */
  datatype Dashboard = Dashboard(total: Totals, thisMonth: Window, lastMonth: Window,
                                 revenueGrowth: Option<real>, ordersGrowth: Option<real>)

  function WindowOf(ts: seq<Transaction>): Window
  {
    Window(Revenue(ts), |ts|)
  }

  /** The change from `before` to `now` as a percentage of `before`. */
  function Growth(now: real, before: real): (r: Option<real>)
    ensures r.None? <==> before == 0.0
  {
    if before == 0.0 then None else Some((now - before) / before * 100.0)
  }

  /** The two month windows are disjoint, and together they hold exactly the
      orders created since the start of last month. */
  lemma {:induction false} WindowsSplit(ts: seq<Transaction>, lastMonth: int, thisMonth: int)
    requires lastMonth <= thisMonth
    ensures forall t :: !(Holds(CreatedSince(thisMonth), t) && Holds(CreatedBetween(lastMonth, thisMonth), t))
    ensures |Where(ts, CreatedSince(thisMonth))| + |Where(ts, CreatedBetween(lastMonth, thisMonth))|
      == |Where(ts, CreatedSince(lastMonth))|
    ensures Revenue(Where(ts, CreatedSince(thisMonth))) + Revenue(Where(ts, CreatedBetween(lastMonth, thisMonth)))
      == Revenue(Where(ts, CreatedSince(lastMonth)))
  {
    if ts != [] {
      var init := ts[..|ts| - 1];
      var last := ts[|ts| - 1];
      WindowsSplit(init, lastMonth, thisMonth);
      var a := Where(init, CreatedSince(thisMonth));
      var b := Where(init, CreatedBetween(lastMonth, thisMonth));
      var c := Where(init, CreatedSince(lastMonth));
      if Holds(CreatedSince(thisMonth), last) {
        assert Where(ts, CreatedSince(thisMonth)) == a + [last];
        assert Where(ts, CreatedBetween(lastMonth, thisMonth)) == b + [];
        assert Where(ts, CreatedSince(lastMonth)) == c + [last];
        assert b + [] == b;
        RevenueAppend(a, [last]);
        RevenueAppend(c, [last]);
      } else if Holds(CreatedBetween(lastMonth, thisMonth), last) {
        assert Where(ts, CreatedSince(thisMonth)) == a + [];
        assert Where(ts, CreatedBetween(lastMonth, thisMonth)) == b + [last];
        assert Where(ts, CreatedSince(lastMonth)) == c + [last];
        assert a + [] == a;
        RevenueAppend(b, [last]);
        RevenueAppend(c, [last]);
      } else {
        assert Where(ts, CreatedSince(thisMonth)) == a + [];
        assert Where(ts, CreatedBetween(lastMonth, thisMonth)) == b + [];
        assert Where(ts, CreatedSince(lastMonth)) == c + [];
        assert a + [] == a && b + [] == b && c + [] == c;
      }
    }
  }

  /** `getDashboardStats` for the clock readings `thisMonth` (the first
      instant of the current month) and `lastMonth` (that of the previous
      one). The growth rates start at 0 and are recomputed only when last
      month had orders. */
  method DashboardStats(all: seq<Transaction>, lastMonth: int, thisMonth: int) returns (stats: Dashboard)
    requires lastMonth < thisMonth
    ensures stats.total == Totals(Revenue(all), |all|, CountStatus(all, "completed"), CountStatus(all, "cancelled"))
    ensures stats.thisMonth == WindowOf(Where(all, CreatedSince(thisMonth)))
    ensures stats.lastMonth == WindowOf(Where(all, CreatedBetween(lastMonth, thisMonth)))
    ensures stats.lastMonth.orders == 0 ==> stats.revenueGrowth == Some(0.0) && stats.ordersGrowth == Some(0.0)
    ensures stats.lastMonth.orders > 0 ==>
      && stats.ordersGrowth.Some?
      && stats.ordersGrowth == Growth(stats.thisMonth.orders as real, stats.lastMonth.orders as real)
      && stats.revenueGrowth == Growth(stats.thisMonth.revenue, stats.lastMonth.revenue)
  {
    var thisMonthTransactions := Where(all, CreatedSince(thisMonth));
    var lastMonthTransactions := Where(all, CreatedBetween(lastMonth, thisMonth));
    stats := Dashboard(
      Totals(Revenue(all), |all|, CountStatus(all, "completed"), CountStatus(all, "cancelled")),
      WindowOf(thisMonthTransactions),
      WindowOf(lastMonthTransactions),
      Some(0.0), Some(0.0));
    if |lastMonthTransactions| > 0 {
      stats := stats.(revenueGrowth := Growth(stats.thisMonth.revenue, stats.lastMonth.revenue));
      stats := stats.(ordersGrowth := Growth(stats.thisMonth.orders as real, stats.lastMonth.orders as real));
    }
  }
}
