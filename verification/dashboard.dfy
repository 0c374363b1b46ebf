/**
 * The admin dashboard (client/src/pages/admin/AdminDashboard.jsx): the four
 * counters, the five most recent orders and the status badge of each.
 */
module Dashboard {
  import opened Lists
  import Orders

  datatype Stats = Stats(categories: nat, products: nat, orders: nat, pendingOrders: nat)

  predicate IsPending(o: Orders.OrderView) {
    o.status == "pending"
  }

  /** The counters: the lengths of the three fetched lists, and how many
      orders are pending. */
  function Counters<C, P>(categories: seq<C>, products: seq<P>, orders: seq<Orders.OrderView>): (s: Stats)
    ensures s.categories == |categories| && s.products == |products| && s.orders == |orders|
    ensures s.pendingOrders == |Filter(orders, IsPending)|
  {
    Stats(|categories|, |products|, |orders|, |Filter(orders, IsPending)|)
  }

  /** The pending orders and the others make up all orders, so the pending
      counter never exceeds the order counter. */
  lemma PendingWithinOrders<C, P>(categories: seq<C>, products: seq<P>, orders: seq<Orders.OrderView>)
    ensures var s := Counters(categories, products, orders);
            s.pendingOrders + Count(orders, (o: Orders.OrderView) => !IsPending(o)) == s.orders
  {
    CountSplit(orders, (o: Orders.OrderView) => true, IsPending, (o: Orders.OrderView) => !IsPending(o));
    CountAll(orders);
  }

  lemma {:induction false} CountAll<T>(xs: seq<T>)
    ensures Count(xs, (x: T) => true) == |xs|
    decreases |xs|
  {
    if |xs| > 0 {
      CountAll(xs[1..]);
    }
  }

  /** `orders.slice(0, 5)` */
  function Recent(orders: seq<Orders.OrderView>): (r: seq<Orders.OrderView>)
    ensures |r| == if |orders| < 5 then |orders| else 5
    ensures forall i :: 0 <= i < |r| ==> r[i] == orders[i]
  {
    Take(orders, 5)
  }

  /** The admin order listing is newest first, so the recent orders are the
      newest: none of the orders left out is newer than any shown. */
  lemma RecentAreNewest(orders: seq<Orders.OrderView>)
    requires forall i, j :: 0 <= i < j < |orders| ==> orders[i].createdAt >= orders[j].createdAt
    ensures forall i, j :: 0 <= i < |Recent(orders)| <= j < |orders| ==>
      Recent(orders)[i].createdAt >= orders[j].createdAt
  {
  }

  /** `getStatusBadge(status)`: an unknown status is shown like `processing`.
      Names of `Object.prototype` members, which no order holds, are not
      told apart here. */
  function Badge(status: string): (b: string)
    ensures b == "badge-warning" <==> status == "pending"
    ensures b == "badge-success" <==> status == "completed"
    ensures b == "badge-danger" <==> status == "cancelled"
    ensures b == "badge-info" <==> status != "pending" && status != "completed" && status != "cancelled"
  {
    if status == "pending" then "badge-warning"
    else if status == "processing" then "badge-info"
    else if status == "completed" then "badge-success"
    else if status == "cancelled" then "badge-danger"
    else "badge-info"
  }

  /** On the statuses an order can have, the badge tells every status apart
      except `processing`, which it cannot tell from an unknown one. */
  lemma BadgeOfStoredStatus(a: Orders.OrderStatus, b: Orders.OrderStatus)
    ensures Badge(Orders.StatusName(a)) == Badge(Orders.StatusName(b)) <==> a == b
  {
  }
}
