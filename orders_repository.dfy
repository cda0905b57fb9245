/**
 * The in-memory orders repository of src/mocks/repositories/orders.go: a
 * table from the text of an order's ID to the order, updated in place.
 */
module MockOrdersRepository {

  import opened Models

  class InMemoryOrdersRepository {

    /** orders: ID text -> order. */
    var orders: map<Uuid, Order>

    /** Every order is stored under its own ID, as SaveOrder keys it. */
    ghost predicate Valid()
      reads this
    {
      forall id :: id in orders ==> orders[id].id == id
    }

    /** NewInMemoryOrdersRepository: an empty table. */
    constructor ()
      ensures Valid() && orders == map[]
    {
      orders := map[];
    }

    /**
     * GetAllOrders: one element per stored entry, in the order the keys are
     * visited, and never an error.
     */
    method GetAllOrders() returns (list: seq<Order>, err: Status)
      requires Valid()
      ensures err == Ok && |list| == |orders|
      ensures forall i :: 0 <= i < |list| ==> list[i].id in orders && orders[list[i].id] == list[i]
      ensures forall i, j :: 0 <= i < j < |list| ==> list[i].id != list[j].id
      ensures forall id :: id in orders ==> orders[id] in list
    {
      list := [];
      var remaining := orders.Keys;
      while remaining != {}
        invariant remaining <= orders.Keys
        invariant |list| + |remaining| == |orders|
        invariant forall i :: 0 <= i < |list| ==>
          list[i].id in orders.Keys - remaining && orders[list[i].id] == list[i]
        invariant forall i, j :: 0 <= i < j < |list| ==> list[i].id != list[j].id
        invariant forall id :: id in orders.Keys - remaining ==> orders[id] in list
        decreases |remaining|
      {
        var id :| id in remaining;
        list := list + [orders[id]];
        remaining := remaining - {id};
      }
      err := Ok;
    }

    /**
     * SaveOrder: store the order under its ID, replacing only an order
     * with that ID, and return it unchanged.
     */
    method SaveOrder(order: Order) returns (saved: Order, err: Status)
      requires Valid()
      modifies this
      ensures Valid() && orders == old(orders)[order.id := order]
      ensures saved == order && err == Ok
      ensures |orders| == |old(orders)| + (if order.id in old(orders) then 0 else 1)
    {
      orders := orders[order.id := order];
      saved, err := order, Ok;
    }

    /** FetchOrder: the stored order, or the zero order and "order not found". */
    method FetchOrder(orderId: Uuid) returns (order: Order, err: Status)
      ensures orderId in orders ==> order == orders[orderId] && err == Ok
      ensures orderId !in orders ==> order == ZeroOrder && err == Failed("order not found")
    {
      if orderId !in orders {
        return ZeroOrder, Failed("order not found");
      }
      return orders[orderId], Ok;
    }

    /** Clear: drop every order. */
    method Clear()
      modifies this
      ensures Valid() && orders == map[]
    {
      orders := map[];
    }

    /** Count: the number of stored orders. */
    method Count() returns (n: int)
      ensures n == |orders|
    {
      n := |orders|;
    }
  }

  /** A new repository counts 0 and lists nothing. */
  method NewRepositoryIsEmpty() returns (count: int, list: seq<Order>)
    ensures count == 0 && list == []
  {
    var repo := new InMemoryOrdersRepository();
    count := repo.Count();
    var err;
    list, err := repo.GetAllOrders();
  }

  /** A saved order is returned unchanged and fetched back by its ID. */
  method SaveThenFetch(order: Order) returns (saved: Order, fetched: Order, err: Status)
    ensures saved == order && fetched == order && err == Ok
  {
    var repo := new InMemoryOrdersRepository();
    var saveErr;
    saved, saveErr := repo.SaveOrder(order);
    fetched, err := repo.FetchOrder(order.id);
  }

  /** Fetching from an empty repository fails with the zero order. */
  method FetchMissing(orderId: Uuid) returns (fetched: Order, err: Status)
    ensures fetched == ZeroOrder && err == Failed("order not found")
  {
    var repo := new InMemoryOrdersRepository();
    fetched, err := repo.FetchOrder(orderId);
  }

  /** Three orders with distinct IDs are listed and counted as three. */
  method ThreeOrders(a: Order, b: Order, c: Order) returns (count: int, list: seq<Order>)
    requires a.id != b.id && a.id != c.id && b.id != c.id
    ensures count == 3 && |list| == 3
    ensures forall o :: o in {a, b, c} <==> o in list
  {
    var repo := new InMemoryOrdersRepository();
    var _, _ := repo.SaveOrder(a);
    var _, _ := repo.SaveOrder(b);
    var _, _ := repo.SaveOrder(c);
    count := repo.Count();
    var err;
    list, err := repo.GetAllOrders();
    assert repo.orders == map[a.id := a, b.id := b, c.id := c];
    assert a.id in repo.orders && b.id in repo.orders && c.id in repo.orders;
  }

  /** Saving under an existing ID replaces that order and keeps the others. */
  method OverwriteKeepsOthers(a: Order, b: Order, a2: Order) returns (count: int, first: Order, second: Order)
    requires a.id == a2.id && a.id != b.id
    ensures count == 2 && first == a2 && second == b
  {
    var repo := new InMemoryOrdersRepository();
    var _, _ := repo.SaveOrder(a);
    var _, _ := repo.SaveOrder(b);
    var _, _ := repo.SaveOrder(a2);
    count := repo.Count();
    var err;
    first, err := repo.FetchOrder(a.id);
    second, err := repo.FetchOrder(b.id);
  }

  /** After Clear the count is 0 and a saved order can no longer be fetched. */
  method FetchAfterClear(order: Order) returns (count: int, fetched: Order, err: Status)
    ensures count == 0 && fetched == ZeroOrder && err == Failed("order not found")
  {
    var repo := new InMemoryOrdersRepository();
    var _, _ := repo.SaveOrder(order);
    repo.Clear();
    count := repo.Count();
    fetched, err := repo.FetchOrder(order.id);
  }
}
