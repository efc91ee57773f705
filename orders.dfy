/** The order operations of the client service (src/Client/client.service.ts):
    creating an order, editing its lines while it is PENDING, setting its
    status and payment status, and counting a user's orders. The menu-item
    table (`catalog`, id to price), the user ids and the discount tables are
    read, never written, here. `catalog` abstracts the same menu-item table
    that `Restaurants.RestaurantStore.menuItems` holds (its ids and prices);
    the two modules are not linked, so an operation here sees whichever
    catalogue its caller passes.

    The three line-editing operations recompute the total by passing the
    order's line records to the pricing loop, so the loop looks the price up
    under the LINE's id, not under its menu item's id. The model keeps that,
    and keeps the totals the code writes (`old + recomputed` after adding,
    `old - recomputed` after removing); the functions at the end of the
    module state what was evidently intended and prove it. */
module Orders {
  import opened Common
  import opened Discounts
  import opened Pricing

  /** Only PENDING is named by the code; every other value of the order
      status enumeration is carried by its name. */
  datatype OrderStatus = Pending | NonPending(name: string)

  datatype OrderLine = OrderLine(id: int, menuItemId: int, quantity: int)

  /** `OrderItemDto`: a menu item id and a quantity. */
  datatype OrderItemRequest = OrderItemRequest(id: int, quantity: int)

  datatype OrderDetails = OrderDetails(
    deliveryAddress: Option<string>,
    deliveryInstructions: Option<string>,
    discountCode: Option<string>,
    customerNotes: Option<string>,
    deliveryMethod: Option<string>,
    paymentMethod: Option<string>,
    estimatedDeliveryDate: Option<int>)

  datatype Order = Order(
    userId: int,
    lines: seq<OrderLine>,
    totalPrice: real,
    status: OrderStatus,
    paymentStatus: string,
    details: OrderDetails)

  /** The class-validator constraints on `OrderItemDto`: both at least 1. */
  predicate ValidItem(it: OrderItemRequest)
  {
    it.id >= 1 && it.quantity >= 1
  }

  /** The fields of `updateOrder`'s body other than the items: present
      fields overwrite, absent ones are kept. */
  function MergeDetails(d: OrderDetails, patch: OrderDetails): OrderDetails
  {
    OrderDetails(
      if patch.deliveryAddress.Some? then patch.deliveryAddress else d.deliveryAddress,
      if patch.deliveryInstructions.Some? then patch.deliveryInstructions else d.deliveryInstructions,
      if patch.discountCode.Some? then patch.discountCode else d.discountCode,
      if patch.customerNotes.Some? then patch.customerNotes else d.customerNotes,
      if patch.deliveryMethod.Some? then patch.deliveryMethod else d.deliveryMethod,
      if patch.paymentMethod.Some? then patch.paymentMethod else d.paymentMethod,
      if patch.estimatedDeliveryDate.Some? then patch.estimatedDeliveryDate else d.estimatedDeliveryDate)
  }

  // ---------------------------------------------------------------------------
  // What the operations hand to the pricing loop.

  /** The requested menu item ids, as a set. */
  function RequestIds(items: seq<OrderItemRequest>): set<int>
  {
    set i | 0 <= i < |items| :: items[i].id
  }

  predicate DistinctIds(items: seq<OrderItemRequest>)
  {
    forall i, j :: 0 <= i < j < |items| ==> items[i].id != items[j].id
  }

  /** The menu items found for a creation request, one per requested id. */
  function CatalogItems(items: seq<OrderItemRequest>, catalog: map<int, real>): seq<Option<MenuItem>>
    requires forall i :: 0 <= i < |items| ==> items[i].id in catalog
  {
    seq(|items|, i requires 0 <= i < |items| => Some(MenuItem(items[i].id, catalog[items[i].id])))
  }

  /** A creation request's lines as the pricing loop reads them. */
  function RequestKeys(items: seq<OrderItemRequest>): seq<PriceLine>
  {
    seq(|items|, i requires 0 <= i < |items| => PriceLine(items[i].id, items[i].quantity))
  }

  /** `items.map(item => item.menuItem)` over stored lines: the line's menu
      item, or null when it is not in the catalog. */
  function LineMenuItems(lines: seq<OrderLine>, catalog: map<int, real>): seq<Option<MenuItem>>
  {
    seq(|lines|, i requires 0 <= i < |lines| =>
      if lines[i].menuItemId in catalog then Some(MenuItem(lines[i].menuItemId, catalog[lines[i].menuItemId]))
      else None)
  }

  /** Stored lines passed as requested lines: the key is the line's own id. */
  function RecordKeys(lines: seq<OrderLine>): seq<PriceLine>
  {
    seq(|lines|, i requires 0 <= i < |lines| => PriceLine(lines[i].id, lines[i].quantity))
  }

  /** Stored lines keyed by their menu item, as the pricing was meant to see
      them. */
  function MenuItemKeys(lines: seq<OrderLine>): seq<PriceLine>
  {
    seq(|lines|, i requires 0 <= i < |lines| => PriceLine(lines[i].menuItemId, lines[i].quantity))
  }

  /** The total the line-editing operations compute: the pricing loop over
      the order's line records. */
  function RecomputeAsWritten(lines: seq<OrderLine>, catalog: map<int, real>,
                              rows: seq<ApplicableRow>, discounts: map<int, Discount>): Result<real>
  {
    CalculateTotal(LineMenuItems(lines, catalog), RecordKeys(lines), rows, discounts)
  }

  /** `createMany` over the requested items: one new line per item, with
      consecutive fresh ids from `firstId`. */
  function NewLines(items: seq<OrderItemRequest>, firstId: int): (r: seq<OrderLine>)
    ensures |r| == |items|
  {
    seq(|items|, i requires 0 <= i < |items| => OrderLine(firstId + i, items[i].id, items[i].quantity))
  }

  /** `deleteMany({ menuItemId: { in: ids } })`: the lines whose menu item is
      not listed, in their order. */
  function Remaining(lines: seq<OrderLine>, ids: set<int>): seq<OrderLine>
  {
    if |lines| == 0 then []
    else (if lines[0].menuItemId in ids then [] else [lines[0]]) + Remaining(lines[1..], ids)
  }

  /** The lines `Remaining` drops. */
  function Removed(lines: seq<OrderLine>, ids: set<int>): seq<OrderLine>
  {
    if |lines| == 0 then []
    else (if lines[0].menuItemId in ids then [lines[0]] else []) + Removed(lines[1..], ids)
  }

  /** `order.count({ where: { userId } })`. */
  function OrderCount(orders: map<int, Order>, userId: int): nat
  {
    |set id | id in orders && orders[id].userId == userId|
  }

  // ---------------------------------------------------------------------------
  // Facts the operations rely on.

  lemma RequestIdsMembers(items: seq<OrderItemRequest>, x: int)
    ensures x in RequestIds(items) <==> exists i :: 0 <= i < |items| && items[i].id == x
  {
  }

  lemma RequestIdsSnoc(items: seq<OrderItemRequest>)
    requires |items| > 0
    ensures RequestIds(items) == RequestIds(items[..|items| - 1]) + {items[|items| - 1].id}
  {
    var n := |items| - 1;
    forall x ensures x in RequestIds(items) <==> x in RequestIds(items[..n]) + {items[n].id} {
      if x in RequestIds(items) && x != items[n].id {
        var i :| 0 <= i < |items| && items[i].id == x;
        assert items[..n][i].id == x;
      }
      if x in RequestIds(items[..n]) {
        var i :| 0 <= i < n && items[..n][i].id == x;
        assert items[i].id == x;
      }
    }
  }

  /** At most one id per item, and exactly one each when they are distinct. */
  lemma {:induction false} RequestIdsCard(items: seq<OrderItemRequest>)
    ensures |RequestIds(items)| <= |items|
    ensures |RequestIds(items)| == |items| <==> DistinctIds(items)
  {
    if |items| > 0 {
      var n := |items| - 1;
      var prefix := items[..n];
      RequestIdsCard(prefix);
      RequestIdsSnoc(items);
      RequestIdsMembers(prefix, items[n].id);
      assert forall i :: 0 <= i < n ==> prefix[i] == items[i];
      if items[n].id in RequestIds(prefix) {
        var i :| 0 <= i < n && prefix[i].id == items[n].id;
        assert !DistinctIds(items) by { assert items[i].id == items[n].id; }
      } else {
        assert DistinctIds(items) <==> DistinctIds(prefix);
      }
    }
  }

  /** The creation check `found.length !== items.length` lets a request
      through exactly when its ids are pairwise distinct and all name an
      existing menu item: a duplicate or unknown id is refused. */
  lemma CountCheck(items: seq<OrderItemRequest>, catalog: set<int>)
    ensures |RequestIds(items) * catalog| == |items|
            <==> DistinctIds(items) && forall i :: 0 <= i < |items| ==> items[i].id in catalog
  {
    var ids := RequestIds(items);
    RequestIdsCard(items);
    assert |ids - catalog| + |ids * catalog| == |ids|;
    if forall i :: 0 <= i < |items| ==> items[i].id in catalog {
      forall x | x in ids ensures x in catalog {
        RequestIdsMembers(items, x);
      }
      assert ids * catalog == ids;
    } else {
      var i :| 0 <= i < |items| && items[i].id !in catalog;
      RequestIdsMembers(items, items[i].id);
      assert items[i].id in ids - catalog;
    }
  }

  /** In a list of catalog entries, the price found for an id that occurs
      is the catalog price. */
  lemma {:induction false} FindPriceInCatalogList(menuItems: seq<Option<MenuItem>>, catalog: map<int, real>, key: int)
    requires forall i :: 0 <= i < |menuItems| ==>
               menuItems[i].Some? && menuItems[i].value.id in catalog
               && menuItems[i].value.price == catalog[menuItems[i].value.id]
    requires exists i :: 0 <= i < |menuItems| && menuItems[i].value.id == key
    ensures key in catalog && FindPrice(menuItems, key) == Some(catalog[key])
  {
    if menuItems[0].value.id != key {
      var i :| 0 <= i < |menuItems| && menuItems[i].value.id == key;
      assert menuItems[1..][i - 1] == menuItems[i];
      FindPriceInCatalogList(menuItems[1..], catalog, key);
    }
  }

  /** Creation prices every requested line at its catalog price. */
  lemma CreationPricingSucceeds(items: seq<OrderItemRequest>, catalog: map<int, real>,
                                rows: seq<ApplicableRow>, discounts: map<int, Discount>)
    requires forall i :: 0 <= i < |items| ==> items[i].id in catalog
    ensures CalculateTotal(CatalogItems(items, catalog), RequestKeys(items), rows, discounts).Ok?
  {
    var menuItems := CatalogItems(items, catalog);
    var keys := RequestKeys(items);
    forall i | 0 <= i < |keys| ensures FindPrice(menuItems, keys[i].key).Some? {
      assert menuItems[i].value.id == keys[i].key;
      FindPriceInCatalogList(menuItems, catalog, keys[i].key);
    }
    TotalIsSumOfLines(menuItems, keys, rows, discounts);
  }

  /** Inserting an order under a fresh id adds one to its user's count and
      leaves every other user's count alone. */
  lemma CountAfterInsert(orders: map<int, Order>, id: int, o: Order, userId: int)
    requires id !in orders
    ensures OrderCount(orders[id := o], userId)
            == OrderCount(orders, userId) + (if o.userId == userId then 1 else 0)
  {
    var before := set k | k in orders && orders[k].userId == userId;
    var m := orders[id := o];
    var after := set k | k in m && m[k].userId == userId;
    if o.userId == userId {
      assert after == before + {id};
    } else {
      assert after == before;
    }
  }

  /** A user's count never exceeds the number of orders, and is zero exactly
      when the user has no order. */
  lemma OrderCountBounds(orders: map<int, Order>, userId: int)
    ensures OrderCount(orders, userId) <= |orders|
    ensures OrderCount(orders, userId) == 0 <==> forall id :: id in orders ==> orders[id].userId != userId
  {
    var s := set id | id in orders && orders[id].userId == userId;
    assert orders.Keys * s == s;
    assert |orders.Keys - s| == |orders.Keys| - |s|;
    if exists id :: id in orders && orders[id].userId == userId {
      var id :| id in orders && orders[id].userId == userId;
      assert id in s;
    }
  }

  /** Every line has an id below `bound` and a positive quantity. */
  predicate LinesBelow(lines: seq<OrderLine>, bound: int)
  {
    forall k :: 0 <= k < |lines| ==> 1 <= lines[k].id < bound && lines[k].quantity >= 1
  }

  predicate AllInCatalog(items: seq<OrderItemRequest>, catalog: map<int, real>)
  {
    forall i :: 0 <= i < |items| ==> items[i].id in catalog
  }

  lemma LinesBelowGrow(orders: map<int, Order>, bound: int, bound': int)
    requires bound <= bound'
    requires forall id :: id in orders ==> LinesBelow(orders[id].lines, bound)
    ensures forall id :: id in orders ==> LinesBelow(orders[id].lines, bound')
  {
  }

  lemma {:induction false} LinesBelowRemaining(lines: seq<OrderLine>, ids: set<int>, bound: int)
    requires LinesBelow(lines, bound)
    ensures LinesBelow(Remaining(lines, ids), bound)
  {
    if |lines| > 0 {
      LinesBelowRemaining(lines[1..], ids, bound);
    }
  }

  lemma LinesBelowAppend(lines: seq<OrderLine>, items: seq<OrderItemRequest>, bound: int)
    requires 1 <= bound && LinesBelow(lines, bound)
    requires forall i :: 0 <= i < |items| ==> ValidItem(items[i])
    ensures LinesBelow(lines + NewLines(items, bound), bound + |items|)
  {
    var all := lines + NewLines(items, bound);
    forall k | 0 <= k < |all| ensures 1 <= all[k].id < bound + |items| && all[k].quantity >= 1 {
      if k >= |lines| {
        assert all[k] == NewLines(items, bound)[k - |lines|];
      }
    }
  }

  /** What `removeItemsFromOrder` answers once the lines are deleted: the
      order with the remaining lines and the old total minus the recomputed
      one, or an internal error when the recomputation fails. */
  predicate RemoveOutcome(o: Order, lines: seq<OrderLine>, total: Result<real>, r: Result<Order>)
  {
    match total
    case Err(_) => r == Err(InternalError)
    case Ok(t) => r == Ok(o.(lines := lines, totalPrice := o.totalPrice - t))
  }

  // ---------------------------------------------------------------------------
  // The store.

  class OrderStore {
    var orders: map<int, Order>
    var nextOrderId: int
    var nextLineId: int

    ghost predicate Valid()
      reads this
    {
      && 1 <= nextOrderId && 1 <= nextLineId
      && (forall id :: id in orders ==> 1 <= id < nextOrderId)
      && (forall id :: id in orders ==> LinesBelow(orders[id].lines, nextLineId))
    }

    constructor ()
      ensures Valid() && orders == map[] && nextOrderId == 1 && nextLineId == 1
    {
      orders := map[];
      nextOrderId := 1;
      nextLineId := 1;
    }

    /** `countUserOrders`. */
    function CountUserOrders(userId: int): (n: nat)
      reads this
      ensures n <= |orders|
      ensures n == 0 <==> forall id :: id in orders ==> orders[id].userId != userId
    {
      OrderCountBounds(orders, userId);
      OrderCount(orders, userId)
    }

    /** `createOrder`: NotFound for an unknown user; BadRequest unless the
        requested ids are distinct menu items that all exist; otherwise a
        PENDING order with payment status "Pending", one line per requested
        item and the price of the request as its total. */
    method CreateOrder(userId: int, items: seq<OrderItemRequest>, details: OrderDetails,
                       users: set<int>, catalog: map<int, real>, store: DiscountStore)
      returns (r: Result<int>)
      requires Valid()
      requires forall i :: 0 <= i < |items| ==> ValidItem(items[i])
      modifies this
      ensures Valid()
      ensures userId !in users ==> r == Err(NotFound)
      ensures userId in users ==>
                (r == Err(BadRequest) <==> !(DistinctIds(items) && forall i :: 0 <= i < |items| ==> items[i].id in catalog))
      ensures r.Ok? <==> userId in users && DistinctIds(items) && AllInCatalog(items, catalog)
      ensures r.Err? ==> orders == old(orders) && nextOrderId == old(nextOrderId) && nextLineId == old(nextLineId)
      ensures r.Ok? ==>
                && (forall i :: 0 <= i < |items| ==> items[i].id in catalog)
                && var total := CalculateTotal(CatalogItems(items, catalog), RequestKeys(items), store.rows, store.discounts);
                && total.Ok?
                && r.value == old(nextOrderId) && r.value !in old(orders)
                && orders == old(orders)[r.value := Order(userId, NewLines(items, old(nextLineId)), total.value,
                                                          Pending, "Pending", details)]
                && nextOrderId == old(nextOrderId) + 1
                && nextLineId == old(nextLineId) + |items|
    {
      if userId !in users {
        return Err(NotFound);
      }
      var found := RequestIds(items) * catalog.Keys;
      CountCheck(items, catalog.Keys);
      if |found| != |items| {
        return Err(BadRequest);
      }
      var menuItems := CatalogItems(items, catalog);
      CreationPricingSucceeds(items, catalog, store.rows, store.discounts);
      var total := CalculateTotalPrice(menuItems, RequestKeys(items), store);
      var id := nextOrderId;
      var lines := NewLines(items, nextLineId);
      orders := orders[id := Order(userId, lines, total.value, Pending, "Pending", details)];
      nextOrderId := nextOrderId + 1;
      nextLineId := nextLineId + |items|;
      r := Ok(id);
    }

    /** `updatePaymentStatus`: no status gate; updating a missing order is a
        database error (the code's own null check never fires). */
    method UpdatePaymentStatus(status: string, orderId: int) returns (r: Result<Order>)
      requires Valid()
      modifies this`orders
      ensures Valid()
      ensures orderId !in old(orders) <==> r == Err(InternalError)
      ensures orderId in old(orders) ==> r.Ok?
      ensures r.Err? ==> orders == old(orders)
      ensures r.Ok? ==> && r.value == old(orders)[orderId].(paymentStatus := status)
                        && orders == old(orders)[orderId := r.value]
    {
      if orderId !in orders {
        return Err(InternalError);
      }
      var o := orders[orderId].(paymentStatus := status);
      orders := orders[orderId := o];
      r := Ok(o);
    }

    /** `updateOrderStatus`: any status, from any status, once the order
        exists. */
    method UpdateOrderStatus(orderId: int, newStatus: OrderStatus) returns (r: Result<Order>)
      requires Valid()
      modifies this`orders
      ensures Valid()
      ensures orderId !in old(orders) <==> r == Err(NotFound)
      ensures orderId in old(orders) ==> r.Ok?
      ensures r.Err? ==> orders == old(orders)
      ensures r.Ok? ==> && r.value == old(orders)[orderId].(status := newStatus)
                        && orders == old(orders)[orderId := r.value]
    {
      if orderId !in orders {
        return Err(NotFound);
      }
      var o := orders[orderId].(status := newStatus);
      orders := orders[orderId := o];
      r := Ok(o);
    }

    /** Writes an order's lines (the `createMany` and `deleteMany` on its
        line table). */
    method WriteLines(orderId: int, lines: seq<OrderLine>)
      requires Valid() && orderId in orders && LinesBelow(lines, nextLineId)
      modifies this`orders
      ensures Valid()
      ensures orders == old(orders)[orderId := old(orders)[orderId].(lines := lines)]
    {
      orders := orders[orderId := orders[orderId].(lines := lines)];
    }

    /** Writes an order's total. */
    method WriteTotal(orderId: int, total: real)
      requires Valid() && orderId in orders
      modifies this`orders
      ensures Valid()
      ensures orders == old(orders)[orderId := old(orders)[orderId].(totalPrice := total)]
    {
      orders := orders[orderId := orders[orderId].(totalPrice := total)];
    }

    /** The guard shared by the three line-editing operations. */
    function EditGuard(orderId: int): (r: Result<Order>)
      reads this
      ensures r.Ok? <==> orderId in orders && orders[orderId].status == Pending
      ensures orderId !in orders ==> r == Err(NotFound)
      ensures orderId in orders && orders[orderId].status != Pending ==> r == Err(BadRequest)
      ensures r.Ok? ==> r.value == orders[orderId]
    {
      if orderId !in orders then Err(NotFound)
      else if orders[orderId].status != Pending then Err(BadRequest)
      else Ok(orders[orderId])
    }

    /** `updateOrder`: after the guard, the total is recomputed from the
        stored lines (looked up by line id); a failed lookup throws before
        anything is written; otherwise the given detail fields and the new
        total are written. */
    method UpdateOrder(orderId: int, patch: OrderDetails, catalog: map<int, real>, store: DiscountStore)
      returns (r: Result<Order>)
      requires Valid()
      modifies this`orders
      ensures Valid()
      ensures old(EditGuard(orderId)).Err? ==> r == Err(old(EditGuard(orderId)).error)
      ensures r.Err? ==> orders == old(orders)
      ensures old(EditGuard(orderId)).Ok? ==>
                var o := old(orders)[orderId];
                var total := RecomputeAsWritten(o.lines, catalog, store.rows, store.discounts);
                && (total.Err? ==> r == Err(InternalError))
                && (total.Ok? ==>
                      && r == Ok(o.(details := MergeDetails(o.details, patch), totalPrice := total.value))
                      && orders == old(orders)[orderId := r.value])
    {
      var guard := EditGuard(orderId);
      if guard.Err? {
        return Err(guard.error);
      }
      var o := guard.value;
      var total := CalculateTotalPrice(LineMenuItems(o.lines, catalog), RecordKeys(o.lines), store);
      if total.Err? {
        return Err(InternalError);
      }
      var updated := o.(details := MergeDetails(o.details, patch), totalPrice := total.value);
      orders := orders[orderId := updated];
      r := Ok(updated);
    }

    /** `addItemsToOrder`: after the guard, one new line per requested item
        is appended (a menu item id that does not exist violates the foreign
        key and nothing is written); then the total is recomputed over all
        lines, looked up by line id, and the order's total becomes the OLD
        total plus that recomputed total. A failed lookup throws after the
        lines were written. */
    method AddItemsToOrder(orderId: int, items: seq<OrderItemRequest>, catalog: map<int, real>, store: DiscountStore)
      returns (r: Result<Order>)
      requires Valid()
      requires forall i :: 0 <= i < |items| ==> ValidItem(items[i])
      modifies this`orders, this`nextLineId
      ensures Valid()
      ensures old(EditGuard(orderId)).Err? ==> r == Err(old(EditGuard(orderId)).error)
      ensures old(EditGuard(orderId)).Ok? && !AllInCatalog(items, catalog) ==> r == Err(InternalError)
      ensures (old(EditGuard(orderId)).Err? || !AllInCatalog(items, catalog)) ==>
                orders == old(orders) && nextLineId == old(nextLineId)
      ensures old(EditGuard(orderId)).Ok? && AllInCatalog(items, catalog) ==>
                var o := old(orders)[orderId];
                var lines := o.lines + NewLines(items, old(nextLineId));
                var total := RecomputeAsWritten(lines, catalog, store.rows, store.discounts);
                && nextLineId == old(nextLineId) + |items|
                && (total.Err? ==> r == Err(InternalError) && orders == old(orders)[orderId := o.(lines := lines)])
                && (total.Ok? ==>
                      && r == Ok(o.(lines := lines, totalPrice := o.totalPrice + total.value))
                      && orders == old(orders)[orderId := r.value])
    {
      var guard := EditGuard(orderId);
      if guard.Err? {
        return Err(guard.error);
      }
      var o := guard.value;
      if !AllInCatalog(items, catalog) {
        return Err(InternalError);
      }
      var lines := o.lines + NewLines(items, nextLineId);
      LinesBelowAppend(o.lines, items, nextLineId);
      LinesBelowGrow(orders, nextLineId, nextLineId + |items|);
      orders := orders[orderId := o.(lines := lines)];
      nextLineId := nextLineId + |items|;
      var total := CalculateTotalPrice(LineMenuItems(lines, catalog), RecordKeys(lines), store);
      if total.Err? {
        return Err(InternalError);
      }
      var updated := o.(lines := lines, totalPrice := o.totalPrice + total.value);
      orders := orders[orderId := updated];
      r := Ok(updated);
    }

    /** `removeItemsFromOrder`: after the guard, every line whose menu item is
        listed is deleted, whatever the requested quantities; then the total
        is recomputed over the remaining lines, looked up by line id, and the
        order's total becomes the OLD total minus that recomputed total. A
        failed lookup throws after the lines were deleted. */
    method RemoveItemsFromOrder(orderId: int, items: seq<OrderItemRequest>, catalog: map<int, real>, store: DiscountStore)
      returns (r: Result<Order>)
      requires Valid()
      modifies this`orders
      ensures Valid()
      ensures old(EditGuard(orderId)).Err? ==> r == Err(old(EditGuard(orderId)).error) && orders == old(orders)
      ensures old(EditGuard(orderId)).Ok? ==>
                var o := old(orders)[orderId];
                var lines := Remaining(o.lines, RequestIds(items));
                RemoveOutcome(o, lines, RecomputeAsWritten(lines, catalog, store.rows, store.discounts), r)
                && orders == old(orders)[orderId := if r.Ok? then r.value else o.(lines := lines)]
    {
      var guard := EditGuard(orderId);
      if guard.Err? {
        return Err(guard.error);
      }
      var o := guard.value;
      var lines := Remaining(o.lines, RequestIds(items));
      LinesBelowRemaining(o.lines, RequestIds(items), nextLineId);
      WriteLines(orderId, lines);
      var total := CalculateTotalPrice(LineMenuItems(lines, catalog), RecordKeys(lines), store);
      if total.Err? {
        return Err(InternalError);
      }
      WriteTotal(orderId, o.totalPrice - total.value);
      r := Ok(orders[orderId]);
    }
  }

  /** Every remaining line is one of the original lines, and none of them
      refers to a listed menu item. */
  lemma {:induction false} RemainingIsSubsequence(lines: seq<OrderLine>, ids: set<int>)
    ensures forall k :: 0 <= k < |Remaining(lines, ids)| ==>
              Remaining(lines, ids)[k] in lines && Remaining(lines, ids)[k].menuItemId !in ids
  {
    if |lines| > 0 {
      RemainingIsSubsequence(lines[1..], ids);
      var head := if lines[0].menuItemId in ids then [] else [lines[0]];
      var rest := Remaining(lines[1..], ids);
      forall k | 0 <= k < |head + rest|
        ensures (head + rest)[k] in lines && (head + rest)[k].menuItemId !in ids
      {
        if k >= |head| {
          assert (head + rest)[k] == rest[k - |head|];
          assert rest[k - |head|] in lines[1..];
        }
      }
    }
  }

  // ---------------------------------------------------------------------------
  // A reference total: each line at its catalog price after its discounts,
  // times its quantity.

  predicate LinesInCatalog(lines: seq<OrderLine>, catalog: map<int, real>)
  {
    forall k :: 0 <= k < |lines| ==> lines[k].menuItemId in catalog
  }

  function CatalogLineAmount(l: OrderLine, catalog: map<int, real>,
                             rows: seq<ApplicableRow>, discounts: map<int, Discount>): real
    requires l.menuItemId in catalog
  {
    ApplyDiscounts(catalog[l.menuItemId], Fetch(rows, discounts, l.menuItemId)) * (l.quantity as real)
  }

  function CatalogSum(lines: seq<OrderLine>, catalog: map<int, real>,
                      rows: seq<ApplicableRow>, discounts: map<int, Discount>): real
    requires LinesInCatalog(lines, catalog)
  {
    if |lines| == 0 then 0.0
    else CatalogLineAmount(lines[0], catalog, rows, discounts) + CatalogSum(lines[1..], catalog, rows, discounts)
  }

  lemma {:induction false} CatalogSumAppend(a: seq<OrderLine>, b: seq<OrderLine>, catalog: map<int, real>,
                                            rows: seq<ApplicableRow>, discounts: map<int, Discount>)
    requires LinesInCatalog(a, catalog) && LinesInCatalog(b, catalog)
    ensures LinesInCatalog(a + b, catalog)
    ensures CatalogSum(a + b, catalog, rows, discounts)
            == CatalogSum(a, catalog, rows, discounts) + CatalogSum(b, catalog, rows, discounts)
    decreases |a|
  {
    if |a| == 0 {
      assert a + b == b;
    } else {
      assert (a + b)[1..] == a[1..] + b;
      CatalogSumAppend(a[1..], b, catalog, rows, discounts);
    }
  }

  /** Removing lines splits the reference total between the lines that stay
      and the lines that go. */
  lemma {:induction false} CatalogSumPartition(lines: seq<OrderLine>, ids: set<int>, catalog: map<int, real>,
                                               rows: seq<ApplicableRow>, discounts: map<int, Discount>)
    requires LinesInCatalog(lines, catalog)
    ensures LinesInCatalog(Remaining(lines, ids), catalog) && LinesInCatalog(Removed(lines, ids), catalog)
    ensures CatalogSum(lines, catalog, rows, discounts)
            == CatalogSum(Remaining(lines, ids), catalog, rows, discounts)
               + CatalogSum(Removed(lines, ids), catalog, rows, discounts)
  {
    if |lines| > 0 {
      CatalogSumPartition(lines[1..], ids, catalog, rows, discounts);
      var head := [lines[0]];
      var keep := Remaining(lines[1..], ids);
      var drop := Removed(lines[1..], ids);
      if lines[0].menuItemId in ids {
        assert Remaining(lines, ids) == keep;
        assert Removed(lines, ids) == head + drop;
        CatalogSumAppend(head, drop, catalog, rows, discounts);
      } else {
        assert Remaining(lines, ids) == head + keep;
        assert Removed(lines, ids) == drop;
        CatalogSumAppend(head, keep, catalog, rows, discounts);
      }
    }
  }

  /** A list whose every entry is a catalog item at its catalog price. */
  predicate FromCatalog(menuItems: seq<Option<MenuItem>>, catalog: map<int, real>)
  {
    forall i :: 0 <= i < |menuItems| && menuItems[i].Some? ==>
      menuItems[i].value.id in catalog && menuItems[i].value.price == catalog[menuItems[i].value.id]
  }

  /** A price found in such a list is the catalog price. */
  lemma {:induction false} FindPriceFromCatalog(menuItems: seq<Option<MenuItem>>, catalog: map<int, real>, key: int)
    requires FromCatalog(menuItems, catalog)
    ensures FindPrice(menuItems, key).Some? ==> key in catalog && FindPrice(menuItems, key).value == catalog[key]
  {
    if |menuItems| > 0 && menuItems[0].Some? && menuItems[0].value.id != key {
      FindPriceFromCatalog(menuItems[1..], catalog, key);
    }
  }

  /** Over such a list, the pricing loop's sum for lines keyed by menu item
      is the reference total. */
  lemma {:induction false} SumMatchesCatalog(menuItems: seq<Option<MenuItem>>, lines: seq<OrderLine>,
                                             catalog: map<int, real>,
                                             rows: seq<ApplicableRow>, discounts: map<int, Discount>)
    requires FromCatalog(menuItems, catalog)
    requires AllFound(menuItems, MenuItemKeys(lines))
    ensures LinesInCatalog(lines, catalog)
    ensures SumOfLines(menuItems, MenuItemKeys(lines), rows, discounts) == CatalogSum(lines, catalog, rows, discounts)
  {
    var keys := MenuItemKeys(lines);
    forall k | 0 <= k < |lines| ensures lines[k].menuItemId in catalog {
      FindPriceFromCatalog(menuItems, catalog, keys[k].key);
    }
    if |lines| > 0 {
      assert keys[1..] == MenuItemKeys(lines[1..]);
      SumMatchesCatalog(menuItems, lines[1..], catalog, rows, discounts);
      FindPriceFromCatalog(menuItems, catalog, lines[0].menuItemId);
    }
  }

  lemma LineMenuItemsFromCatalog(lines: seq<OrderLine>, catalog: map<int, real>)
    ensures FromCatalog(LineMenuItems(lines, catalog), catalog)
    ensures LinesInCatalog(lines, catalog) ==> AllFound(LineMenuItems(lines, catalog), MenuItemKeys(lines))
  {
    var menuItems := LineMenuItems(lines, catalog);
    if LinesInCatalog(lines, catalog) {
      forall k | 0 <= k < |lines| ensures FindPrice(menuItems, MenuItemKeys(lines)[k].key).Some? {
        assert menuItems[k].value.id == lines[k].menuItemId;
        FindPriceInCatalogList(menuItems, catalog, lines[k].menuItemId);
      }
    }
  }

  /** The total as evidently intended: the pricing loop over the order's
      lines keyed by their menu item. It succeeds exactly when every line's
      menu item exists, and is then the reference total. */
  function IntendedTotal(lines: seq<OrderLine>, catalog: map<int, real>,
                         rows: seq<ApplicableRow>, discounts: map<int, Discount>): (r: Result<real>)
    ensures r.Ok? <==> LinesInCatalog(lines, catalog)
    ensures r.Ok? ==> r.value == CatalogSum(lines, catalog, rows, discounts)
  {
    var menuItems := LineMenuItems(lines, catalog);
    LineMenuItemsFromCatalog(lines, catalog);
    TotalIsSumOfLines(menuItems, MenuItemKeys(lines), rows, discounts);
    if AllFound(menuItems, MenuItemKeys(lines)) then
      SumMatchesCatalog(menuItems, lines, catalog, rows, discounts);
      CalculateTotal(menuItems, MenuItemKeys(lines), rows, discounts)
    else
      CalculateTotal(menuItems, MenuItemKeys(lines), rows, discounts)
  }

  /** An order whose stored total is the total of its lines. */
  predicate Consistent(o: Order, catalog: map<int, real>, rows: seq<ApplicableRow>, discounts: map<int, Discount>)
  {
    IntendedTotal(o.lines, catalog, rows, discounts) == Ok(o.totalPrice)
  }

  /** `createOrder` stores a consistent order: the price it computes over the
      request equals the total of the lines it creates. */
  lemma CreatedOrderIsConsistent(items: seq<OrderItemRequest>, firstLineId: int, catalog: map<int, real>,
                                 rows: seq<ApplicableRow>, discounts: map<int, Discount>)
    requires AllInCatalog(items, catalog)
    ensures CalculateTotal(CatalogItems(items, catalog), RequestKeys(items), rows, discounts)
            == IntendedTotal(NewLines(items, firstLineId), catalog, rows, discounts)
  {
    var lines := NewLines(items, firstLineId);
    var menuItems := CatalogItems(items, catalog);
    assert RequestKeys(items) == MenuItemKeys(lines);
    CreationPricingSucceeds(items, catalog, rows, discounts);
    TotalIsSumOfLines(menuItems, RequestKeys(items), rows, discounts);
    SumMatchesCatalog(menuItems, lines, catalog, rows, discounts);
  }

  // ---------------------------------------------------------------------------
  // The line-editing totals as evidently intended.

  /** Adding items: the lines are appended and the total grows by the price
      of the added lines; a missing menu item fails as the foreign key does.
      A consistent order stays consistent. */
  function CorrectedAddItems(o: Order, items: seq<OrderItemRequest>, firstLineId: int, catalog: map<int, real>,
                             rows: seq<ApplicableRow>, discounts: map<int, Discount>): (r: Result<Order>)
    ensures r.Ok? <==> AllInCatalog(items, catalog)
    ensures r.Err? ==> r.error == InternalError
    ensures r.Ok? ==> r.value == o.(lines := r.value.lines, totalPrice := r.value.totalPrice)
                      && r.value.lines == o.lines + NewLines(items, firstLineId)
    ensures r.Ok? && Consistent(o, catalog, rows, discounts) ==> Consistent(r.value, catalog, rows, discounts)
  {
    if !AllInCatalog(items, catalog) then Err(InternalError)
    else
      var added := NewLines(items, firstLineId);
      assert LinesInCatalog(added, catalog);
      var t := IntendedTotal(added, catalog, rows, discounts).value;
      if IntendedTotal(o.lines, catalog, rows, discounts).Ok? then
        CatalogSumAppend(o.lines, added, catalog, rows, discounts);
        Ok(o.(lines := o.lines + added, totalPrice := o.totalPrice + t))
      else
        Ok(o.(lines := o.lines + added, totalPrice := o.totalPrice + t))
  }

  /** Removing items: the listed lines go and the total shrinks by their
      price. A consistent order stays consistent. */
  function CorrectedRemoveItems(o: Order, ids: set<int>, catalog: map<int, real>,
                                rows: seq<ApplicableRow>, discounts: map<int, Discount>): (r: Result<Order>)
    ensures r.Err? ==> r.error == InternalError
    ensures r.Ok? ==> r.value == o.(lines := Remaining(o.lines, ids), totalPrice := r.value.totalPrice)
    ensures Consistent(o, catalog, rows, discounts) ==> r.Ok? && Consistent(r.value, catalog, rows, discounts)
  {
    RemovalKeepsConsistency(o, ids, catalog, rows, discounts);
    match IntendedTotal(Removed(o.lines, ids), catalog, rows, discounts)
    case Err(_) => Err(InternalError)
    case Ok(t) => Ok(o.(lines := Remaining(o.lines, ids), totalPrice := o.totalPrice - t))
  }

  lemma RemovalKeepsConsistency(o: Order, ids: set<int>, catalog: map<int, real>,
                                rows: seq<ApplicableRow>, discounts: map<int, Discount>)
    ensures Consistent(o, catalog, rows, discounts) ==>
              var removed := IntendedTotal(Removed(o.lines, ids), catalog, rows, discounts);
              && removed.Ok?
              && IntendedTotal(Remaining(o.lines, ids), catalog, rows, discounts) == Ok(o.totalPrice - removed.value)
  {
    if Consistent(o, catalog, rows, discounts) {
      CatalogSumPartition(o.lines, ids, catalog, rows, discounts);
    }
  }

  // ---------------------------------------------------------------------------
  // Inputs on which the code as written departs from the intent.

  function Blank(userId: int, lines: seq<OrderLine>, total: real): Order
  {
    Order(userId, lines, total, Pending, "Pending", OrderDetails(None, None, None, None, None, None, None))
  }

  /** With no discount, lines priced 10 and 5 give 15 (here the line ids
      happen to equal the menu item ids, so the lookup by line id works). */
  lemma TwoLineTotal()
    ensures var lines := [OrderLine(1, 1, 1), OrderLine(2, 2, 1)];
            && RecomputeAsWritten(lines, map[1 := 10.0, 2 := 5.0], [], map[]) == Ok(15.0)
            && IntendedTotal(lines, map[1 := 10.0, 2 := 5.0], [], map[]) == Ok(15.0)
  {
    var lines := [OrderLine(1, 1, 1), OrderLine(2, 2, 1)];
    var catalog := map[1 := 10.0, 2 := 5.0];
    assert RecordKeys(lines) == MenuItemKeys(lines);
    assert LinesInCatalog(lines, catalog);
    assert IntendedTotal(lines, catalog, [], map[])
           == CalculateTotal(LineMenuItems(lines, catalog), MenuItemKeys(lines), [], map[]);
    assert Fetch([], map[], 1) == [] && Fetch([], map[], 2) == [];
    assert lines[1..][1..] == [];
    assert CatalogSum(lines, catalog, [], map[]) == 15.0;
  }

  /** Adding a 5.0 item to a consistent 10.0 order writes 25.0: the old
      total plus the recomputed total of ALL lines. The intended total is
      15.0. */
  lemma AddItemsDoubleCounts()
    ensures var catalog := map[1 := 10.0, 2 := 5.0];
            var o := Blank(1, [OrderLine(1, 1, 1)], 10.0);
            var items := [OrderItemRequest(2, 1)];
            var lines := o.lines + NewLines(items, 2);
            && Consistent(o, catalog, [], map[])
            && RecomputeAsWritten(lines, catalog, [], map[]).Ok?
            && o.totalPrice + RecomputeAsWritten(lines, catalog, [], map[]).value == 25.0
            && CorrectedAddItems(o, items, 2, catalog, [], map[]) == Ok(o.(lines := lines, totalPrice := 15.0))
  {
    var catalog := map[1 := 10.0, 2 := 5.0];
    var o := Blank(1, [OrderLine(1, 1, 1)], 10.0);
    var items := [OrderItemRequest(2, 1)];
    var lines := o.lines + NewLines(items, 2);
    assert lines == [OrderLine(1, 1, 1), OrderLine(2, 2, 1)];
    TwoLineTotal();
    assert Fetch([], map[], 1) == [];
    assert CatalogSum(o.lines, catalog, [], map[]) == 10.0;
    assert Consistent(o, catalog, [], map[]);
    CatalogSumAppend(o.lines, NewLines(items, 2), catalog, [], map[]);
  }

  /** Removing the 5.0 item from a consistent 15.0 order writes 5.0: the old
      total minus the recomputed total of the REMAINING lines, which is the
      price of what was removed. The intended total is 10.0. */
  lemma RemoveItemsKeepsRemovedPrice()
    ensures var catalog := map[1 := 10.0, 2 := 5.0];
            var o := Blank(1, [OrderLine(1, 1, 1), OrderLine(2, 2, 1)], 15.0);
            var lines := Remaining(o.lines, {2});
            && Consistent(o, catalog, [], map[])
            && lines == [OrderLine(1, 1, 1)]
            && RecomputeAsWritten(lines, catalog, [], map[]) == Ok(10.0)
            && o.totalPrice - 10.0 == 5.0
            && CorrectedRemoveItems(o, {2}, catalog, [], map[]) == Ok(o.(lines := lines, totalPrice := 10.0))
  {
    var catalog := map[1 := 10.0, 2 := 5.0];
    var o := Blank(1, [OrderLine(1, 1, 1), OrderLine(2, 2, 1)], 15.0);
    TwoLineTotal();
    assert o.lines[1..][1..] == [];
    assert Remaining(o.lines, {2}) == [OrderLine(1, 1, 1)];
    assert Removed(o.lines, {2}) == [OrderLine(2, 2, 1)];
    var kept := [OrderLine(1, 1, 1)];
    assert RecordKeys(kept) == MenuItemKeys(kept);
    assert Fetch([], map[], 1) == [] && Fetch([], map[], 2) == [];
    assert CatalogSum(kept, catalog, [], map[]) == 10.0;
    assert CatalogSum([OrderLine(2, 2, 1)], catalog, [], map[]) == 5.0;
  }

  /** A line with id 5 for menu item 1 cannot be repriced as written: the
      lookup is by line id and finds no menu item 5, so `updateOrder` and
      the two other editing operations fail on an ordinary order. Keyed by
      the menu item, the line is priced 10.0. */
  lemma RecomputeKeyedByLineId()
    ensures var lines := [OrderLine(5, 1, 1)];
            && RecomputeAsWritten(lines, map[1 := 10.0], [], map[]) == Err(InternalError)
            && IntendedTotal(lines, map[1 := 10.0], [], map[]) == Ok(10.0)
  {
    var lines := [OrderLine(5, 1, 1)];
    var catalog := map[1 := 10.0];
    var menuItems := LineMenuItems(lines, catalog);
    assert menuItems == [Some(MenuItem(1, 10.0))];
    assert menuItems[1..] == [];
    assert FindPrice(menuItems, RecordKeys(lines)[0].key) == None;
    assert !AllFound(menuItems, RecordKeys(lines));
    TotalIsSumOfLines(menuItems, RecordKeys(lines), [], map[]);
    assert Fetch([], map[], 1) == [];
    assert CatalogSum(lines, catalog, [], map[]) == 10.0;
  }
}
