/** The persisted order ledger: one list of orders, appended to when a
    customer pays, patched in place when an order is edited, and searched by
    order id, by member e-mail and by guest key. */
module OrderStorage {
  import opened Wrappers
  import opened Seqs
  import opened JsText
  import opened MenuSchema
  import Hash

  datatype OrderStatus = Requested | Confirmed | Cooking | Delivered | Cancelled

  /** Members are keyed by e-mail, guests by their guest id. */
  datatype OwnerType = Member | Guest

  /** One dinner line of an order, with the prices as quoted at checkout. */
  datatype OrderItem = OrderItem(
    dinnerId: string,
    style: Style,
    baguetteCount: int,
    champagneCount: int,
    basePrice: int,
    extraPrice: int,
    totalItemPrice: int)

  datatype Order = Order(
    orderId: string,
    ownerKey: string,
    ownerType: OwnerType,
    customerName: string,
    address: string,
    phone: string,
    deliveryDate: string,
    items: seq<OrderItem>,
    totalPrice: int,
    status: OrderStatus,
    createdAt: string)

  /** What the caller of `addOrder` supplies: an order without id and timestamp. */
  datatype OrderInput = OrderInput(
    ownerKey: string,
    ownerType: OwnerType,
    customerName: string,
    address: string,
    phone: string,
    deliveryDate: string,
    items: seq<OrderItem>,
    totalPrice: int,
    status: OrderStatus)

  /** The editable fields of an order; `None` leaves a field as it is. The
      id, the owner and the creation time cannot be patched. */
  datatype OrderPatch = OrderPatch(
    customerName: Option<string>,
    address: Option<string>,
    phone: Option<string>,
    deliveryDate: Option<string>,
    items: Option<seq<OrderItem>>,
    totalPrice: Option<int>,
    status: Option<OrderStatus>)

  const NoChanges := OrderPatch(None, None, None, None, None, None, None)

  // ---------------------------------------------------------------------
  // Order ids
  // ---------------------------------------------------------------------

  /** `generateOrderId()`: `ord-<milliseconds>-<six-digit random number>`, with
      the clock reading `now` and the random draw `rand` as parameters. */
  function OrderIdOf(now: nat, rand: nat): (id: string)
    ensures |id| > 4 && id[..4] == "ord-"
  {
    assert |"ord-"| == 4;
    "ord-" + NatToString(now, 10) + "-" + PadStart(NatToString(rand, 10), 6, '0')
  }

  /** For a draw below 1000000 (all that `Math.floor(Math.random() * 1000000)`
      can produce) the id is `ord-`, the decimal clock reading, `-` and exactly
      six digits reading back as the draw. */
  lemma OrderIdFormat(now: nat, rand: nat)
    requires rand < 1000000
    ensures var id := OrderIdOf(now, rand);
      && |id| >= 12
      && id[|id| - 7] == '-'
      && (forall i :: |id| - 6 <= i < |id| ==> IsDigit(id[i]))
      && ParseNat(id[|id| - 6..], 10) == rand
      && ParseNat(id[4..|id| - 7], 10) == now
  {
    var ts, r6 := NatToString(now, 10), PadStart(NatToString(rand, 10), 6, '0');
    SixDigits(rand, r6);
    ParseNatToString(now, 10);
    IdParts(OrderIdOf(now, rand), ts, r6, now, rand);
  }

  /** The random part: a draw below 1000000, zero-padded, is six digits that
      read back as the draw. */
  lemma SixDigits(rand: nat, r6: string)
    requires rand < 1000000 && r6 == PadStart(NatToString(rand, 10), 6, '0')
    ensures |r6| == 6
    ensures forall i :: 0 <= i < 6 ==> IsDigit(r6[i])
    ensures ParseNat(r6, 10) == rand
  {
    assert Pow(10, 6) == 1000000;
    PaddedDecimal(rand, 6);
  }

  /** Where the parts of `ord-<ts>-<r6>` sit when `r6` is six digits. */
  lemma IdParts(id: string, ts: string, r6: string, now: nat, rand: nat)
    requires id == "ord-" + ts + "-" + r6
    requires |ts| >= 1 && |r6| == 6
    requires forall i :: 0 <= i < 6 ==> IsDigit(r6[i])
    requires ParseNat(r6, 10) == rand && ParseNat(ts, 10) == now
    ensures |id| >= 12
    ensures id[|id| - 7] == '-'
    ensures forall i :: |id| - 6 <= i < |id| ==> IsDigit(id[i])
    ensures ParseNat(id[|id| - 6..], 10) == rand
    ensures ParseNat(id[4..|id| - 7], 10) == now
  {
    assert id[|id| - 6..] == r6;
    assert id[4..|id| - 7] == ts;
    forall i | |id| - 6 <= i < |id| ensures IsDigit(id[i]) {
      assert id[i] == r6[i - (|id| - 6)];
    }
  }

  /** Reads an id of the form `ord-<time>-<draw>` back into its two numbers. */
  function ParseOrderId(id: string): Option<(nat, nat)> {
    if |id| >= 12 && id[|id| - 7] == '-' then Some((ParseNat(id[4..|id| - 7], 10), ParseNat(id[|id| - 6..], 10)))
    else None
  }

  lemma OrderIdReadsBack(now: nat, rand: nat)
    requires rand < 1000000
    ensures ParseOrderId(OrderIdOf(now, rand)) == Some((now, rand))
  {
    OrderIdFormat(now, rand);
  }

  /** Two ids are equal only when both the clock reading and the draw are. */
  lemma OrderIdInjective(now1: nat, rand1: nat, now2: nat, rand2: nat)
    requires rand1 < 1000000 && rand2 < 1000000
    requires OrderIdOf(now1, rand1) == OrderIdOf(now2, rand2)
    ensures now1 == now2 && rand1 == rand2
  {
    OrderIdReadsBack(now1, rand1);
    OrderIdReadsBack(now2, rand2);
  }

  // ---------------------------------------------------------------------
  // Records
  // ---------------------------------------------------------------------

  /** `{ ...input, orderId, createdAt }`. */
  function NewOrder(input: OrderInput, orderId: string, createdAt: string): (o: Order)
    ensures o.orderId == orderId && o.createdAt == createdAt
  {
    Order(orderId, input.ownerKey, input.ownerType, input.customerName, input.address,
      input.phone, input.deliveryDate, input.items, input.totalPrice, input.status, createdAt)
  }

  /** The input is recovered from the stored order: nothing the caller gave is lost. */
  lemma NewOrderKeepsInput(input: OrderInput, orderId: string, createdAt: string)
    ensures var o := NewOrder(input, orderId, createdAt);
      OrderInput(o.ownerKey, o.ownerType, o.customerName, o.address, o.phone,
        o.deliveryDate, o.items, o.totalPrice, o.status) == input
  {
  }

  /** `{ ...order, ...partial }`: the fields the patch carries replace the
      order's; the id, owner and creation time stay. */
  function ApplyPatch(o: Order, p: OrderPatch): (r: Order)
    ensures r.orderId == o.orderId && r.ownerKey == o.ownerKey
    ensures r.ownerType == o.ownerType && r.createdAt == o.createdAt
    ensures p.customerName.Some? ==> r.customerName == p.customerName.value
    ensures p.customerName.None? ==> r.customerName == o.customerName
    ensures p.address.Some? ==> r.address == p.address.value
    ensures p.address.None? ==> r.address == o.address
    ensures p.phone.Some? ==> r.phone == p.phone.value
    ensures p.phone.None? ==> r.phone == o.phone
    ensures p.deliveryDate.Some? ==> r.deliveryDate == p.deliveryDate.value
    ensures p.deliveryDate.None? ==> r.deliveryDate == o.deliveryDate
    ensures p.items.Some? ==> r.items == p.items.value
    ensures p.items.None? ==> r.items == o.items
    ensures p.totalPrice.Some? ==> r.totalPrice == p.totalPrice.value
    ensures p.totalPrice.None? ==> r.totalPrice == o.totalPrice
    ensures p.status.Some? ==> r.status == p.status.value
    ensures p.status.None? ==> r.status == o.status
  {
    o.(customerName := p.customerName.GetOr(o.customerName),
       address := p.address.GetOr(o.address),
       phone := p.phone.GetOr(o.phone),
       deliveryDate := p.deliveryDate.GetOr(o.deliveryDate),
       items := p.items.GetOr(o.items),
       totalPrice := p.totalPrice.GetOr(o.totalPrice),
       status := p.status.GetOr(o.status))
  }

  /** An empty patch changes nothing, and applying a patch twice is applying it once. */
  lemma PatchLaws(o: Order, p: OrderPatch)
    ensures ApplyPatch(o, NoChanges) == o
    ensures ApplyPatch(ApplyPatch(o, p), p) == ApplyPatch(o, p)
  {
  }

  // ---------------------------------------------------------------------
  // Selectors and queries
  // ---------------------------------------------------------------------

  function HasOrderId(orderId: string): Order -> bool { (o: Order) => o.orderId == orderId }

  function MemberOwnedBy(email: string): Order -> bool {
    (o: Order) => o.ownerType == Member && o.ownerKey == email
  }

  function GuestOwnedBy(guestId: string): Order -> bool {
    (o: Order) => o.ownerType == Guest && o.ownerKey == guestId
  }

  /** The token test of `getOrdersByGuestToken`, on an already trimmed token:
      a guest order whose whole key, or whose key's last `-` segment, is the token. */
  function GuestKeyMatches(trimmed: string): Order -> bool {
    (o: Order) => o.ownerType == Guest
                  && (o.ownerKey == trimmed || AfterLast(o.ownerKey, '-') == trimmed)
  }

  /** `getOrderById`: the first order with that id. */
  function OrderById(orders: seq<Order>, orderId: string): (r: Option<Order>)
    ensures r.Some? ==> r.value in orders && r.value.orderId == orderId
    ensures r.Some? ==> exists k :: 0 <= k < |orders| && orders[k] == r.value
                          && forall j :: 0 <= j < k ==> orders[j].orderId != orderId
    ensures r.None? <==> forall i :: 0 <= i < |orders| ==> orders[i].orderId != orderId
  {
    Find(orders, HasOrderId(orderId))
  }

  /** `getOrdersByEmail`. */
  function OrdersByEmail(orders: seq<Order>, email: string): (r: seq<Order>)
    ensures forall i :: 0 <= i < |r| ==> r[i].ownerType == Member && r[i].ownerKey == email
  {
    Filter(orders, MemberOwnedBy(email))
  }

  /** `getOrdersByGuestToken`: the token is trimmed first. */
  function OrdersByGuestToken(orders: seq<Order>, token: string): (r: seq<Order>)
    ensures forall i :: 0 <= i < |r| ==> r[i].ownerType == Guest
  {
    Filter(orders, GuestKeyMatches(Trim(token)))
  }

  /** `getOrdersByGuestId`. */
  function OrdersByGuestId(orders: seq<Order>, guestId: string): (r: seq<Order>)
    ensures forall i :: 0 <= i < |r| ==> r[i].ownerType == Guest && r[i].ownerKey == guestId
  {
    Filter(orders, GuestOwnedBy(guestId))
  }

  // ---------------------------------------------------------------------
  // The ledger
  // ---------------------------------------------------------------------

  /** The stored order list, oldest first. */
  class OrderLedger {
    var orders: seq<Order>

    constructor ()
      ensures orders == []
    {
      orders := [];
    }

    /** `addOrder`: stamps the input with a fresh id and the creation time and
        appends it. */
    method AddOrder(input: OrderInput, now: nat, rand: nat, createdAt: string) returns (order: Order)
      modifies this
      ensures order == NewOrder(input, OrderIdOf(now, rand), createdAt)
      ensures orders == old(orders) + [order]
    {
      order := NewOrder(input, OrderIdOf(now, rand), createdAt);
      orders := orders + [order];
    }

    /** `updateOrder`: patches the first order with that id; an unknown id
        changes nothing and yields none. */
    method UpdateOrder(orderId: string, patch: OrderPatch) returns (r: Option<Order>)
      modifies this
      ensures match FirstIndex(old(orders), HasOrderId(orderId))
        case None => r == None && orders == old(orders)
        case Some(i) => r == Some(ApplyPatch(old(orders)[i], patch))
                        && orders == old(orders)[i := r.value]
    {
      var idx := FirstIndex(orders, HasOrderId(orderId));
      if idx.None? {
        return None;
      }
      var updated := ApplyPatch(orders[idx.value], patch);
      orders := orders[idx.value := updated];
      r := Some(updated);
    }
  }

  // ---------------------------------------------------------------------
  // Properties
  // ---------------------------------------------------------------------

  /** An order appended under an id no stored order has is what a lookup of
      that id finds. */
  lemma AddThenFind(orders: seq<Order>, order: Order)
    requires forall i :: 0 <= i < |orders| ==> orders[i].orderId != order.orderId
    ensures OrderById(orders + [order], order.orderId) == Some(order)
  {
    var all := orders + [order];
    assert all[|orders|] == order;
    FindFirst(all, HasOrderId(order.orderId), |orders|);
  }

  /** Appending an order leaves every earlier lookup that succeeded unchanged. */
  lemma AddKeepsEarlierLookups(orders: seq<Order>, order: Order, orderId: string)
    requires OrderById(orders, orderId).Some?
    ensures OrderById(orders + [order], orderId) == OrderById(orders, orderId)
  {
    var p := HasOrderId(orderId);
    var k :| 0 <= k < |orders| && orders[k] == OrderById(orders, orderId).value && p(orders[k])
             && forall j :: 0 <= j < k ==> !p(orders[j]);
    FindFirst(orders + [order], p, k);
  }

  /** After a successful update the order is found under its id with the
      patch applied; every other position of the list is unchanged. */
  lemma UpdateThenFind(orders: seq<Order>, orderId: string, patch: OrderPatch)
    requires FirstIndex(orders, HasOrderId(orderId)).Some?
    ensures var i := FirstIndex(orders, HasOrderId(orderId)).value;
      OrderById(orders[i := ApplyPatch(orders[i], patch)], orderId)
        == Some(ApplyPatch(orders[i], patch))
  {
    var i := FirstIndex(orders, HasOrderId(orderId)).value;
    FindFirst(orders[i := ApplyPatch(orders[i], patch)], HasOrderId(orderId), i);
  }

  /** The member list holds exactly the stored member orders of that e-mail. */
  lemma OrdersByEmailExact(orders: seq<Order>, email: string, o: Order)
    ensures o in OrdersByEmail(orders, email)
            <==> o in orders && o.ownerType == Member && o.ownerKey == email
  {
    FilterMember(orders, MemberOwnedBy(email), o);
  }

  /** The guest-id list holds exactly the stored guest orders under that id. */
  lemma OrdersByGuestIdExact(orders: seq<Order>, guestId: string, o: Order)
    ensures o in OrdersByGuestId(orders, guestId)
            <==> o in orders && o.ownerType == Guest && o.ownerKey == guestId
  {
    FilterMember(orders, GuestOwnedBy(guestId), o);
  }

  /** The token search finds exactly the stored guest orders whose key, or
      whose key's last segment, equals the trimmed token; member orders never. */
  lemma OrdersByGuestTokenExact(orders: seq<Order>, token: string, o: Order)
    ensures o in OrdersByGuestToken(orders, token)
            <==> o in orders && o.ownerType == Guest
                 && (o.ownerKey == Trim(token) || AfterLast(o.ownerKey, '-') == Trim(token))
  {
    FilterMember(orders, GuestKeyMatches(Trim(token)), o);
  }

  /** A new member order is the last entry of its owner's list; the older
      entries keep their order. */
  lemma AddedMemberOrderListedLast(orders: seq<Order>, order: Order)
    requires order.ownerType == Member
    ensures OrdersByEmail(orders + [order], order.ownerKey)
            == OrdersByEmail(orders, order.ownerKey) + [order]
  {
    var p := MemberOwnedBy(order.ownerKey);
    FilterAppend(orders, [order], p);
    assert Filter([order], p) == [order] by {
      assert [order][1..] == [];
    }
  }

  /** A guest who types the last eight digits of their phone number, with or
      without surrounding blanks, finds every order placed under the guest id
      of that number. */
  lemma PhoneDigitsFindGuestOrder(orders: seq<Order>, o: Order, phone: string, token: string)
    requires o in orders && o.ownerType == Guest && o.ownerKey == Hash.GuestIdOf(phone)
    requires Trim(token) == TakeLast(KeepDigits(phone), 8)
    ensures o in OrdersByGuestToken(orders, token)
  {
    Hash.GuestIdKey(phone);
    OrdersByGuestTokenExact(orders, token, o);
  }

  /** The key format `guest-<hash>-<last 8 digits>`: the token made of the
      last segment finds the order. */
  lemma GuestTokenExample(o: Order, orders: seq<Order>, token: string)
    requires o.ownerKey == "guest-ab12cd34-87654321" && o.ownerType == Guest && o in orders
    requires token == "87654321"
    ensures o in OrdersByGuestToken(orders, token)
  {
    var head := "guest-ab12cd34";
    var key := head + "-" + token;
    assert o.ownerKey == key by {
      assert |key| == 23;
      assert forall i :: 0 <= i < 23 ==> key[i] == o.ownerKey[i];
    }
    assert AfterLast(o.ownerKey, '-') == token by {
      assert o.ownerKey == head + ['-'] + token;
      assert '-' !in token;
      AfterLastOfJoin(head, '-', token);
    }
    assert Trim(token) == token by {
      TrimDigits(token);
    }
    OrdersByGuestTokenExact(orders, token, o);
  }
}
