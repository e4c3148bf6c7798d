/** The in-memory order list of a session, kept beside the persisted ledger:
    orders are drafts stamped with an id, a status and a creation time. */
module OrderStore {
  import opened Seqs
  import opened JsText
  import opened OrderDraft

  datatype SessionStatus = Pending | Preparing | Delivering | Completed

  /** A draft with `id`, `status` and `createdAt` added. */
  datatype SessionOrder = SessionOrder(
    draft: OrderDraft,
    id: string,
    status: SessionStatus,
    createdAt: string)

  /** `ORD-<milliseconds>`. */
  function SessionOrderId(now: nat): (id: string)
    ensures |id| > 4 && id[..4] == "ORD-"
    ensures ParseNat(id[4..], 10) == now
  {
    var digits := NatToString(now, 10);
    ParseNatToString(now, 10);
    assert ("ORD-" + digits)[4..] == digits;
    "ORD-" + digits
  }

  /** The status change `updateStatus` applies to one order. */
  function WithStatus(id: string, status: SessionStatus): SessionOrder -> SessionOrder {
    (o: SessionOrder) => if o.id == id then o.(status := status) else o
  }

  function CustomerIs(name: string): SessionOrder -> bool {
    (o: SessionOrder) => o.draft.customerName == name
  }

  /** `getOrdersByCustomer(name)`. */
  function OrdersByCustomer(orders: seq<SessionOrder>, name: string): (r: seq<SessionOrder>)
    ensures forall i :: 0 <= i < |r| ==> r[i].draft.customerName == name
  {
    Filter(orders, CustomerIs(name))
  }

  /** The customer's list holds exactly the stored orders under that name. */
  lemma OrdersByCustomerExact(orders: seq<SessionOrder>, name: string, o: SessionOrder)
    ensures o in OrdersByCustomer(orders, name) <==> o in orders && o.draft.customerName == name
  {
    FilterMember(orders, CustomerIs(name), o);
  }

  class SessionOrders {
    var orders: seq<SessionOrder>

    constructor ()
      ensures orders == []
    {
      orders := [];
    }

    /** `createOrder(draft)`: a pending order stamped with the clock reading. */
    method CreateOrder(draft: OrderDraft, now: nat, createdAt: string) returns (order: SessionOrder)
      modifies this
      ensures order == SessionOrder(draft, SessionOrderId(now), Pending, createdAt)
      ensures orders == old(orders) + [order]
    {
      order := SessionOrder(draft, SessionOrderId(now), Pending, createdAt);
      orders := orders + [order];
    }

    /** `updateStatus(id, status)`: every order carrying that id gets the
        status; the list keeps its length and order. */
    method UpdateStatus(id: string, status: SessionStatus)
      modifies this
      ensures |orders| == |old(orders)|
      ensures forall i :: 0 <= i < |orders| ==>
        orders[i] == if old(orders)[i].id == id then old(orders)[i].(status := status) else old(orders)[i]
    {
      orders := Map(orders, WithStatus(id, status));
    }
  }

  /** A status change never moves an order into or out of a customer's list:
      the list is the old one with the status applied. */
  lemma {:induction false} StatusKeepsCustomerLists(orders: seq<SessionOrder>, id: string,
                                                    status: SessionStatus, name: string)
    ensures OrdersByCustomer(Map(orders, WithStatus(id, status)), name)
            == Map(OrdersByCustomer(orders, name), WithStatus(id, status))
  {
    if orders != [] {
      var f := WithStatus(id, status);
      assert Map(orders, f)[1..] == Map(orders[1..], f);
      StatusKeepsCustomerLists(orders[1..], id, status, name);
    }
  }

  /** A status change for an id no order carries leaves the list as it was. */
  lemma UnknownIdKeepsOrders(orders: seq<SessionOrder>, id: string, status: SessionStatus)
    requires forall i :: 0 <= i < |orders| ==> orders[i].id != id
    ensures Map(orders, WithStatus(id, status)) == orders
  {
  }

  /** Orders created in different milliseconds get different ids. */
  lemma SessionIdsDiffer(now1: nat, now2: nat)
    requires now1 != now2
    ensures SessionOrderId(now1) != SessionOrderId(now2)
  {
  }
}
