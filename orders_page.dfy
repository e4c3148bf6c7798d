/** The order history page: a member sees the orders of their e-mail, a
    guest looks orders up by guest id; both lists are shown newest first. */
module OrdersPage {
  import opened Wrappers
  import opened Seqs
  import opened JsText
  import opened UserStore
  import opened OrderStorage

  datatype Mode = MemberMode | GuestMode

  /** `memberOrders`: the orders of the signed-in member's e-mail in member
      mode; nothing in guest mode, for nobody, for a guest or without an e-mail. */
  function MemberOrders(mode: Mode, user: Option<AppUser>, orders: seq<Order>): (r: seq<Order>)
    ensures mode == GuestMode || user.None? ==> r == []
    ensures user.Some? && user.value.isGuest ==> r == []
    ensures user.Some? && (user.value.email.None? || user.value.email.value == "") ==> r == []
  {
    if mode != MemberMode then []
    else if user.None? || user.value.isGuest || user.value.email.None? || user.value.email.value == "" then []
    else OrdersByEmail(orders, user.value.email.value)
  }

  /** Exactly the stored member orders of the signed-in member's e-mail are listed. */
  lemma MemberOrdersExact(user: AppUser, orders: seq<Order>, o: Order)
    requires !user.isGuest && user.email.Some? && user.email.value != ""
    ensures o in MemberOrders(MemberMode, Some(user), orders)
            <==> o in orders && o.ownerType == Member && o.ownerKey == user.email.value
  {
    OrdersByEmailExact(orders, user.email.value, o);
  }

  /** `orders.slice().reverse()`: the display order. */
  function NewestFirst(orders: seq<Order>): (r: seq<Order>)
    ensures |r| == |orders|
    ensures forall i :: 0 <= i < |orders| ==> r[i] == orders[|orders| - 1 - i]
  {
    Reverse(orders)
  }

  /** Since orders are only ever appended, the order a member placed last is
      shown first, above everything shown before. */
  lemma LatestOrderShownFirst(orders: seq<Order>, user: AppUser, o: Order)
    requires !user.isGuest && user.email.Some? && user.email.value != ""
    requires o.ownerType == Member && o.ownerKey == user.email.value
    ensures var shown := NewestFirst(MemberOrders(MemberMode, Some(user), orders + [o]));
      shown == [o] + NewestFirst(MemberOrders(MemberMode, Some(user), orders))
  {
    AddedMemberOrderListedLast(orders, o);
    var before := MemberOrders(MemberMode, Some(user), orders);
    var shown := NewestFirst(before + [o]);
    assert shown == [o] + NewestFirst(before);
  }

  /** The page's own state: the tab, the guest id typed, the last guest
      result (none before a search) and whether a search has run. */
  class OrdersView {
    var mode: Mode
    var guestInput: string
    var guestOrders: Option<seq<Order>>
    var guestSearched: bool

    constructor ()
      ensures mode == MemberMode && guestInput == "" && guestOrders == None && !guestSearched
    {
      mode := MemberMode;
      guestInput := "";
      guestOrders := None;
      guestSearched := false;
    }

    /** `handleChangeMode(next)`: switches the tab and clears the guest search. */
    method HandleChangeMode(next: Mode)
      modifies this
      ensures mode == next && guestInput == "" && guestOrders == None && !guestSearched
    {
      mode := next;
      guestInput := "";
      guestOrders := None;
      guestSearched := false;
    }

    /** `handleGuestSearch()`: a blank input only raises an alert; otherwise
        the orders under the trimmed guest id are fetched and the search is
        marked as done. */
    method HandleGuestSearch(ledger: OrderLedger) returns (alerted: bool)
      modifies this
      ensures alerted <==> IsBlank(old(guestInput))
      ensures mode == old(mode) && guestInput == old(guestInput)
      ensures alerted ==> guestOrders == old(guestOrders) && guestSearched == old(guestSearched)
      ensures !alerted ==> guestOrders == Some(OrdersByGuestId(ledger.orders, Trim(guestInput)))
                           && guestSearched
    {
      if Trim(guestInput) == "" {
        return true;
      }
      guestOrders := Some(OrdersByGuestId(ledger.orders, Trim(guestInput)));
      guestSearched := true;
      alerted := false;
    }
  }
}
