/** The checkout step: the price quoted for the draft, the course list shown
    for its style, and the pay handler that checks the session, the draft
    and the contact fields before it records the order and clears the draft. */
module Checkout {
  import opened Wrappers
  import opened Seqs
  import opened JsText
  import opened MenuSchema
  import opened MenuRepository
  import opened OrderDraft
  import opened UserStore
  import opened OrderStorage
  import MenuData

  // ---------------------------------------------------------------------
  // Price
  // ---------------------------------------------------------------------

  function Max(a: int, b: int): (m: int)
    ensures m >= a && m >= b && (m == a || m == b)
  {
    if a >= b then a else b
  }

  /** The quantities the page derives from the menu detail and the draft. */
  datatype Quote = Quote(
    basePrice: int,
    extraBreadCount: int,
    extraWineCount: int,
    extraPrice: int,
    totalPrice: int)

  /** The menu detail the page shows: looked up when the draft names a menu
      (a non-empty id), none otherwise. */
  function DetailFor(cat: Catalog, d: OrderDraft): (r: Option<MenuDetail>)
    ensures r.Some? <==> d.dinnerType.Some? && d.dinnerType.value != ""
                         && exists i :: 0 <= i < |cat.menus| && cat.menus[i].id == d.dinnerType.value
    ensures r.Some? ==> r.value.menu.id == d.dinnerType.value
    ensures r.Some? ==> r == MenuDetailOf(cat, d.dinnerType.value)
  {
    match d.dinnerType
    case Some(id) =>
      if id != "" then UnknownMenuIsNull(cat, id); MenuDetailOf(cat, id) else None
    case None => None
  }

  /** Extra bread and wine are the units above the menu's defaults, never
      negative, each charged at the menu's surcharge; the total is the base
      price plus both extras. Without a detail every amount is zero. */
  function QuoteOf(detail: Option<MenuDetail>, d: OrderDraft): (q: Quote)
    ensures q.extraBreadCount >= 0 && q.extraWineCount >= 0
    ensures q.totalPrice == q.basePrice + q.extraPrice
    ensures detail.None? ==> q == Quote(0, 0, 0, 0, 0)
    ensures detail.Some? ==> q.basePrice == detail.value.menu.basePrice
    ensures (detail.Some? && detail.value.extraPrices.extraBreadPrice >= 0
             && detail.value.extraPrices.extraWinePrice >= 0) ==> q.totalPrice >= q.basePrice
  {
    match detail
    case None => Quote(0, 0, 0, 0, 0)
    case Some(m) =>
      var extraBread := Max(d.baguetteCount - m.defaults.bread, 0);
      var extraWine := Max(d.champagneCount - m.defaults.wine, 0);
      var extra := extraBread * m.extraPrices.extraBreadPrice + extraWine * m.extraPrices.extraWinePrice;
      Quote(m.menu.basePrice, extraBread, extraWine, extra, m.menu.basePrice + extra)
  }

  /** The extra amount is the bread surcharge times the bread above the
      default plus the wine surcharge times the wine above the default. */
  lemma ExtraPriceFormula(m: MenuDetail, d: OrderDraft)
    ensures var q := QuoteOf(Some(m), d);
      && q.extraBreadCount == (if d.baguetteCount > m.defaults.bread then d.baguetteCount - m.defaults.bread else 0)
      && q.extraWineCount == (if d.champagneCount > m.defaults.wine then d.champagneCount - m.defaults.wine else 0)
      && q.extraPrice == q.extraBreadCount * m.extraPrices.extraBreadPrice
                         + q.extraWineCount * m.extraPrices.extraWinePrice
  {
  }

  /** The style only picks the courses shown: no amount depends on it. */
  lemma PriceIgnoresStyle(detail: Option<MenuDetail>, d: OrderDraft, s: Style)
    ensures QuoteOf(detail, d.(style := s)) == QuoteOf(detail, d)
  {
  }

  /** Taking at most the default bread and wine costs exactly the base price. */
  lemma DefaultsCostBase(m: MenuDetail, d: OrderDraft)
    requires d.baguetteCount <= m.defaults.bread && d.champagneCount <= m.defaults.wine
    ensures QuoteOf(Some(m), d).totalPrice == m.menu.basePrice
  {
  }

  /** With non-negative surcharges, adding bread never lowers the total. */
  lemma MoreBreadNeverCheaper(m: MenuDetail, d: OrderDraft, more: int)
    requires m.extraPrices.extraBreadPrice >= 0
    requires more >= d.baguetteCount
    ensures QuoteOf(Some(m), d.(baguetteCount := more)).totalPrice >= QuoteOf(Some(m), d).totalPrice
  {
    var a := Max(d.baguetteCount - m.defaults.bread, 0);
    var b := Max(more - m.defaults.bread, 0);
    assert b >= a;
    MulMonotone(b, a, m.extraPrices.extraBreadPrice);
  }

  /** With non-negative surcharges, adding champagne never lowers the total. */
  lemma MoreWineNeverCheaper(m: MenuDetail, d: OrderDraft, more: int)
    requires m.extraPrices.extraWinePrice >= 0
    requires more >= d.champagneCount
    ensures QuoteOf(Some(m), d.(champagneCount := more)).totalPrice >= QuoteOf(Some(m), d).totalPrice
  {
    var a := Max(d.champagneCount - m.defaults.wine, 0);
    var b := Max(more - m.defaults.wine, 0);
    assert b >= a;
    MulMonotone(b, a, m.extraPrices.extraWinePrice);
  }

  lemma MulMonotone(x: int, y: int, c: int)
    requires x >= y && c >= 0
    ensures x * c >= y * c
  {
    assert x * c - y * c == (x - y) * c;
  }

  /** The valentine dinner (base 79000, one bread and one wine included,
      surcharges 3000 and 35000) with three breads and one wine costs 85000. */
  lemma ValentineExample(d: OrderDraft, id: string)
    requires id == "valentine" && d.dinnerType == Some(id)
    requires d.baguetteCount == 3 && d.champagneCount == 1
    ensures QuoteOf(DetailFor(MenuData.Seed, d), d).totalPrice == 85000
  {
    MenuData.MenuIds();
    MenuData.SeedDetail(0);
    assert MenuData.Menus[0].basePrice == 79000;
    assert MenuData.Options[0].defaultBread == 1 && MenuData.Options[0].defaultWine == 1;
  }

  /** `detail?.coursesByStyle[styleKey] ?? []`. */
  function SelectedCourses(detail: Option<MenuDetail>, d: OrderDraft): (r: seq<string>)
    ensures detail.None? ==> r == []
  {
    if detail.Some? && d.style in detail.value.coursesByStyle
    then detail.value.coursesByStyle[d.style] else []
  }

  /** For a resolved menu the list shown is the texts of the menu's course
      rows of the chosen style, stably sorted by course order. */
  lemma SelectedCoursesOfMenu(cat: Catalog, d: OrderDraft)
    requires DetailFor(cat, d).Some?
    ensures exists rows :: StableSortOf(rows, CourseGroup(cat, d.dinnerType.value, d.style))
                           && SelectedCourses(DetailFor(cat, d), d) == Map(rows, TextOf)
  {
    var id := d.dinnerType.value;
    assert DetailFor(cat, d) == MenuDetailOf(cat, id);
    CoursesOfStyle(cat, id, d.style);
  }

  // ---------------------------------------------------------------------
  // Paying
  // ---------------------------------------------------------------------

  /** Why the pay handler stops; each comes with an alert, and all but
      `MissingContact` with a redirect (to log-in, to the menu list, to the
      menu's page, to log-in). */
  datatype PayError = NeedLogin | NoDinner | NoDeliveryDate(menuId: string) | MissingContact | BadAccount

  datatype PayOutcome = Placed(order: Order) | Rejected(reason: PayError)

  /** `user.isGuest ? user.guestId : user.email`, when it is a non-empty string. */
  function OwnerKeyOf(u: AppUser): (r: Option<string>)
    ensures r.Some? ==> r.value != ""
    ensures u.isGuest && r.Some? ==> r == u.guestId
    ensures !u.isGuest && r.Some? ==> r == u.email
    ensures r.None? <==> if u.isGuest then u.guestId.None? || u.guestId.value == ""
                         else u.email.None? || u.email.value == ""
  {
    var key := if u.isGuest then u.guestId else u.email;
    if key.Some? && key.value != "" then key else None
  }

  function OwnerTypeOf(u: AppUser): OwnerType {
    if u.isGuest then Guest else Member
  }

  /** The checks of the pay handler in their order, and on success the order
      it hands to the ledger. */
  function PayCheck(user: Option<AppUser>, d: OrderDraft, detail: Option<MenuDetail>,
                    name: string, phone: string, address: string): (r: Result<OrderInput, PayError>)
  {
    if user.None? then Failure(NeedLogin)
    else if d.dinnerType.None? || d.dinnerType.value == "" || detail.None? then Failure(NoDinner)
    else if d.deliveryDate == "" then Failure(NoDeliveryDate(detail.value.menu.id))
    else if Trim(name) == "" || Trim(phone) == "" || Trim(address) == "" then Failure(MissingContact)
    else match OwnerKeyOf(user.value)
      case None => Failure(BadAccount)
      case Some(key) =>
        var q := QuoteOf(detail, d);
        var item := OrderItem(detail.value.menu.id, d.style, d.baguetteCount, d.champagneCount,
                              q.basePrice, q.extraPrice, q.totalPrice);
        Success(OrderInput(key, OwnerTypeOf(user.value), Trim(name), Trim(address), Trim(phone),
                           d.deliveryDate, [item], q.totalPrice, Requested))
  }

  /** An accepted payment builds the order from the signed-in user, the
      trimmed contact fields, the draft and the quote of its dinner. */
  lemma PayCheckOrder(user: Option<AppUser>, d: OrderDraft, detail: Option<MenuDetail>,
                      name: string, phone: string, address: string)
    ensures var r := PayCheck(user, d, detail, name, phone, address);
      r.Success? ==> var input := r.value; var q := QuoteOf(detail, d);
      && detail.Some? && user.Some?
      && input.status == Requested
      && input.ownerType == OwnerTypeOf(user.value)
      && Some(input.ownerKey) == OwnerKeyOf(user.value)
      && input.customerName == Trim(name) && input.phone == Trim(phone) && input.address == Trim(address)
      && input.customerName != [] && input.phone != [] && input.address != []
      && input.deliveryDate == d.deliveryDate && input.deliveryDate != ""
      && |input.items| == 1
      && input.items[0].dinnerId == detail.value.menu.id
      && input.items[0].style == d.style
      && input.items[0].baguetteCount == d.baguetteCount
      && input.items[0].champagneCount == d.champagneCount
      && input.items[0].basePrice == q.basePrice
      && input.items[0].extraPrice == q.extraPrice
      && input.items[0].totalItemPrice == input.totalPrice == q.totalPrice
  {
  }

  /** The handler goes through to the ledger exactly when there is a user,
      a resolved dinner, a delivery date, non-blank contact fields and an
      owner key; otherwise the reason is the first of these checks that fails. */
  lemma PayPassesExactly(user: Option<AppUser>, d: OrderDraft, detail: Option<MenuDetail>,
                         name: string, phone: string, address: string)
    ensures var r := PayCheck(user, d, detail, name, phone, address);
      var dinner := d.dinnerType.Some? && d.dinnerType.value != "" && detail.Some?;
      var contact := !IsBlank(name) && !IsBlank(phone) && !IsBlank(address);
      && (r.Success? <==> user.Some? && dinner && d.deliveryDate != "" && contact
                          && OwnerKeyOf(user.value).Some?)
      && (r == Failure(NeedLogin) <==> user.None?)
      && (r == Failure(NoDinner) <==> user.Some? && !dinner)
      && (r.Failure? && r.error.NoDeliveryDate? <==> user.Some? && dinner && d.deliveryDate == "")
      && (r == Failure(MissingContact) <==> user.Some? && dinner && d.deliveryDate != "" && !contact)
      && (r == Failure(BadAccount) <==> user.Some? && dinner && d.deliveryDate != "" && contact
                                        && OwnerKeyOf(user.value).None?)
  {
  }

  /** The guard sequence of `handlePay`: each check returns early with its
      reason; past the last one the order to record is assembled. */
  method CheckPay(user: Option<AppUser>, d: OrderDraft, detail: Option<MenuDetail>,
                  name: string, phone: string, address: string) returns (r: Result<OrderInput, PayError>)
    ensures r == PayCheck(user, d, detail, name, phone, address)
  {
    if user.None? {
      return Failure(NeedLogin);
    }
    if d.dinnerType.None? || d.dinnerType.value == "" || detail.None? {
      return Failure(NoDinner);
    }
    if d.deliveryDate == "" {
      return Failure(NoDeliveryDate(detail.value.menu.id));
    }
    if Trim(name) == "" || Trim(phone) == "" || Trim(address) == "" {
      return Failure(MissingContact);
    }
    var key := OwnerKeyOf(user.value);
    if key.None? {
      return Failure(BadAccount);
    }
    var q := QuoteOf(detail, d);
    var item := OrderItem(detail.value.menu.id, d.style, d.baguetteCount, d.champagneCount,
                          q.basePrice, q.extraPrice, q.totalPrice);
    r := Success(OrderInput(key.value, OwnerTypeOf(user.value), Trim(name), Trim(address), Trim(phone),
                            d.deliveryDate, [item], q.totalPrice, Requested));
  }

  /** `handlePay`: runs the checks; only when all pass does it add the order
      to the ledger and reset the draft. A rejection changes neither. */
  method HandlePay(cat: Catalog, session: UserStore, drafts: DraftStore, ledger: OrderLedger,
                   name: string, phone: string, address: string,
                   now: nat, rand: nat, createdAt: string) returns (outcome: PayOutcome)
    modifies drafts, ledger
    ensures var check := PayCheck(session.user, old(drafts.draft), DetailFor(cat, old(drafts.draft)),
                                  name, phone, address);
      match check
      case Failure(e) =>
        outcome == Rejected(e) && ledger.orders == old(ledger.orders) && drafts.draft == old(drafts.draft)
      case Success(input) =>
        && outcome == Placed(NewOrder(input, OrderIdOf(now, rand), createdAt))
        && ledger.orders == old(ledger.orders) + [outcome.order]
        && drafts.draft == InitialDraft
  {
    var d := drafts.draft;
    var detail: Option<MenuDetail> := None;
    if d.dinnerType.Some? && d.dinnerType.value != "" {
      detail := GetMenuDetail(cat, d.dinnerType.value);
    }
    assert detail == DetailFor(cat, d);
    var check := CheckPay(session.user, d, detail, name, phone, address);
    if check.Failure? {
      return Rejected(check.error);
    }
    var order := ledger.AddOrder(check.value, now, rand, createdAt);
    drafts.ResetDraft();
    outcome := Placed(order);
  }

  /** A member's placed order is the newest entry of the member's order list. */
  lemma PlacedMemberOrderIsListed(orders: seq<Order>, user: AppUser, d: OrderDraft,
                                  detail: Option<MenuDetail>, name: string, phone: string,
                                  address: string, orderId: string, createdAt: string)
    requires !user.isGuest
    requires PayCheck(Some(user), d, detail, name, phone, address).Success?
    ensures var order := NewOrder(PayCheck(Some(user), d, detail, name, phone, address).value, orderId, createdAt);
      OrdersByEmail(orders + [order], user.email.value) == OrdersByEmail(orders, user.email.value) + [order]
  {
    var order := NewOrder(PayCheck(Some(user), d, detail, name, phone, address).value, orderId, createdAt);
    AddedMemberOrderListedLast(orders, order);
  }
}
