/** The catalog resolver: joins the five tables into one menu detail view. */
module MenuRepository {
  import opened Wrappers
  import opened Seqs
  import opened MenuSchema

  datatype Defaults = Defaults(bread: int, wine: int, style: Style)

  datatype StyleInfo = StyleInfo(style: Style, displayLabel: string, description: string)

  datatype ExtraPrices = ExtraPrices(extraBreadPrice: int, extraWinePrice: int)

  /** The composed view of one menu. `coursesByStyle` is a record keyed by
      style: every style is a key, and a key may hold an empty list. */
  datatype MenuDetail = MenuDetail(
    menu: MenuRow,
    defaults: Defaults,
    styles: seq<StyleInfo>,
    coursesByStyle: map<Style, seq<string>>,
    extraPrices: ExtraPrices)

  const AllStyles: set<Style> := {Simple, Grand, Deluxe}

  // ---------------------------------------------------------------------
  // `rows.sort((a, b) => a.order - b.order)`: the runtime's sort is stable,
  // so it is modelled by a stable insertion sort on `order`.
  // ---------------------------------------------------------------------

  predicate SortedByOrder(rows: seq<MenuCourseRow>) {
    forall i, j :: 0 <= i < j < |rows| ==> rows[i].order <= rows[j].order
  }

  /** Puts `x` before the first row whose order is not smaller than its own. */
  function Insert(x: MenuCourseRow, rows: seq<MenuCourseRow>): (r: seq<MenuCourseRow>)
    ensures multiset(r) == multiset(rows) + multiset{x}
  {
    if rows == [] || x.order <= rows[0].order then [x] + rows
    else
      assert rows == [rows[0]] + rows[1..];
      [rows[0]] + Insert(x, rows[1..])
  }

  /** A bound below `x` and every row is a bound below the result of the insertion. */
  lemma {:induction false} InsertBound(x: MenuCourseRow, rows: seq<MenuCourseRow>, b: int)
    requires x.order >= b
    requires forall i :: 0 <= i < |rows| ==> rows[i].order >= b
    ensures forall i :: 0 <= i < |Insert(x, rows)| ==> Insert(x, rows)[i].order >= b
  {
    if rows != [] && x.order > rows[0].order {
      InsertBound(x, rows[1..], b);
    }
  }

  /** Inserting into an ordered list keeps it ordered. */
  lemma {:induction false} InsertSorted(x: MenuCourseRow, rows: seq<MenuCourseRow>)
    requires SortedByOrder(rows)
    ensures SortedByOrder(Insert(x, rows))
  {
    if rows != [] && x.order > rows[0].order {
      var rest := Insert(x, rows[1..]);
      InsertSorted(x, rows[1..]);
      InsertBound(x, rows[1..], rows[0].order);
      assert Insert(x, rows) == [rows[0]] + rest;
    }
  }

  function SortByOrder(rows: seq<MenuCourseRow>): (r: seq<MenuCourseRow>)
    ensures SortedByOrder(r)
    ensures multiset(r) == multiset(rows)
  {
    if rows == [] then []
    else
      assert rows == [rows[0]] + rows[1..];
      var rest := SortByOrder(rows[1..]);
      InsertSorted(rows[0], rest);
      Insert(rows[0], rest)
  }

  /** Inserting then filtering is filtering then inserting (if `x` survives). */
  lemma {:induction false} FilterInsert(x: MenuCourseRow, rows: seq<MenuCourseRow>, p: MenuCourseRow -> bool)
    requires SortedByOrder(rows)
    ensures Filter(Insert(x, rows), p) == if p(x) then Insert(x, Filter(rows, p)) else Filter(rows, p)
  {
    if rows == [] || x.order <= rows[0].order {
      assert Insert(x, rows) == [x] + rows;
      assert ([x] + rows)[1..] == rows;
      var f := Filter(rows, p);
      if p(x) && f != [] {
        FilterMember(rows, p, f[0]);
      }
    } else {
      FilterInsert(x, rows[1..], p);
      assert Insert(x, rows) == [rows[0]] + Insert(x, rows[1..]);
      assert ([rows[0]] + Insert(x, rows[1..]))[1..] == Insert(x, rows[1..]);
    }
  }

  /** Sorting commutes with filtering: selecting rows from the sorted list
      gives the sorted selection. */
  lemma {:induction false} FilterSort(rows: seq<MenuCourseRow>, p: MenuCourseRow -> bool)
    ensures Filter(SortByOrder(rows), p) == SortByOrder(Filter(rows, p))
  {
    if rows != [] {
      FilterSort(rows[1..], p);
      FilterInsert(rows[0], SortByOrder(rows[1..]), p);
    }
  }

  /** A list already in order is left as it is. */
  lemma {:induction false} SortOfSorted(rows: seq<MenuCourseRow>)
    requires SortedByOrder(rows)
    ensures SortByOrder(rows) == rows
  {
    if rows != [] {
      SortOfSorted(rows[1..]);
      assert rows == [rows[0]] + rows[1..];
    }
  }

  /** The sort is stable: rows with equal `order` keep their relative order. */
  lemma SortStable(rows: seq<MenuCourseRow>, k: int)
    ensures Filter(SortByOrder(rows), OrderIs(k)) == Filter(rows, OrderIs(k))
  {
    FilterSort(rows, OrderIs(k));
    SortOfSorted(Filter(rows, OrderIs(k)));
  }

  // ---------------------------------------------------------------------
  // The joins
  // ---------------------------------------------------------------------

  /** `opt?.defaultBread ?? 1`, `opt?.defaultWine ?? 0`, `opt?.defaultStyle ?? "simple"`. */
  function DefaultsFrom(opt: Option<MenuOptionRow>): Defaults {
    match opt
    case None => Defaults(1, 0, Simple)
    case Some(o) => Defaults(o.defaultBread, o.defaultWine, o.defaultStyle)
  }

  /** `extra?.extraBreadPrice ?? 0`, `extra?.extraWinePrice ?? 0`. */
  function ExtraPricesFrom(extra: Option<MenuExtraPriceRow>): ExtraPrices {
    match extra
    case None => ExtraPrices(0, 0)
    case Some(e) => ExtraPrices(e.extraBreadPrice, e.extraWinePrice)
  }

  function StyleInfoOf(row: MenuStyleRow): StyleInfo {
    StyleInfo(row.style, row.displayLabel, row.description)
  }

  function TextOf(row: MenuCourseRow): string {
    row.text
  }

  /** The course rows of menu `id` with style `s`, in declaration order. */
  function CourseGroup(cat: Catalog, id: string, s: Style): seq<MenuCourseRow> {
    Filter(Filter(cat.courses, CourseFor(id)), HasStyle(s))
  }

  /** The course texts of menu `id` with style `s`, ascending by order. */
  function SortedTexts(cat: Catalog, id: string, s: Style): seq<string> {
    Map(SortByOrder(CourseGroup(cat, id, s)), TextOf)
  }

  /** The `coursesByStyle` record: every style is a key. */
  function CoursesByStyleOf(cat: Catalog, id: string): map<Style, seq<string>> {
    map[Simple := SortedTexts(cat, id, Simple),
        Grand := SortedTexts(cat, id, Grand),
        Deluxe := SortedTexts(cat, id, Deluxe)]
  }

  /** What `getMenuDetail` returns: nothing for an unknown id; otherwise the
      first menu row with that id, the first option row (or the defaults),
      the menu's style rows, per style the menu's course texts ascending by
      order, and the first extra-price row (or zero prices). */
  function MenuDetailOf(cat: Catalog, id: string): Option<MenuDetail> {
    match Find(cat.menus, MenuHasId(id))
    case None => None
    case Some(menu) =>
      Some(MenuDetail(
        menu,
        DefaultsFrom(Find(cat.options, OptionFor(id))),
        Map(Filter(cat.styles, StyleRowFor(id)), StyleInfoOf),
        CoursesByStyleOf(cat, id),
        ExtraPricesFrom(Find(cat.extraPrices, ExtraFor(id)))))
  }

  /** `getMenuDetail(menuId)`: filters the menu's course rows, sorts them by
      order and pushes each text onto the list of its style. */
  method GetMenuDetail(cat: Catalog, menuId: string) returns (r: Option<MenuDetail>)
    ensures r == MenuDetailOf(cat, menuId)
  {
    var menu := Find(cat.menus, MenuHasId(menuId));
    if menu.None? {
      return None;
    }
    var opt := Find(cat.options, OptionFor(menuId));
    var styles := Filter(cat.styles, StyleRowFor(menuId));
    var courses := Filter(cat.courses, CourseFor(menuId));
    var extra := Find(cat.extraPrices, ExtraFor(menuId));

    var coursesByStyle := GroupByStyle(SortByOrder(courses));
    GroupOfSorted(cat, menuId, Simple);
    GroupOfSorted(cat, menuId, Grand);
    GroupOfSorted(cat, menuId, Deluxe);
    r := Some(MenuDetail(
      menu.value,
      DefaultsFrom(opt),
      Map(styles, StyleInfoOf),
      coursesByStyle,
      ExtraPricesFrom(extra)));
  }

  /** The loop of `getMenuDetail`: starting from an empty list per style,
      pushes each row's text onto the list of its style. */
  method GroupByStyle(sorted: seq<MenuCourseRow>) returns (coursesByStyle: map<Style, seq<string>>)
    ensures coursesByStyle == map[Simple := TextsOfStyle(sorted, Simple),
                                  Grand := TextsOfStyle(sorted, Grand),
                                  Deluxe := TextsOfStyle(sorted, Deluxe)]
  {
    coursesByStyle := map[Simple := [], Grand := [], Deluxe := []];
    for i := 0 to |sorted|
      invariant coursesByStyle.Keys == AllStyles
      invariant coursesByStyle[Simple] == TextsOfStyle(sorted[..i], Simple)
      invariant coursesByStyle[Grand] == TextsOfStyle(sorted[..i], Grand)
      invariant coursesByStyle[Deluxe] == TextsOfStyle(sorted[..i], Deluxe)
    {
      var c := sorted[i];
      PushStep(sorted, i, Simple);
      PushStep(sorted, i, Grand);
      PushStep(sorted, i, Deluxe);
      coursesByStyle := coursesByStyle[c.style := coursesByStyle[c.style] + [c.text]];
    }
    assert sorted[..|sorted|] == sorted;
  }

  /** The texts of the rows of style `s`, in the order given. */
  function TextsOfStyle(rows: seq<MenuCourseRow>, s: Style): seq<string> {
    Map(Filter(rows, HasStyle(s)), TextOf)
  }

  /** Picking one style out of the menu's sorted rows gives that style's sorted texts. */
  lemma GroupOfSorted(cat: Catalog, id: string, s: Style)
    ensures TextsOfStyle(SortByOrder(Filter(cat.courses, CourseFor(id))), s) == SortedTexts(cat, id, s)
  {
    FilterSort(Filter(cat.courses, CourseFor(id)), HasStyle(s));
  }

  /** Pushing row `i` of the sorted list extends exactly the list of its style. */
  lemma PushStep(sorted: seq<MenuCourseRow>, i: nat, s: Style)
    requires i < |sorted|
    ensures TextsOfStyle(sorted[..i + 1], s)
            == TextsOfStyle(sorted[..i], s) + (if sorted[i].style == s then [sorted[i].text] else [])
  {
    var c := sorted[i];
    assert sorted[..i + 1] == sorted[..i] + [c];
    FilterAppend(sorted[..i], [c], HasStyle(s));
    MapAppend(Filter(sorted[..i], HasStyle(s)), Filter([c], HasStyle(s)), TextOf);
  }

  // ---------------------------------------------------------------------
  // What the resolver promises
  // ---------------------------------------------------------------------

  /** Only an id that no menu row carries resolves to nothing. */
  lemma UnknownMenuIsNull(cat: Catalog, id: string)
    ensures MenuDetailOf(cat, id).None? <==> forall i :: 0 <= i < |cat.menus| ==> cat.menus[i].id != id
  {
  }

  /** A resolved detail shows the first menu row carrying the id, and its
      `coursesByStyle` has exactly the three style keys. */
  lemma FoundMenu(cat: Catalog, id: string, k: nat)
    requires k < |cat.menus| && cat.menus[k].id == id
    requires forall j :: 0 <= j < k ==> cat.menus[j].id != id
    ensures MenuDetailOf(cat, id).Some?
    ensures MenuDetailOf(cat, id).value.menu == cat.menus[k]
    ensures MenuDetailOf(cat, id).value.coursesByStyle.Keys == AllStyles
  {
    FindFirst(cat.menus, MenuHasId(id), k);
  }

  /** Without an option row the defaults are one bread, no wine and the
      simple style. */
  lemma DefaultsWithoutOptionRow(cat: Catalog, id: string)
    requires MenuDetailOf(cat, id).Some?
    requires forall i :: 0 <= i < |cat.options| ==> cat.options[i].menuId != id
    ensures MenuDetailOf(cat, id).value.defaults == Defaults(1, 0, Simple)
  {
  }

  /** With option rows, the defaults are those of the first one for the menu. */
  lemma DefaultsFromFirstOptionRow(cat: Catalog, id: string, k: nat)
    requires MenuDetailOf(cat, id).Some?
    requires k < |cat.options| && cat.options[k].menuId == id
    requires forall j :: 0 <= j < k ==> cat.options[j].menuId != id
    ensures var o := cat.options[k];
            MenuDetailOf(cat, id).value.defaults == Defaults(o.defaultBread, o.defaultWine, o.defaultStyle)
  {
    FindFirst(cat.options, OptionFor(id), k);
  }

  /** Without an extra-price row both surcharges are zero. */
  lemma ExtraPricesWithoutRow(cat: Catalog, id: string)
    requires MenuDetailOf(cat, id).Some?
    requires forall i :: 0 <= i < |cat.extraPrices| ==> cat.extraPrices[i].menuId != id
    ensures MenuDetailOf(cat, id).value.extraPrices == ExtraPrices(0, 0)
  {
  }

  /** With extra-price rows, the surcharges are those of the first one for the menu. */
  lemma ExtraPricesFromFirstRow(cat: Catalog, id: string, k: nat)
    requires MenuDetailOf(cat, id).Some?
    requires k < |cat.extraPrices| && cat.extraPrices[k].menuId == id
    requires forall j :: 0 <= j < k ==> cat.extraPrices[j].menuId != id
    ensures var e := cat.extraPrices[k];
            MenuDetailOf(cat, id).value.extraPrices == ExtraPrices(e.extraBreadPrice, e.extraWinePrice)
  {
    FindFirst(cat.extraPrices, ExtraFor(id), k);
  }

  /** The style list projects exactly the menu's style rows: a row of another
      menu adds nothing, and a row of this menu appended to the table is
      appended to the list. */
  lemma {:induction false} StylesFollowTable(cat: Catalog, id: string, row: MenuStyleRow)
    requires MenuDetailOf(cat, id).Some?
    ensures var cat' := cat.(styles := cat.styles + [row]);
            MenuDetailOf(cat', id).value.styles
              == MenuDetailOf(cat, id).value.styles + (if row.menuId == id then [StyleInfoOf(row)] else [])
  {
    FilterAppend(cat.styles, [row], StyleRowFor(id));
    MapAppend(Filter(cat.styles, StyleRowFor(id)), Filter([row], StyleRowFor(id)), StyleInfoOf);
  }

  /** Every listed style comes from a style row of this menu, and every such row is listed. */
  lemma StylesAreTheMenusRows(cat: Catalog, id: string)
    requires MenuDetailOf(cat, id).Some?
    ensures forall r :: r in cat.styles && r.menuId == id ==> StyleInfoOf(r) in MenuDetailOf(cat, id).value.styles
    ensures forall i :: 0 <= i < |MenuDetailOf(cat, id).value.styles| ==>
              exists r :: r in cat.styles && r.menuId == id && MenuDetailOf(cat, id).value.styles[i] == StyleInfoOf(r)
  {
    var rows := Filter(cat.styles, StyleRowFor(id));
    forall r | r in cat.styles && r.menuId == id
      ensures StyleInfoOf(r) in MenuDetailOf(cat, id).value.styles
    {
      FilterMember(cat.styles, StyleRowFor(id), r);
      var i :| 0 <= i < |rows| && rows[i] == r;
    }
    forall i | 0 <= i < |rows|
      ensures rows[i] in cat.styles && rows[i].menuId == id
    {
      FilterMember(cat.styles, StyleRowFor(id), rows[i]);
    }
  }

  /** A course row belongs to the group of (menu, style) exactly when it is
      in the table with that menu id and that style. */
  lemma CourseGroupMember(cat: Catalog, id: string, s: Style, c: MenuCourseRow)
    ensures c in CourseGroup(cat, id, s) <==> c in cat.courses && c.menuId == id && c.style == s
  {
    FilterMember(cat.courses, CourseFor(id), c);
    FilterMember(Filter(cat.courses, CourseFor(id)), HasStyle(s), c);
  }

  /** `rows` is `input` sorted ascending by order, rows of equal order keeping
      their relative position. */
  ghost predicate StableSortOf(rows: seq<MenuCourseRow>, input: seq<MenuCourseRow>) {
    && SortedByOrder(rows)
    && multiset(rows) == multiset(input)
    && forall k :: Filter(rows, OrderIs(k)) == Filter(input, OrderIs(k))
  }

  /** The sort used for the course list is a stable sort. */
  lemma SortIsStableSort(rows: seq<MenuCourseRow>)
    ensures StableSortOf(SortByOrder(rows), rows)
  {
    forall k ensures Filter(SortByOrder(rows), OrderIs(k)) == Filter(rows, OrderIs(k)) {
      SortStable(rows, k);
    }
  }

  /** `coursesByStyle[s]` is the texts of the menu's rows of style `s`,
      stably sorted by order. */
  lemma CoursesOfStyle(cat: Catalog, id: string, s: Style)
    requires MenuDetailOf(cat, id).Some?
    ensures s in MenuDetailOf(cat, id).value.coursesByStyle
    ensures exists rows :: StableSortOf(rows, CourseGroup(cat, id, s))
                           && MenuDetailOf(cat, id).value.coursesByStyle[s] == Map(rows, TextOf)
  {
    SortIsStableSort(CourseGroup(cat, id, s));
  }

  /** `getAllMenus()`: the menu table as declared. */
  function GetAllMenus(cat: Catalog): (r: seq<MenuRow>)
    ensures r == cat.menus
    ensures forall i :: 0 <= i < |r| ==> MenuDetailOf(cat, r[i].id).Some?
  {
    assert forall i :: 0 <= i < |cat.menus| ==> MenuHasId(cat.menus[i].id)(cat.menus[i]);
    cat.menus
  }
}
