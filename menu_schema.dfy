/** The catalog's row types: five normalized tables keyed by menu id. */
module MenuSchema {

  /** Serving style; also the draft's style key. */
  datatype Style = Simple | Grand | Deluxe

  /** Menu master row. Prices are whole won. */
  datatype MenuRow = MenuRow(
    id: string,
    name: string,
    eng: string,
    image: string,
    basePrice: int,
    description: string)

  /** Per-menu defaults for bread, wine and style. */
  datatype MenuOptionRow = MenuOptionRow(
    menuId: string,
    defaultBread: int,
    defaultWine: int,
    defaultStyle: Style)

  /** Label and description of one style of one menu. */
  datatype MenuStyleRow = MenuStyleRow(
    menuId: string,
    style: Style,
    displayLabel: string,  // the source field `label`
    description: string)

  /** One course line of one style of one menu; `order` is 1, 2, 3, ... */
  datatype MenuCourseRow = MenuCourseRow(
    menuId: string,
    style: Style,
    order: int,
    text: string)

  /** Per-menu surcharge for one extra bread and one extra bottle of wine. */
  datatype MenuExtraPriceRow = MenuExtraPriceRow(
    menuId: string,
    extraBreadPrice: int,
    extraWinePrice: int)

  /** The five tables the resolver joins. */
  datatype Catalog = Catalog(
    menus: seq<MenuRow>,
    options: seq<MenuOptionRow>,
    styles: seq<MenuStyleRow>,
    courses: seq<MenuCourseRow>,
    extraPrices: seq<MenuExtraPriceRow>)

  // Row selectors: the `row.menuId === menuId` style comparisons of the joins.

  function MenuHasId(id: string): MenuRow -> bool { (m: MenuRow) => m.id == id }
  function OptionFor(id: string): MenuOptionRow -> bool { (o: MenuOptionRow) => o.menuId == id }
  function StyleRowFor(id: string): MenuStyleRow -> bool { (s: MenuStyleRow) => s.menuId == id }
  function CourseFor(id: string): MenuCourseRow -> bool { (c: MenuCourseRow) => c.menuId == id }
  function ExtraFor(id: string): MenuExtraPriceRow -> bool { (e: MenuExtraPriceRow) => e.menuId == id }
  function HasStyle(style: Style): MenuCourseRow -> bool { (c: MenuCourseRow) => c.style == style }
  function OrderIs(k: int): MenuCourseRow -> bool { (c: MenuCourseRow) => c.order == k }
}
