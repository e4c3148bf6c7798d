/** The seed tables of the catalog, as declared, and facts about them. */
module MenuData {
  import opened Seqs
  import opened MenuSchema
  import opened MenuRepository

  const Menus: seq<MenuRow> := [
    MenuRow("valentine", "발렌타인 디너", "Valentine Dinner", "/menu/valentine.jpg", 79000,
      "로맨틱한 분위기를 위한 발렌타인 데이 전용 프리미엄 디너 메뉴입니다."),
    MenuRow("french", "프렌치 디너", "French Dinner", "/menu/french.webp", 89000,
      "정통 프렌치 감성을 담은 고급 디너 구성입니다. 깊은 풍미의 스테이크와 와인을 함께 제공합니다."),
    MenuRow("english", "잉글리시 디너", "English Dinner", "/menu/english.jpg", 85000,
      "영국 전통의 디너 스타일로 구성된 세트입니다. 클래식한 Meat & Bread 조합."),
    MenuRow("champagne", "샴페인 축제 디너", "Champagne Festival Dinner", "/menu/champagne.png", 129000,
      "스페셜 이벤트와 기념일을 위한 최상급 샴페인 디너 코스.")
  ]

  const Options: seq<MenuOptionRow> := [
    MenuOptionRow("valentine", 1, 1, Simple),
    MenuOptionRow("french", 2, 1, Simple),
    MenuOptionRow("english", 2, 0, Simple),
    MenuOptionRow("champagne", 2, 1, Grand)
  ]

  // The style table, section by section as declared.
  const ValentineStyles: seq<MenuStyleRow> := [
    MenuStyleRow("valentine", Simple, "SIMPLE", "기본 디너 구성"),
    MenuStyleRow("valentine", Grand, "GRAND", "테이블 데코+와인 업그레이드 구성"),
    MenuStyleRow("valentine", Deluxe, "DELUXE", "풀 세팅 + 프리미엄 와인 구성")
  ]

  const FrenchStyles: seq<MenuStyleRow> := [
    MenuStyleRow("french", Simple, "SIMPLE", "기본 프렌치 디너 구성"),
    MenuStyleRow("french", Grand, "GRAND", "프리미엄 스프 추가 + 와인 한 단계 업그레이드"),
    MenuStyleRow("french", Deluxe, "DELUXE", "전체 코스 업그레이드 + 디저트 추가 구성")
  ]

  const EnglishStyles: seq<MenuStyleRow> := [
    MenuStyleRow("english", Simple, "SIMPLE", "잉글리시 클래식 기본 구성"),
    MenuStyleRow("english", Grand, "GRAND", "디저트 & 음료 업그레이드 구성"),
    MenuStyleRow("english", Deluxe, "DELUXE", "풀코스 업그레이드 + 프리미엄 티 세트 포함")
  ]

  const ChampagneStyles: seq<MenuStyleRow> := [
    MenuStyleRow("champagne", Simple, "SIMPLE", "기본 구성 (샴페인 1병 포함)"),
    MenuStyleRow("champagne", Grand, "GRAND", "샴페인 + 스테이크 업그레이드 구성"),
    MenuStyleRow("champagne", Deluxe, "DELUXE", "전체 구성이 최상급으로 업그레이드된 VIP 디너")
  ]

  /** The style sections in declaration order, one per menu. */
  const StyleSections: seq<seq<MenuStyleRow>> := [ValentineStyles, FrenchStyles, EnglishStyles, ChampagneStyles]

  const StyleRows: seq<MenuStyleRow> := Concat(StyleSections)

  // The course table, section by section as declared.
  const ValentineSimpleCourses: seq<MenuCourseRow> := [
    MenuCourseRow("valentine", Simple, 1, "에피타이저: 시그니처 샐러드"),
    MenuCourseRow("valentine", Simple, 2, "메인: 스테이크 & 바게트"),
    MenuCourseRow("valentine", Simple, 3, "디저트: 미니 케이크")
  ]

  const ValentineGrandCourses: seq<MenuCourseRow> := [
    MenuCourseRow("valentine", Grand, 1, "웰컴 드링크: 스파클링 와인"),
    MenuCourseRow("valentine", Grand, 2, "에피타이저: 연어 카르파치오"),
    MenuCourseRow("valentine", Grand, 3, "메인: 스테이크 & 트러플 매쉬 포테이토"),
    MenuCourseRow("valentine", Grand, 4, "디저트: 하트 모양 케이크")
  ]

  const ValentineDeluxeCourses: seq<MenuCourseRow> := [
    MenuCourseRow("valentine", Deluxe, 1, "샴페인 1잔 + 핑거푸드"),
    MenuCourseRow("valentine", Deluxe, 2, "에피타이저: 푸아그라 & 샐러드"),
    MenuCourseRow("valentine", Deluxe, 3, "메인: 프리미엄 스테이크 풀코스"),
    MenuCourseRow("valentine", Deluxe, 4, "디저트: 셰프 특선 디저트 플레이트")
  ]

  const FrenchSimpleCourses: seq<MenuCourseRow> := [
    MenuCourseRow("french", Simple, 1, "에피타이저: 프렌치 어니언 스프"),
    MenuCourseRow("french", Simple, 2, "메인: 프렌치 스테이크 & 바게트"),
    MenuCourseRow("french", Simple, 3, "디저트: 크렘 브륄레")
  ]

  const FrenchGrandCourses: seq<MenuCourseRow> := [
    MenuCourseRow("french", Grand, 1, "웰컴 와인 서비스"),
    MenuCourseRow("french", Grand, 2, "에피타이저: 프렌치 어니언 스프 + 치즈 플레이트"),
    MenuCourseRow("french", Grand, 3, "메인: 프리미엄 스테이크 & 바게트"),
    MenuCourseRow("french", Grand, 4, "디저트: 마카롱 세트")
  ]

  const FrenchDeluxeCourses: seq<MenuCourseRow> := [
    MenuCourseRow("french", Deluxe, 1, "샴페인 혹은 프리미엄 와인 선택"),
    MenuCourseRow("french", Deluxe, 2, "에피타이저: 카나페 & 스프"),
    MenuCourseRow("french", Deluxe, 3, "메인: 풀코스 프렌치 디너"),
    MenuCourseRow("french", Deluxe, 4, "디저트: 디저트 2종 플래터")
  ]

  const EnglishSimpleCourses: seq<MenuCourseRow> := [
    MenuCourseRow("english", Simple, 1, "메인: 영국식 스테이크"),
    MenuCourseRow("english", Simple, 2, "사이드: 로스트 포테이토"),
    MenuCourseRow("english", Simple, 3, "디저트: 홍차 디저트")
  ]

  const EnglishGrandCourses: seq<MenuCourseRow> := [
    MenuCourseRow("english", Grand, 1, "에피타이저: 토마토 수프"),
    MenuCourseRow("english", Grand, 2, "메인: 영국식 스테이크 & 로스트 포테이토"),
    MenuCourseRow("english", Grand, 3, "디저트: 스콘 & 홍차 세트")
  ]

  const EnglishDeluxeCourses: seq<MenuCourseRow> := [
    MenuCourseRow("english", Deluxe, 1, "에피타이저: 치즈 플래터 & 수프"),
    MenuCourseRow("english", Deluxe, 2, "메인: 프리미엄 영국식 풀코스"),
    MenuCourseRow("english", Deluxe, 3, "디저트: 디저트 & 티 세트")
  ]

  const ChampagneSimpleCourses: seq<MenuCourseRow> := [
    MenuCourseRow("champagne", Simple, 1, "샴페인 1병"),
    MenuCourseRow("champagne", Simple, 2, "메인: 스테이크 & 바게트"),
    MenuCourseRow("champagne", Simple, 3, "디저트: 트러플 디저트")
  ]

  const ChampagneGrandCourses: seq<MenuCourseRow> := [
    MenuCourseRow("champagne", Grand, 1, "샴페인 1병 (업그레이드)"),
    MenuCourseRow("champagne", Grand, 2, "에피타이저: 시그니처 전채 요리"),
    MenuCourseRow("champagne", Grand, 3, "메인: 프리미엄 스테이크 & 바게트"),
    MenuCourseRow("champagne", Grand, 4, "디저트: 트러플 디저트 플레이트")
  ]

  const ChampagneDeluxeCourses: seq<MenuCourseRow> := [
    MenuCourseRow("champagne", Deluxe, 1, "샴페인 2병 또는 동급 와인 선택"),
    MenuCourseRow("champagne", Deluxe, 2, "에피타이저: 셰프 스페셜 2종"),
    MenuCourseRow("champagne", Deluxe, 3, "메인: 최상급 스테이크 풀코스"),
    MenuCourseRow("champagne", Deluxe, 4, "디저트: 프리미엄 디저트 2종 구성")
  ]

  /** The course sections in declaration order: per menu, simple, grand, deluxe. */
  const CourseSections: seq<seq<MenuCourseRow>> := [
    ValentineSimpleCourses, ValentineGrandCourses, ValentineDeluxeCourses,
    FrenchSimpleCourses, FrenchGrandCourses, FrenchDeluxeCourses,
    EnglishSimpleCourses, EnglishGrandCourses, EnglishDeluxeCourses,
    ChampagneSimpleCourses, ChampagneGrandCourses, ChampagneDeluxeCourses
  ]

  const Courses: seq<MenuCourseRow> := Concat(CourseSections)

  const ExtraPrices: seq<MenuExtraPriceRow> := [
    MenuExtraPriceRow("valentine", 3000, 35000),
    MenuExtraPriceRow("french", 3000, 35000),
    MenuExtraPriceRow("english", 3000, 35000),
    MenuExtraPriceRow("champagne", 3000, 35000)
  ]

  /** The catalog the storefront ships with. */
  const Seed: Catalog := Catalog(Menus, Options, StyleRows, Courses, ExtraPrices)

  /** The styles in the order every menu declares its style rows and course groups. */
  const StyleOrder: seq<Style> := [Simple, Grand, Deluxe]

  // ---------------------------------------------------------------------
  // Facts about the seed tables
  // ---------------------------------------------------------------------

  /** Four menus, valentine, french, english and champagne, with distinct ids. */
  lemma MenuIds()
    ensures |Menus| == 4
    ensures Menus[0].id == "valentine" && Menus[1].id == "french"
    ensures Menus[2].id == "english" && Menus[3].id == "champagne"
    ensures forall i, j :: 0 <= i < j < |Menus| ==> Menus[i].id != Menus[j].id
  {
    assert Menus[0].id[0] != Menus[3].id[0];
  }

  /** Every menu has exactly one option row. */
  lemma OneOptionRowPerMenu()
    ensures |Options| == |Menus|
    ensures forall i, k :: 0 <= i < |Menus| && 0 <= k < |Options| ==> (Options[k].menuId == Menus[i].id <==> k == i)
  {
    MenuIds();
    assert forall k :: 0 <= k < |Options| ==> Options[k].menuId == Menus[k].id;
  }

  /** Every menu has exactly one extra-price row, and every row charges 3000
      per extra baguette and 35000 per extra bottle. */
  lemma OneExtraPriceRowPerMenu()
    ensures |ExtraPrices| == |Menus|
    ensures forall i, k :: 0 <= i < |Menus| && 0 <= k < |ExtraPrices| ==> (ExtraPrices[k].menuId == Menus[i].id <==> k == i)
    ensures forall k :: 0 <= k < |ExtraPrices| ==> ExtraPrices[k].extraBreadPrice == 3000 && ExtraPrices[k].extraWinePrice == 35000
  {
    MenuIds();
    assert forall k :: 0 <= k < |ExtraPrices| ==> ExtraPrices[k].menuId == Menus[k].id;
  }

  /** Champagne is the only menu whose default style is grand. */
  lemma OnlyChampagneDefaultsToGrand()
    ensures forall k :: 0 <= k < |Options| ==> (Options[k].defaultStyle == Grand <==> Options[k].menuId == "champagne")
  {
    MenuIds();
    assert forall k :: 0 <= k < |Options| ==> Options[k].menuId == Menus[k].id;
  }

  /** Each style section holds one menu's three style rows, listing simple,
      grand, deluxe; section `m` belongs to menu `m`. */
  lemma StyleSectionsLayout()
    ensures |StyleSections| == |Menus|
    ensures forall m :: 0 <= m < |StyleSections| ==> |StyleSections[m]| == 3
    ensures forall m, j :: 0 <= m < |StyleSections| && 0 <= j < |StyleSections[m]| ==>
              StyleSections[m][j].menuId == Menus[m].id && StyleSections[m][j].style == StyleOrder[j]
  {
  }

  /** The style rows of each seeded menu are simple, grand and deluxe, in
      that order. */
  lemma SeedStyleRows(m: nat)
    requires m < |Menus|
    ensures var rows := Filter(StyleRows, StyleRowFor(Menus[m].id));
            |rows| == 3 && forall j :: 0 <= j < 3 ==> rows[j].style == StyleOrder[j]
  {
    var p := StyleRowFor(Menus[m].id);
    MenuIds();
    StyleSectionsLayout();
    forall i, j | 0 <= i < |StyleSections| && 0 <= j < |StyleSections[i]|
      ensures p(StyleSections[i][j]) <==> i == m
    {
    }
    FilterOneBlock(StyleSections, p, m);
  }

  /** Each course section holds one menu's rows of one style, numbered 1, 2, ...
      in order; section `k` belongs to menu `k / 3` and style `k % 3`. */
  lemma CourseSectionsLayout()
    ensures |CourseSections| == 3 * |Menus|
    ensures forall k :: 0 <= k < |CourseSections| ==>
              SectionRows(CourseSections[k], Menus[k / 3].id, StyleOrder[k % 3])
  {
    forall k | 0 <= k < |CourseSections|
      ensures SectionRows(CourseSections[k], Menus[k / 3].id, StyleOrder[k % 3])
    {
      CourseSection(k);
    }
  }

  /** Section `rows` lists at least three courses of menu `id` in style `s`,
      numbered 1, 2, ... */
  predicate SectionRows(rows: seq<MenuCourseRow>, id: string, s: Style) {
    && |rows| >= 3
    && forall j :: 0 <= j < |rows| ==>
         rows[j].menuId == id && rows[j].style == s && rows[j].order == j + 1
  }

  lemma CourseSection(k: nat)
    requires k < |CourseSections|
    ensures SectionRows(CourseSections[k], Menus[k / 3].id, StyleOrder[k % 3])
  {
    if k < 3 {
      if k == 0 {} else if k == 1 {} else {}
    } else if k < 6 {
      if k == 3 {} else if k == 4 {} else {}
    } else if k < 9 {
      if k == 6 {} else if k == 7 {} else {}
    } else {
      if k == 9 {} else if k == 10 {} else {}
    }
  }

  /** The course rows of a seeded menu with one style are exactly its section. */
  lemma SeedCourseGroup(m: nat, s: Style)
    requires m < |Menus|
    ensures var k := 3 * m + (match s case Simple => 0 case Grand => 1 case Deluxe => 2);
            k < |CourseSections| && CourseGroup(Seed, Menus[m].id, s) == CourseSections[k]
  {
    var t := match s case Simple => 0 case Grand => 1 case Deluxe => 2;
    assert StyleOrder[t] == s;
    MenuIds();
    CourseSectionsLayout();
    GroupOfSections(CourseSections, Menus, m, t);
  }

  /** In any table laid out as one section per menu and style, menus with
      distinct ids, the rows of menu `m` in style `t` are its section. */
  lemma GroupOfSections(sections: seq<seq<MenuCourseRow>>, menus: seq<MenuRow>, m: nat, t: nat)
    requires |sections| == 3 * |menus| && m < |menus| && t < 3
    requires forall a, b :: 0 <= a < b < |menus| ==> menus[a].id != menus[b].id
    requires forall k :: 0 <= k < |sections| ==> SectionRows(sections[k], menus[k / 3].id, StyleOrder[k % 3])
    ensures Filter(Filter(Concat(sections), CourseFor(menus[m].id)), HasStyle(StyleOrder[t]))
            == sections[3 * m + t]
  {
    var k := 3 * m + t;
    var p := Both(CourseFor(menus[m].id), HasStyle(StyleOrder[t]));
    forall i, j | 0 <= i < |sections| && 0 <= j < |sections[i]|
      ensures p(sections[i][j]) <==> i == k
    {
      assert SectionRows(sections[i], menus[i / 3].id, StyleOrder[i % 3]);
      assert i == 3 * (i / 3) + i % 3;
      assert menus[i / 3].id == menus[m].id <==> i / 3 == m;
    }
    FilterFilter(Concat(sections), CourseFor(menus[m].id), HasStyle(StyleOrder[t]));
    FilterOneBlock(sections, p, k);
  }

  /** The orders of `rows`, in sequence, are 1, 2, ..., |rows|. */
  predicate OrdersOneToN(rows: seq<MenuCourseRow>) {
    forall k :: 0 <= k < |rows| ==> rows[k].order == k + 1
  }

  /** Within each (menu, style) group of the course table the orders are
      1, 2, ..., n in table order: no gap and no repeat. */
  lemma CourseOrdersAreOneToN(m: nat, s: Style)
    requires m < |Menus|
    ensures |CourseGroup(Seed, Menus[m].id, s)| >= 3
    ensures OrdersOneToN(CourseGroup(Seed, Menus[m].id, s))
  {
    SeedCourseGroup(m, s);
    CourseSectionsLayout();
  }

  /** Every seed menu resolves: to its own row, the defaults of its option
      row, the three style keys and the surcharges 3000 and 35000. */
  lemma SeedDetail(m: nat)
    requires m < |Menus|
    ensures var d := MenuDetailOf(Seed, Menus[m].id);
      && d.Some?
      && d.value.menu == Menus[m]
      && d.value.defaults == Defaults(Options[m].defaultBread, Options[m].defaultWine, Options[m].defaultStyle)
      && d.value.coursesByStyle.Keys == AllStyles
      && d.value.extraPrices == MenuRepository.ExtraPrices(3000, 35000)
  {
    var id := Menus[m].id;
    MenuIds();
    OneOptionRowPerMenu();
    OneExtraPriceRowPerMenu();
    FoundMenu(Seed, id, m);
    DefaultsFromFirstOptionRow(Seed, id, m);
    ExtraPricesFromFirstRow(Seed, id, m);
  }
}
