# Mr. Daebak dinner ordering — a Dafny model of the ordering core

Mr. Daebak is a storefront for ordering a dinner: a customer picks one of four
dinners (valentine, french, english, champagne), a serving style (simple,
grand, deluxe) and a number of baguettes and bottles of champagne. They then
sign in as a member or continue as a guest, and pay. The order is kept in a
ledger that members look up by e-mail and guests by guest id. This project
models the parts of the storefront that compute or change state:

- **Menu catalog** (`menu_schema.dfy`, `menu_data.dfy`, `menu_repository.dfy`).
  The five seed tables are kept as constants. `getMenuDetail` joins them for one
  menu id. It finds the menu, takes the first option row and the first
  extra-price row with their fallbacks, and keeps the menu's style rows in
  table order. The menu's course rows are sorted by `order` with a stable sort
  and pushed into one list per style. The method is proved equal to a
  declarative definition, and the resolver's promises are proved about that
  definition. They are also proved for the concrete seed tables: four distinct
  ids, one option row and one extra-price row per menu, three styles per menu,
  and courses numbered 1..n within each menu and style.
- **Pricing on the checkout page** (`checkout.dfy`). Extra bread and wine are
  `max(chosen - default, 0)` times the unit surcharge, and the total is the base
  price plus the extras. The style never enters the price. Worked example: a
  valentine dinner with 3 baguettes and 1 champagne costs 85000.
- **Payment handler** (`checkout.dfy`). The guards run in the source's order:
  signed in, dinner resolved, delivery date set, no blank contact field, owner
  key present. Only when all pass is an order appended to the ledger and the
  draft reset. A rejection changes nothing.
- **Order ledger** (`order_storage.dfy`). A class over a sequence of orders
  provides append with a generated `ord-<time>-<6 digits>` id, and merge-patch
  of the first order with a given id. It also provides lookup by id, and the
  filters by member e-mail, by guest id and by guest token. The token matches a
  guest order's whole key or the segment after its last `-`.
- **Guest id** (`hash.dfy`). The phone number's digits are hashed with a 32-bit
  rolling hash (multiplier 31, kept modulo 2^32) rendered as hexadecimal. The id
  is `guest-<hash>-<last 8 digits>`, and its last segment is what the token
  lookup matches.
- **Member registry** (`user_storage.dfy`). It supports sign-up (append),
  log-in (the first exact e-mail and password match) and a profile update that
  always keeps the stored password.
- **Session stores** (`order_draft.dfy`, `user_store.dfy`, `order_store.dfy`).
  These are the order draft (partial patch, reset), the signed-in user (set,
  patch when present, log out), and the older in-memory order store (create,
  set status, list by customer name).
- **Page handlers** (`orders_page.dfy`, `account_page.dfy`, `login_page.dfy`).
  The orders page selects the member's orders and runs the guest search by
  guest id; its mode switch clears the guest search. The account page saves a
  profile: it rejects a missing e-mail or blank name, writes the registry, then
  signs the stored profile in. The login page builds a session user from the
  typed name or the e-mail's local part, with a fallback.

Two consequences of the code follow from these parts. First, the login page
builds sessions with neither an e-mail nor a guest id, so such a session can
never pay: the owner-key guard always rejects it (`LoginPage.PageSessionsCannotPay`).
Second, a guest's phone number finds their orders through the token lookup,
because the last segment of the guest id is the last eight digits of the phone
(`OrderStorage.PhoneDigitsFindGuestOrder`). The orders page itself searches by
the full guest id, not by token.

Shared helpers are `wrappers.dfy` (`Option`, `Result`), `seqs.dfy` (filter,
find, map, reverse and their laws) and `js_text.dfy`. The last holds the
JavaScript string operations the source relies on: `trim` with the ECMAScript
whitespace set, `split(...)[0]`, `split(...).pop()`, digit filtering,
`slice(-8)`, `padStart` and number-to-string in base 10 and 16.

## Model

| member | source | states |
|---|---|---|
| MenuRepository.GetMenuDetail | src/lib/data/menuRepository.ts:36-75 | the resolver's result equals the declarative detail: first menu with the id, first option and extra-price rows with fallbacks, the menu's style rows projected in order, course texts per style in stable `order` order |
| MenuRepository.GroupByStyle | src/lib/data/menuRepository.ts:45-55 | the push loop yields a map with exactly the three style keys, each holding the texts of that style's rows in the order given |
| MenuRepository.SortByOrder | src/lib/data/menuRepository.ts:51-52 | the sorted rows are ordered by `order` and are a permutation of the input |
| MenuRepository.Insert | src/lib/data/menuRepository.ts:51-52 | one insertion step of the sort adds exactly that row to the multiset |
| MenuRepository.InsertSorted | src/lib/data/menuRepository.ts:51-52 | inserting into a sorted list keeps it sorted |
| MenuRepository.FilterInsert | src/lib/data/menuRepository.ts:42-52 | filtering commutes with one insertion step |
| MenuRepository.FilterSort | src/lib/data/menuRepository.ts:42-52 | filtering a sorted list equals sorting the filtered list, so grouping after sorting gives each group sorted |
| MenuRepository.SortOfSorted | src/lib/data/menuRepository.ts:51-52 | an already sorted list is left as it is |
| MenuRepository.SortStable | src/lib/data/menuRepository.ts:51-52 | rows with equal `order` keep their table order (the sort is stable) |
| MenuRepository.SortIsStableSort | src/lib/data/menuRepository.ts:51-52 | the sort is a stable sort: sorted, a permutation, and order-preserving within equal keys |
| MenuRepository.GroupOfSorted | src/lib/data/menuRepository.ts:42-55 | one style's texts out of the menu's sorted rows are that style's sorted course texts |
| MenuRepository.PushStep | src/lib/data/menuRepository.ts:53-55 | pushing row i extends exactly the list of that row's style |
| MenuRepository.UnknownMenuIsNull | src/lib/data/menuRepository.ts:37-38 | the detail is null exactly when no menu row has the id |
| MenuRepository.FoundMenu | src/lib/data/menuRepository.ts:37-49 | a present id gives the first menu row with it, and the course record has exactly the keys simple, grand, deluxe |
| MenuRepository.DefaultsWithoutOptionRow | src/lib/data/menuRepository.ts:40-63 | with no option row the defaults are bread 1, wine 0, style simple |
| MenuRepository.DefaultsFromFirstOptionRow | src/lib/data/menuRepository.ts:40-63 | otherwise the defaults are the first matching option row's values |
| MenuRepository.ExtraPricesWithoutRow | src/lib/data/menuRepository.ts:43-73 | with no extra-price row both surcharges are 0 |
| MenuRepository.ExtraPricesFromFirstRow | src/lib/data/menuRepository.ts:43-73 | otherwise the surcharges are the first matching row's |
| MenuRepository.StylesFollowTable | src/lib/data/menuRepository.ts:41-68 | appending a style row to the table appends its projection to the menu's styles exactly when it belongs to the menu |
| MenuRepository.StylesAreTheMenusRows | src/lib/data/menuRepository.ts:41-68 | the styles are exactly the projections of the menu's style rows |
| MenuRepository.CourseGroupMember | src/lib/data/menuRepository.ts:42-54 | a course row is in a (menu, style) group exactly when it is in the table with that menu id and style |
| MenuRepository.CoursesOfStyle | src/lib/data/menuRepository.ts:42-55 | each style's list is the texts of a stable sort of exactly that menu's rows of that style |
| MenuRepository.GetAllMenus | src/lib/data/menuRepository.ts:78-80 | the menu table itself, same rows in declaration order, and every listed id resolves to a detail |
| MenuData.MenuIds | src/lib/data/menuData.ts:12-49 | four menus, valentine, french, english, champagne, with distinct ids |
| MenuData.OneOptionRowPerMenu | src/lib/data/menuData.ts:52-77 | every menu has exactly one option row |
| MenuData.OneExtraPriceRowPerMenu | src/lib/data/menuData.ts:442-463 | every menu has exactly one extra-price row, bread 3000 and wine 35000 |
| MenuData.OnlyChampagneDefaultsToGrand | src/lib/data/menuData.ts:52-77 | an option row defaults to grand exactly when it is champagne's |
| MenuData.StyleSectionsLayout | src/lib/data/menuData.ts:80-160 | the style table is one block of simple, grand, deluxe per menu |
| MenuData.SeedStyleRows | src/lib/data/menuData.ts:80-160 | each menu's style rows are simple, grand, deluxe in that order |
| MenuData.CourseSectionsLayout | src/lib/data/menuData.ts:163-439 | the course table is one block per menu and style, numbered 1, 2, ... in order |
| MenuData.SeedCourseGroup | src/lib/data/menuData.ts:163-439 | the course rows of one menu and style are exactly its block |
| MenuData.CourseOrdersAreOneToN | src/lib/data/menuData.ts:163-439 | within each menu and style the `order` values are 1..n with no gap or repeat, n at least 3 |
| MenuData.SeedDetail | src/lib/data/menuData.ts:12-463 | every seeded menu resolves, with its own option row's defaults, all three style keys and surcharges 3000/35000 |
| Checkout.Max | src/app/customer/checkout/page.tsx:39-40 | `Math.max`: at least both arguments and equal to one of them |
| Checkout.DetailFor | src/app/customer/checkout/page.tsx:27-29 | a detail exactly when the draft names a non-empty id that some menu row carries, and then exactly the resolver's detail of that id |
| Checkout.QuoteOf | src/app/customer/checkout/page.tsx:34-46 | extra counts are not negative, total is base plus extras, no detail gives all zeros, base is the menu's base price, total is never below base for non-negative surcharges |
| Checkout.ExtraPriceFormula | src/app/customer/checkout/page.tsx:39-45 | extra counts are `max(chosen - default, 0)` and the extra price is the counts times the surcharges |
| Checkout.PriceIgnoresStyle | src/app/customer/checkout/page.tsx:39-53 | changing the draft's style changes no price quantity |
| Checkout.DefaultsCostBase | src/app/customer/checkout/page.tsx:39-46 | counts within the defaults cost exactly the base price |
| Checkout.MoreBreadNeverCheaper | src/app/customer/checkout/page.tsx:39-46 | more baguettes never lower the total |
| Checkout.MoreWineNeverCheaper | src/app/customer/checkout/page.tsx:39-46 | more champagne never lowers the total |
| Checkout.MulMonotone | src/app/customer/checkout/page.tsx:42-43 | a surcharge times a larger count is not smaller |
| Checkout.ValentineExample | src/app/customer/checkout/page.tsx:34-46 | on the seeded valentine rows (base 79000, defaults 1 and 1, surcharge 3000 per baguette), 3 baguettes and 1 champagne total 85000 |
| Checkout.SelectedCourses | src/app/customer/checkout/page.tsx:49-53 | no detail shows no courses |
| Checkout.SelectedCoursesOfMenu | src/app/customer/checkout/page.tsx:49-53 | the shown courses are the texts of a stable sort of the chosen menu's rows of the draft's style |
| Checkout.OwnerKeyOf | src/app/customer/checkout/page.tsx:83-90 | the key is the guest id for a guest and the e-mail for a member, never empty; none exactly when that field is missing or empty |
| Checkout.PayCheckOrder | src/app/customer/checkout/page.tsx:60-112 | an accepted payment builds an order with the owner type and key of the user, trimmed contact fields, the draft's date, status REQUESTED, one item carrying the draft's dinner, style and counts and the quote's base, extra and total prices, the item total equal to the order total |
| Checkout.PayPassesExactly | src/app/customer/checkout/page.tsx:60-90 | payment passes exactly when there is a user, a resolved dinner, a date, no blank contact field and an owner key; each rejection reason occurs exactly when the guards before it pass and its own fails |
| Checkout.CheckPay | src/app/customer/checkout/page.tsx:60-90 | the early-return guard sequence decides as the payment check does |
| Checkout.HandlePay | src/app/customer/checkout/page.tsx:59-116 | a rejection leaves the ledger and the draft unchanged; a success appends exactly the built order with a generated id and resets the draft |
| Checkout.PlacedMemberOrderIsListed | src/app/customer/checkout/page.tsx:83-112 | a member's placed order is listed last among that member's orders by e-mail |
| OrderStorage.OrderIdOf | src/lib/storage/orderStorage.ts:56-61 | ids start with `ord-` |
| OrderStorage.OrderIdFormat | src/lib/storage/orderStorage.ts:56-61 | `ord-<time>-<6 digits>`: the last six characters are digits reading back the random draw, the middle reads back the time |
| OrderStorage.OrderIdReadsBack | src/lib/storage/orderStorage.ts:56-61 | parsing an id reads back the creation time and the random draw it was made from |
| OrderStorage.OrderIdInjective | src/lib/storage/orderStorage.ts:56-61 | different (time, draw) pairs give different ids |
| OrderStorage.NewOrder | src/lib/storage/orderStorage.ts:67-71 | the new order carries the generated id and timestamp |
| OrderStorage.NewOrderKeepsInput | src/lib/storage/orderStorage.ts:67-71 | every input field is kept unchanged |
| OrderStorage.ApplyPatch | src/lib/storage/orderStorage.ts:80-91 | each field the patch carries replaces the order's, each absent one is kept; id, owner key, owner type and creation time never change |
| OrderStorage.PatchLaws | src/lib/storage/orderStorage.ts:88-91 | an empty patch changes nothing, and applying a patch twice equals applying it once |
| OrderStorage.OrderById | src/lib/storage/orderStorage.ts:98-101 | the result is the first stored order with that id, and none exactly when no order has it |
| OrderStorage.OrdersByEmail | src/lib/storage/orderStorage.ts:103-108 | only member orders with that exact key |
| OrderStorage.OrdersByGuestToken | src/lib/storage/orderStorage.ts:110-124 | only guest orders |
| OrderStorage.OrdersByGuestId | src/lib/storage/orderStorage.ts:127-132 | only guest orders with that exact key |
| OrderStorage.OrderLedger.constructor | src/lib/storage/orderStorage.ts:38-49 | the ledger starts empty |
| OrderStorage.OrderLedger.AddOrder | src/lib/storage/orderStorage.ts:63-75 | the returned order is the input plus generated id and timestamp, appended after the earlier orders, which are unchanged |
| OrderStorage.OrderLedger.UpdateOrder | src/lib/storage/orderStorage.ts:78-96 | unknown id: no result and no change; otherwise only the first order with the id is replaced by the patched order, which is returned |
| OrderStorage.AddThenFind | src/lib/storage/orderStorage.ts:63-101 | with a fresh id, looking up the added order's id finds it |
| OrderStorage.AddKeepsEarlierLookups | src/lib/storage/orderStorage.ts:72-101 | appending never changes the result of finding an id that was already present |
| OrderStorage.UpdateThenFind | src/lib/storage/orderStorage.ts:78-101 | after a patch, looking up the id gives the patched order |
| OrderStorage.OrdersByEmailExact | src/lib/storage/orderStorage.ts:103-108 | an order is listed exactly when it is stored, is a member order and has that key |
| OrderStorage.OrdersByGuestIdExact | src/lib/storage/orderStorage.ts:127-132 | an order is listed exactly when it is stored, is a guest order and has that key |
| OrderStorage.OrdersByGuestTokenExact | src/lib/storage/orderStorage.ts:110-124 | an order is listed exactly when it is a stored guest order whose key, or whose key's last `-` segment, equals the trimmed token |
| OrderStorage.AddedMemberOrderListedLast | src/lib/storage/orderStorage.ts:72-108 | an added member order is listed last, after the earlier list |
| OrderStorage.PhoneDigitsFindGuestOrder | src/lib/storage/orderStorage.ts:110-124 | a guest order keyed by a phone's guest id is found by the phone's last eight digits |
| OrderStorage.GuestTokenExample | src/lib/storage/orderStorage.ts:120-122 | key `guest-ab12cd34-87654321` is found by token `87654321` |
| Hash.HashOf | src/lib/utils/hash.ts:5-8 | the running hash stays below 2^32 |
| Hash.SimpleHash | src/lib/utils/hash.ts:4-10 | the loop computes the rolling hash, rendered in hex and cut to 8 characters |
| Hash.HashHexReadsBack | src/lib/utils/hash.ts:9 | the hex text has 1 to 8 lower-case hex digits and reads back as the hash |
| Hash.MakeGuestIdFromPhone | src/lib/utils/hash.ts:13-25 | the id is `guest-` + hash of the digits + `-` + the last eight digits |
| Hash.GuestIdKey | src/lib/utils/hash.ts:18-24 | the id starts with `guest-` and its last `-` segment is the last eight digits, or all of them if fewer |
| Hash.GuestIdIgnoresSeparator | src/lib/utils/hash.ts:15-24 | removing a non-digit from the phone changes neither the digits nor the id |
| Hash.GuestIdExample | src/lib/utils/hash.ts:15-24 | `010-1234-5678` and `01012345678` give the same id |
| UserStorage.FindUser | src/lib/storage/userStorage.ts:49-52 | the result is the first stored account matching both e-mail and password, and none exactly when no account matches |
| UserStorage.Merged | src/lib/storage/userStorage.ts:67-71 | the merged account keeps the stored password and equals the update in every other field |
| UserStorage.MergeIgnoresPassword | src/lib/storage/userStorage.ts:67-71 | the password carried by the update does not matter |
| UserStorage.UserRegistry.constructor | src/lib/storage/userStorage.ts:16-30 | the registry starts empty |
| UserStorage.UserRegistry.SaveUser | src/lib/storage/userStorage.ts:42-46 | appends exactly one account, with no uniqueness check |
| UserStorage.UserRegistry.UpdateUser | src/lib/storage/userStorage.ts:57-76 | unknown e-mail: no result and no change; otherwise only the first account with the e-mail is replaced by the merge, which is returned |
| UserStorage.SignUpThenLogIn | src/lib/storage/userStorage.ts:42-52 | after sign-up the credentials log in, to the new account unless an older one has the same pair |
| UserStorage.UpdateThenLogIn | src/lib/storage/userStorage.ts:49-76 | after an update the e-mail is unchanged and the old password logs in to the merged account |
| UserStorage.WrongPasswordFails | src/lib/storage/userStorage.ts:49-52 | a password that no account with that e-mail has does not log in |
| OrderDraft.Patched | src/lib/store/useOrderDraft.ts:37-48 | each field the patch carries replaces the draft's, each absent one (the style included) is kept, and an empty patch changes nothing |
| OrderDraft.PatchesCompose | src/lib/store/useOrderDraft.ts:37-48 | two successive patches equal one combined patch in which the later field wins |
| OrderDraft.DraftStore.constructor | src/lib/store/useOrderDraft.ts:18-35 | the draft starts as the initial draft: no dinner, simple, 1 baguette, 1 champagne, empty date and name |
| OrderDraft.DraftStore.UpdateDraft | src/lib/store/useOrderDraft.ts:37-48 | the draft becomes the patched draft |
| OrderDraft.DraftStore.ResetDraft | src/lib/store/useOrderDraft.ts:50-53 | the draft becomes the initial draft |
| UserStore.PatchedUser | src/lib/store/useUserStore.ts:26-29 | each field the patch carries replaces the user's, each absent one (`isGuest` included) is kept, and an empty patch changes nothing |
| UserStore.UserStore.constructor | src/lib/store/useUserStore.ts:23 | no user at first |
| UserStore.UserStore.SetUser | src/lib/store/useUserStore.ts:24 | the user is replaced wholesale |
| UserStore.UserStore.UpdateUser | src/lib/store/useUserStore.ts:26-29 | with no user nothing changes; otherwise the patch is merged over the user |
| UserStore.UserStore.Logout | src/lib/store/useUserStore.ts:31 | the user becomes null |
| OrderStore.SessionOrderId | src/lib/store/useOrderStore.ts:23 | the id is `ORD-` followed by the time, which reads back |
| OrderStore.OrdersByCustomer | src/lib/store/useOrderStore.ts:43-45 | only orders with that customer name |
| OrderStore.OrdersByCustomerExact | src/lib/store/useOrderStore.ts:43-45 | an order is listed exactly when it is stored under that customer name |
| OrderStore.SessionOrders.constructor | src/lib/store/useOrderStore.ts:18 | the store starts empty |
| OrderStore.SessionOrders.CreateOrder | src/lib/store/useOrderStore.ts:20-33 | appends one order carrying the draft, id `ORD-<time>`, status PENDING |
| OrderStore.SessionOrders.UpdateStatus | src/lib/store/useOrderStore.ts:35-41 | every order with the id gets the status; no other field or order changes |
| OrderStore.StatusKeepsCustomerLists | src/lib/store/useOrderStore.ts:35-45 | a status change never moves an order in or out of a customer's list |
| OrderStore.UnknownIdKeepsOrders | src/lib/store/useOrderStore.ts:35-41 | an unknown id leaves the list unchanged |
| OrderStore.SessionIdsDiffer | src/lib/store/useOrderStore.ts:23 | different times give different ids |
| OrdersPage.MemberOrders | src/app/customer/orders/page.tsx:22-26 | empty in guest mode, without a user, for a guest, or for a user without an e-mail |
| OrdersPage.MemberOrdersExact | src/app/customer/orders/page.tsx:22-26 | for a member with an e-mail, exactly that e-mail's member orders |
| OrdersPage.NewestFirst | src/app/customer/orders/page.tsx:146-149 | the shown list is the stored list reversed |
| OrdersPage.LatestOrderShownFirst | src/app/customer/orders/page.tsx:146-187 | the member's latest appended order is shown first |
| OrdersPage.OrdersView.constructor | src/app/customer/orders/page.tsx:19-30 | member mode, empty input, no results, not searched |
| OrdersPage.OrdersView.HandleChangeMode | src/app/customer/orders/page.tsx:32-38 | sets the mode and clears the input, the results and the searched flag |
| OrdersPage.OrdersView.HandleGuestSearch | src/app/customer/orders/page.tsx:40-48 | a blank input alerts and changes nothing; otherwise the results are the guest-id lookup of the trimmed input and the searched flag is set |
| AccountPage.AccountViewOf | src/app/customer/account/page.tsx:27-61 | the save form is offered exactly to a signed-in non-guest, the sign-in prompt exactly to no user |
| AccountPage.SaveRequest | src/app/customer/account/page.tsx:70-88 | the save proceeds exactly when the e-mail is present and the trimmed name is not empty, with the unchanged e-mail and trimmed name, address and phone |
| AccountPage.AccountForm.constructor | src/app/customer/account/page.tsx:19-22 | the form starts from the session user's name, address and phone, or empty |
| AccountPage.SessionUserOf | src/app/customer/account/page.tsx:97-104 | the session after a save is a member without a guest id, showing the stored name, e-mail, phone and address |
| AccountPage.AccountForm.HandleSave | src/app/customer/account/page.tsx:69-104 | a failed guard leaves registry and session unchanged; otherwise the registry update runs and, when it finds the account, the session user becomes the stored profile |
| AccountPage.StoreAndSignIn | src/app/customer/account/page.tsx:90-104 | an unknown account changes neither store; a known one is updated and its stored profile signed in as a non-guest |
| AccountPage.SavedSessionShowsForm | src/app/customer/account/page.tsx:82-104 | after a save the session shows the trimmed form values and the unchanged e-mail, and the stored password is kept |
| LoginPage.SafeName | src/app/customer/login/page.tsx:20-21 | a non-empty fallback never yields an empty name |
| LoginPage.SafeNamePrefersName | src/app/customer/login/page.tsx:20-21 | a name that is not blank is used, trimmed |
| LoginPage.SafeNameFromEmail | src/app/customer/login/page.tsx:21 | with no name, the trimmed part of the e-mail before `@` is used |
| LoginPage.BlankNameGivesFallback | src/app/customer/login/page.tsx:21 | a whitespace-only name gives the fallback, not the e-mail part |
| LoginPage.NothingTypedGivesFallback | src/app/customer/login/page.tsx:21 | with neither a name nor an e-mail part, the fallback is used |
| LoginPage.SessionUser | src/app/customer/login/page.tsx:26-39 | the session user has no e-mail and no guest id |
| LoginPage.LoginForm.constructor | src/app/customer/login/page.tsx:12-15 | initial mode and empty fields |
| LoginPage.LoginForm.ChangeMode | src/app/customer/login/page.tsx:44-49 | sets the mode and clears name, e-mail and password |
| LoginPage.LoginForm.HandleLogin | src/app/customer/login/page.tsx:24-28 | signs in a non-guest named with fallback `Member`, with no registry check |
| LoginPage.LoginForm.HandleGuest | src/app/customer/login/page.tsx:31-34 | signs in a guest named with fallback `Guest`, with no guest id or phone |
| LoginPage.LoginForm.HandleSignup | src/app/customer/login/page.tsx:37-41 | signs in a non-guest named with fallback `Member`, with no registry write |
| LoginPage.PageSessionsCannotPay | src/app/customer/login/page.tsx:26-39 | a session made on the login page is always rejected by the payment's owner-key guard |

## Left out

- Persistence: `localStorage`, `JSON.parse`/`stringify` and the `typeof window` checks are I/O. Each store is a class holding a sequence, so "absent or corrupt data gives an empty list" is the empty initial state.
- Time and randomness: `Date.now()`, `Math.random()` and `new Date().toISOString()` are parameters (`now`, `rand`, `createdAt`). The draw is `Math.floor(Math.random() * 1000000)`; only `OrderStorage.OrderIdFormat`, `OrderStorage.OrderIdReadsBack` and `OrderStorage.OrderIdInjective` need it below 1000000.
- Navigation and prompts: `router.push` and `alert` become returned outcomes (`PayOutcome`, `SaveOutcome`, the alerted flag). The login handlers' redirect to the home page is not modelled.
- Numbers: JavaScript `number` values (prices, counts, `Date.now()`, the hash accumulator) are Dafny integers. Every value the code reaches stays below 2^53, where double arithmetic is exact (the hash step `hash * 31 + code` stays below 2^37), and the `>>> 0` truncation is reproduced as `% 2^32`.
- Text encoding: a Dafny `char` stands for a UTF-16 code unit, so `charCodeAt`, `trim` and `slice` act per character. No surrogate pairs are modelled.
- Partial patches: a field holding `undefined` explicitly is not modelled; an `Option` field is either present with a value or absent.
- Zustand: `create`, `set` and the selectors are library mechanics. Each store is a class with one field.
- Form input: the `onChange` setters of the form fields are plain assignments to the view classes' fields. The checkout form's initial values (src/app/customer/checkout/page.tsx:23-25) are taken as the handler's `name`, `phone` and `address` parameters.
- The maximum count of 20 in src/lib/config/orderConfig.ts is not enforced by any modelled code, so no bound is asserted.
- The `"PAID"` status label on the orders page compares against a value outside the order status type; it is display logic.
- Rendering: JSX, styling, images, the home, complete, menu detail and order edit pages are not part of this model.
- The catalog is an immutable value, so that sorting acts on a copy and leaves `MENU_COURSES` unchanged holds by construction rather than by a lemma.
- Determinism of `makeGuestIdFromPhone` holds by construction, since `Hash.GuestIdOf` is a function.
- Checkout.SelectedCourses: its own contract only covers the empty case; the content of the list is stated by `Checkout.SelectedCoursesOfMenu`.
- OrderStorage.OrdersByGuestToken: its own contract only states that member orders never match; the exact membership is stated by `OrderStorage.OrdersByGuestTokenExact`.
