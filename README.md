# Storefront core logic in Dafny

This project models the decision logic of an online clothing storefront (a React single-page
shop over a hosted Postgres database) and proves properties of it. The rendering, the hosted
database and the network are not modelled. What is modelled is the logic the pages, contexts
and services run on plain records:

- **Category resolution on the shop page.** The `category`/`subcategory` URL parameters resolve
  to at most one category id, by synonym expansion, slug-form matching, parent checks and two
  fallbacks. The checkbox selection and the pagination arithmetic are on the same page.
- **The resolver check script.** It is a second copy of that resolver, without the
  main-category fallback, so the two are compared.
- **Carts.** The guest cart merges a repeated product/variant pair into one line. The
  signed-in cart table upserts on (customer, product, variant), which *replaces* the stored
  quantity.
- **The guest wishlist.** A product list without repeated ids.
- **The address book.** Its rule is: "clear every default of the customer, then set one".
  The clearing update's own error is never read, so one default per customer holds only when
  that update succeeds; the model carries its failure and shows the second default it leaves.
  Address ordering and the profile reads and updates are part of it.
- **Checkout and orders.** This covers:
  - the checkout step machine, the preselected address, the full-name split and the order lines built from the cart;
  - order totals, item rows and order numbers, and the pending-only cancel rule;
  - the customer's order reads;
  - the shipping-rate lookup chain with its default of 450.00.
- **Product queries.** The product listing and count queries are modelled as the ordered list
  of clauses they chain, alongside the single-product lookups.
- **Product presentation.** This covers:
  - the gallery de-duplication and the default variant (white first, then black, then the smallest size);
  - the colour and size pickers and the quantity stepper;
  - the price and stock fallbacks;
  - the product tile's image, price, buttons and heart.
- **Small utilities.**
  - `slugify`, `truncate` and `getImageUrl`.
  - The region/province/city picker.
  - The carousel index.
  - The reset-password checks.
  - The `.env` reader, the duplicate-category report and the location-data transform of the developer scripts.

## Modelling conventions

- **Modules.** Each source file is one module. Common (`Option`, `Result`, `Outcome`, ids),
  Text (string operations), Sorting (ordering by a key) and Catalog (product records) are
  shared.
- **Amounts** are integers in centavos, so the default shipping rate is 45000.
- **Ids** are `Num(n)` or `Str(s)`, compared the way JavaScript's `===` compares them, so
  `Num(5) != Str("5")`.
- **Strings** are sequences of characters. `toLowerCase` and `toUpperCase` act on ASCII
  letters only, and a length counts characters, not UTF-16 code units.
- **Remainders.** JavaScript's `%` takes the sign of its left operand; the carousel writes it
  out (`HeroSlider.Rem`).
- **Optional numbers** are `Undef`, `Null` or `Val(n)`. The code's `a || b` and `a ?? b`
  fallbacks are written out on them: `||` skips 0, `??` keeps it.
- **Database tables** are sequences of rows held by a class (`CartService.CartTable`,
  `Profiles.AddressBook`, `Orders.OrderStore`) or passed as values.
  - A `.single()` read finds a row when exactly one row matches.
  - An `order(...)` clause is a sort by a lexicographic integer key (`Sorting.SortByKey`).
- **Parameters.** The signed-in user, database failures, the clock, the random draw,
  `parseFloat`, `parseInt` and `localeCompare` are all parameters.
- **Component state.** The state of a component becomes a class whose methods are its
  handlers. Each handler states the whole new state.

## Model

| member | source | states |
|---|---|---|
| ResetPassword.Validate | src/pages/ResetPasswordPage.tsx:21-29 | a password shorter than 6 characters (counted in characters) gets the length message; when it is long enough, a different confirmation gets the mismatch message; there is no error exactly when both checks pass |
| ResetPassword.ResetForm.constructor | src/pages/ResetPasswordPage.tsx:10-15 | the form starts with empty fields, no error, no success and no update sent |
| ResetPassword.ResetForm.HandleSubmit | src/pages/ResetPasswordPage.tsx:17-42 | a failed check shows its message and sends nothing; otherwise the password is sent exactly once; success follows a completed update, and a failed update shows the service's message or the fallback text |
| UpdateLocations.ProvinceOf | dev/update_locations.ts:67-78 | a province keeps its key and the keys of its municipality list (none when the list is missing); the barangay data is dropped |
| UpdateLocations.RegionOf | dev/update_locations.ts:59-84 | a region is named by its `region_name` when that is set and by its entry key otherwise, and holds one output province per raw province in order |
| UpdateLocations.Transform | dev/update_locations.ts:50-85 | the nested loops produce one region per entry, in entry order, each equal to the region specified for that entry |
| Wishlist.HasId | src/context/WishlistContext.tsx:37 | true exactly when some entry has that id |
| Wishlist.AddSpec | src/context/WishlistContext.tsx:35-42 | adding a present id changes nothing; a new id is appended at the end; either way the id is present afterwards |
| Wishlist.RemoveSpec | src/context/WishlistContext.tsx:44-46 | removal keeps exactly the entries with other ids and leaves the id absent; removing an absent id changes nothing |
| Wishlist.OperationsKeepIdsUnique | src/context/WishlistContext.tsx:35-46 | if ids are unique, they stay unique after an add or a removal |
| Wishlist.RemoveUndoesAdd | src/context/WishlistContext.tsx:35-46 | removing an id just added leaves what removing it from the original list leaves |
| Wishlist.WishlistContext.constructor | src/context/WishlistContext.tsx:16 | the wishlist starts empty |
| Wishlist.WishlistContext.AddToWishlist | src/context/WishlistContext.tsx:35-42 | the new list is the specified add; the product is then in the wishlist; the count grows by one exactly when the id was absent |
| Wishlist.WishlistContext.RemoveFromWishlist | src/context/WishlistContext.tsx:44-50 | the new list is the specified removal, and the id is no longer in the wishlist |
| Wishlist.WishlistContext.ClearWishlist | src/context/WishlistContext.tsx:52-54 | the wishlist is empty, its count is 0 and no id is in it |
| Helpers.KeepWordAndSpace | src/utils/helpers.ts:7 | exactly the word characters and spaces of the text are kept, in order; every other character, hyphens included, is deleted |
| Helpers.DropSpaces | src/utils/helpers.ts:8 | the result is a suffix of the input that does not start with a space |
| Helpers.KeepWordOfLower | src/utils/helpers.ts:6-7 | a lower-cased text keeps only lower-case letters, digits, `_` and spaces |
| Helpers.CollapseChars | src/utils/helpers.ts:8 | collapsing the spaces of such a text leaves only slug characters |
| Helpers.CollapseNoDoubleHyphen | src/utils/helpers.ts:8 | runs of spaces become single hyphens: no two hyphens in a row, no space left |
| Helpers.Slugify | src/utils/helpers.ts:4-9 | `slugify`: lower-case, delete every character that is neither a word character nor a space (hyphens included), turn each run of spaces into one hyphen; nothing is trimmed (its properties are the lemmas below) |
| Helpers.SlugifyIsSlug | src/utils/helpers.ts:4-9 | every slug is made of lower-case letters, digits, `_` and `-`, with no space and no `--` |
| Helpers.SlugifyKeepsWord | src/utils/helpers.ts:4-9 | a text of lower-case letters, digits and `_` is its own slug |
| Helpers.SlugifyJoinsWords | src/utils/helpers.ts:4-9 | two such words with one space between them become the two words joined by one hyphen |
| Helpers.SlugifyDeletesHyphen | src/utils/helpers.ts:7 | a hyphen between two such words is deleted, so the words run together |
| Helpers.Truncate | src/utils/helpers.ts:14-17 | a text within the length is returned unchanged; a longer one keeps its first `length` characters (none for a negative length) followed by `...` |
| Helpers.TruncateBound | src/utils/helpers.ts:14-17 | the result is at most three characters longer than the cut length, keeps the part that fits, and ends with `...` when it is longer than the text |
| Helpers.ImageUrl | src/utils/helpers.ts:33-37 | a path starting with `http` is returned as is; any other path is placed under the public storage URL of its bucket, `products` by default |
| Helpers.ImageUrlEndsWithPath | src/utils/helpers.ts:33-37 | in both branches the URL ends with the given path |
| HeroSlider.Rem | src/components/common/HeroSlider.tsx:30 | JavaScript `%`: for a non-negative operand the Euclidean remainder in 0..n-1; for a negative one a value in -(n-1)..0 equal to the operand minus n times the quotient truncated toward zero |
| HeroSlider.Next | src/components/common/HeroSlider.tsx:29-31 | from any index of 0 or more the next index is a valid slide index |
| HeroSlider.Prev | src/components/common/HeroSlider.tsx:33-35 | from any index of 0 or more the previous index is a valid slide index |
| HeroSlider.NextOfNegative | src/components/common/HeroSlider.tsx:29-31 | from index -5 of 3 slides forward gives -1, not a slide: the remainder keeps the sign |
| HeroSlider.NextStep | src/components/common/HeroSlider.tsx:29-31 | from a valid index, next moves one slide forward and wraps from the last slide to the first |
| HeroSlider.PrevStep | src/components/common/HeroSlider.tsx:33-35 | from a valid index, previous moves one slide back and wraps from the first slide to the last |
| HeroSlider.PrevUndoesNext | src/components/common/HeroSlider.tsx:29-35 | previous undoes next and next undoes previous |
| HeroSlider.Advance | src/components/common/HeroSlider.tsx:21-27 | k autoplay ticks from slide i: k applications of next (its properties are the lemmas below) |
| HeroSlider.AdvanceInRange | src/components/common/HeroSlider.tsx:21-27 | any number of autoplay ticks keeps the index valid |
| HeroSlider.AdvanceNoWrap | src/components/common/HeroSlider.tsx:21-27 | k ticks that do not reach the end move exactly k slides forward |
| HeroSlider.AdvanceAdd | src/components/common/HeroSlider.tsx:21-27 | a+b ticks take the slider where a ticks and then b more ticks take it |
| HeroSlider.FullCycle | src/components/common/HeroSlider.tsx:21-27 | as many ticks as there are slides bring the slider back to where it started |
| HeroSlider.Slider.constructor | src/components/common/HeroSlider.tsx:19 | the slider starts on slide 0 |
| HeroSlider.Slider.NextSlide | src/components/common/HeroSlider.tsx:29-31 | the index becomes the next index, and the slider stays valid |
| HeroSlider.Slider.PrevSlide | src/components/common/HeroSlider.tsx:33-35 | the index becomes the previous index, and the slider stays valid |
| HeroSlider.Slider.Tick | src/components/common/HeroSlider.tsx:22-24 | an autoplay tick moves to the next index |
| HeroSlider.Slider.GoToSlide | src/components/common/HeroSlider.tsx:37-39 | the index becomes the given one, without a check; the slider stays valid when the index names a slide |
| Shipping.CityZone | src/services/shipping.ts:24-30 | a zone found for a city comes from a row whose name matches the city ignoring case, and that row has a zone |
| Shipping.ZoneRate | src/services/shipping.ts:54-61 | the fee is the default 450.00 or the non-zero rate of a rate row of that zone |
| Shipping.ShippingRate | src/services/shipping.ts:21-67 | whatever the lookups return, the fee is the default or a non-zero rate from the rates table |
| Shipping.PhCitiesTakePrecedence | src/services/shipping.ts:30-61 | once `ph_cities` yields a zone, the Metro Manila table plays no part, and the fee is that zone's rate |
| Shipping.UnknownCityGetsDefault | src/services/shipping.ts:38-42 | a city listed in neither table is charged the default fee |
| Shipping.ListedCityGetsZoneRate | src/services/shipping.ts:24-61 | a city listed once, with a zone that has one rate row, is charged that rate, or the default when the rate is 0 or null |
| Shipping.JoinedZone | src/services/shipping.ts:101-113 | the embedded zone of a city row is an existing zone with the row's `zone_id` |
| Shipping.DetectShippingZone | src/services/shipping.ts:99-139 | a detected zone is an existing zone, and the zone from `ph_cities` wins when there is one |
| Shipping.TableZoneAgrees | src/services/shipping.ts:24-36 | with the foreign key intact, the embedded zone exists exactly when the rate lookup finds a zone id, and it has that id |
| Shipping.DetectionMatchesRate | src/services/shipping.ts:21-139 | detection and the fee lookup agree: no zone detected means the default fee, a detected zone means that zone's fee |
| Shipping.ShippingZones | src/services/shipping.ts:72-81 | a query error is raised with its message, and only a query error fails |
| Shipping.ShippingZonesSpec | src/services/shipping.ts:72-81 | the zones listed are exactly the enabled ones, in name order |
| Shipping.RatesByZone | src/services/shipping.ts:86-94 | a query error is raised; otherwise the rows listed are exactly the zone's rate rows |
| Shipping.ZoneRateFromListing | src/services/shipping.ts:45-61 | when a zone lists a single rate row with a non-zero rate, the fee lookup charges that rate |
| EnvFile.LineEntry | dev/check_categories.ts:16-19 | a line sets something exactly when the pieces before and after its first `=` are both non-empty, and it then sets the trimmed key to the trimmed value |
| EnvFile.ParseEnv | dev/verify_fix.ts:5-10 | the loop over the file's lines builds the settings that reading the lines in order gives |
| EnvFile.SettingsKeys | dev/check_categories.ts:15-20 | a key is set exactly when some kept line names it |
| EnvFile.SettingsKeySource | dev/check_categories.ts:15-20 | every key that is set comes from a kept line |
| EnvFile.SettingsKeyKept | dev/check_categories.ts:15-20 | every kept line's key is set |
| EnvFile.SettingsStep | dev/check_categories.ts:15-20 | one more line adds its key to the keys already set, and nothing else |
| EnvFile.SettingsLastWins | dev/check_categories.ts:15-20 | the last kept line naming a key decides its value |
| EnvFile.ValueStep | dev/check_categories.ts:15-20 | the last line sets its value for a key it defines and leaves the value of every other key as it was |
| EnvFile.SecondEqualsDropped | dev/check_categories.ts:16 | text after a second `=` is dropped from the value |
| EnvFile.LineWithoutValue | dev/check_categories.ts:17 | a line with no `=`, or with nothing before or after it, sets nothing |
| CheckCategories.Credentials | dev/check_categories.ts:22-28 | the script goes on exactly when the URL and the anonymous key are both set and non-empty, with those two values; otherwise it stops with the missing-credentials message |
| CheckCategories.OrderStep | dev/check_categories.ts:48-53 | one more row puts a new name at the end of the first-use order and leaves the order alone for a known name |
| CheckCategories.KeysStep | dev/check_categories.ts:49-51 | one more row adds its name to the group keys |
| CheckCategories.MembersStep | dev/check_categories.ts:49-52 | one more row joins its name's group, which starts empty for a new name |
| CheckCategories.GroupStep | dev/check_categories.ts:48-53 | one iteration keeps the map equal to the grouping of the rows seen so far |
| CheckCategories.GroupStepAt | dev/check_categories.ts:48-53 | the same, for the row at a given position |
| CheckCategories.GroupedKeys | dev/check_categories.ts:47-53 | once every row is seen, the map's keys are exactly the names in first-use order |
| CheckCategories.AddRow | dev/check_categories.ts:49-52 | a known name keeps the order, a new one is appended; the row joins its group |
| CheckCategories.GroupByName | dev/check_categories.ts:46-53 | the map has one group per name, in first-use order, holding exactly that name's rows in fetch order |
| CheckCategories.ReportStep | dev/check_categories.ts:57-64 | one more name is reported exactly when its group has more than one row |
| CheckCategories.CountDuplicates | dev/check_categories.ts:56-65 | the groups reported are those with more than one row, in map order, and the count is their number |
| CheckCategories.CheckCategories | dev/check_categories.ts:44-70 | the report lists exactly the names used more than once, counts them, and says "No duplicates" exactly when no two categories share a name |
| CheckCategories.SingleMembers | dev/check_categories.ts:46-65 | without repeated names every group has at most one row |
| CheckCategories.NoDuplicatesIff | dev/check_categories.ts:56-70 | nothing is reported exactly when no two categories share a name |
| VerifyFix.DevTargetIds | dev/verify_fix.ts:32-81 | the script resolves at most one id, and none when either slug is empty |
| VerifyFix.ResultNames | dev/verify_fix.ts:83 | one looked-up name per resolved id: the name of the first category with that id, or none |
| VerifyFix.Resolved | dev/verify_fix.ts:31-81 | one result per test case, in order, each the script's resolution of that case |
| VerifyFix.AllNames | dev/verify_fix.ts:83 | one name list per result, in order |
| VerifyFix.ResolveCase | dev/verify_fix.ts:32-81 | the nested conditions of one iteration compute the script's resolution |
| VerifyFix.TestLogic | dev/verify_fix.ts:31-88 | the loop resolves every test case in turn and looks up the names of the resolved ids |
| VerifyFix.DevAgreesWhenResolved | dev/verify_fix.ts:32-81 | whenever the script resolves an id, the shop page's filter resolves the same one |
| VerifyFix.DevEmptyMeansShopFallback | dev/verify_fix.ts:32-81 | when the script resolves nothing for a set category, the shop page falls back to the main-category match alone |
| VerifyFix.DevLacksMainFallback | dev/verify_fix.ts:32-81 | there are inputs where the script resolves nothing but the shop page resolves one category: the script lacks the main-category fallback |
| AddressSelector.FormatName | src/components/common/AddressSelector.tsx:13-22 | `formatName`: title case, then the first `National Capital Region - `, `City Of ` and `Municipality Of ` are shortened or dropped (its properties are the lemmas below) |
| AddressSelector.TitleWord | src/components/common/AddressSelector.tsx:17 | a word keeps its length and first character; every later character is lower-cased (ASCII letters only) |
| AddressSelector.TitleWords | src/components/common/AddressSelector.tsx:16-17 | each word is title-cased in place |
| AddressSelector.JoinTitleWords | src/components/common/AddressSelector.tsx:16-18 | joining the title-cased words gives, position by position, the joined text with every character lower-cased (ASCII letters only) except those that start a word |
| AddressSelector.TitleCaseSpec | src/components/common/AddressSelector.tsx:15-18 | title case keeps the length and the spaces, keeps the first character of every word and lower-cases the rest (ASCII letters only) |
| AddressSelector.FormatWithoutPatterns | src/components/common/AddressSelector.tsx:13-22 | a name that contains none of the three patterns is only title-cased |
| AddressSelector.RegionNamed | src/components/common/AddressSelector.tsx:31 | the region found has the selected name; none is found only when no region has that name |
| AddressSelector.Provinces | src/components/common/AddressSelector.tsx:30-32 | no province options until a region is picked or for an unknown region; otherwise the keys of the first region with that name |
| AddressSelector.Cities | src/components/common/AddressSelector.tsx:34-36 | no city options until both a region and a province are picked; otherwise the municipality keys of that province, none when the province is unknown |
| AddressSelector.ProvinceOptionsBelong | src/components/common/AddressSelector.tsx:30-32 | every province offered belongs to a region with the selected name |
| AddressSelector.CityOptionsBelong | src/components/common/AddressSelector.tsx:34-36 | every city offered is a municipality of the selected province of the selected region |
| AddressSelector.Selector.constructor | src/components/common/AddressSelector.tsx:25-27 | each field starts from its default, the empty text when there is none |
| AddressSelector.Selector.HandleRegionChange | src/components/common/AddressSelector.tsx:39-45 | a new region clears the province and the city, is reported with both empty, and leaves no city options |
| AddressSelector.Selector.HandleProvinceChange | src/components/common/AddressSelector.tsx:47-52 | a new province keeps the region, clears the city, and is reported with the current region |
| AddressSelector.Selector.HandleCityChange | src/components/common/AddressSelector.tsx:54-58 | a new city is reported with the current region and province, which stay |
| AddressSelector.Selector.SyncDefaults | src/components/common/AddressSelector.tsx:61-65 | a default overrides its field only when it is non-empty, and nothing is reported |
| CartService.StoredVariant | src/services/cart.ts:28 | a falsy variant id is stored as null, and any other is stored unchanged |
| CartService.KeyIndex | src/services/cart.ts:31 | the row found has the conflict key; none is found only when no row has it |
| CartService.UpsertSpec | src/services/cart.ts:23-33 | an upsert on an existing key replaces that row's quantity and keeps every other row; a new key appends one row; either way a row with the key and the new quantity exists |
| CartService.UpsertKeepsTableOk | src/services/cart.ts:23-33 | an upsert keeps the conflict keys and the row ids unique, and uses up a row id only when it adds a row |
| CartService.UpsertKeepsOtherKeys | src/services/cart.ts:23-33 | a row with a different key is still in the table after the upsert |
| CartService.SyncOverwrites | src/services/cart.ts:130-151 | after a sync of guest items with distinct keys, each item is the row of its key with the guest quantity, whatever was stored before |
| CartService.SyncKeeps | src/services/cart.ts:130-151 | a row whose key no guest item has survives the sync unchanged |
| CartService.UpsertAllKeepsTableOk | src/services/cart.ts:130-151 | a sync keeps the keys and ids of the table unique |
| CartService.GetCartSpec | src/services/cart.ts:41-82 | without a user the cart is empty; otherwise it holds exactly the user's rows, newest first |
| CartService.SetRowQuantity | src/services/cart.ts:92-95 | only the quantity of the row with that id changes; every other field and row stays |
| CartService.CartTable.constructor | src/services/cart.ts:23-25 | the table starts empty and well formed |
| CartService.CartTable.AddToCart | src/services/cart.ts:15-36 | without a user the call fails with the log-in message and nothing changes; otherwise it is one upsert on the conflict key |
| CartService.CartTable.RemoveFromCart | src/services/cart.ts:103-110 | exactly the row with that id goes, whoever owns it |
| CartService.CartTable.UpdateCartQuantity | src/services/cart.ts:87-98 | a quantity of zero or less removes the row; otherwise only that row's quantity changes |
| CartService.CartTable.ClearCart | src/services/cart.ts:115-125 | without a user nothing changes; otherwise exactly the user's rows go and every other row stays |
| CartService.CartTable.SyncGuestCart | src/services/cart.ts:130-151 | without a user the call fails with the sync message and nothing changes; otherwise every guest item is upserted on its key |
| CartContext.LineIndex | src/context/CartContext.tsx:139-141 | the index found is the first line with the product/variant pair; none is found only when no line has the pair |
| CartContext.UpdateLocal | src/context/CartContext.tsx:205-212 | setting a quantity keeps the number of lines |
| CartContext.IsInCart | src/context/CartContext.tsx:228-232 | true exactly when some line has that product id and that variant id |
| CartContext.AddLocal | src/context/CartContext.tsx:137-163 | `addToLocalCart`: the line of the same product and variant gets the quantity added, otherwise a new line is appended (its properties are the two lemmas below) |
| CartContext.AddExistingSpec | src/context/CartContext.tsx:143-149 | adding a pair already in the cart raises that line's quantity by the amount added and leaves every other line; the item count rises by the same amount |
| CartContext.AddNewSpec | src/context/CartContext.tsx:150-161 | a new pair is appended as one line holding the product, the variant and the quantity; the item count rises by that quantity |
| CartContext.ListedTotal | src/context/CartContext.tsx:107-111 | the total the provider derives: every line at variant price, else `base_price`, else 0, times its quantity |
| CartContext.ChargedTotal | src/pages/CheckoutPage.tsx:121-128 | the cart priced as checkout prices its order lines: variant price, else product price, else 0, times the quantity |
| CartContext.AddKeepsLinesUnique | src/context/CartContext.tsx:137-163 | with one line per pair before, there is still one line per pair after adding |
| CartContext.RemoveSpec | src/context/CartContext.tsx:179-184 | removal keeps exactly the lines with other ids, and keeps one line per pair |
| CartContext.UpdateLocalSpec | src/context/CartContext.tsx:205-212 | only the quantity of the lines with that id changes, and no line changes its pair |
| CartContext.UpdateLocalKeepsLines | src/context/CartContext.tsx:205-212 | setting a quantity changes neither which pairs are in the cart nor their uniqueness |
| CartContext.UpdateQuantitySpec | src/context/CartContext.tsx:186-203 | a quantity of zero or less removes the line; a positive one is stored on it |
| CartContext.ListedTotalIgnoresProductPrice | src/context/CartContext.tsx:107-111 | the total as written is 0 for lines without a variant whose product has no `base_price`, whatever the product's price |
| CartContext.ListedTotalCounterexample | src/context/CartContext.tsx:107-111 | a single simple product priced 500 shows a total of 0 while 500 is charged |
| CartContext.MappedLineCounterexample | src/context/CartContext.tsx:40 | a signed-in line whose product has price 0 and regular price 600 is listed at 600 while 0 is charged |
| CartContext.ListedTotalIsChargedTotal | src/context/CartContext.tsx:107-111 | when every line is listed at the price checkout charges, the total shown is the charged total |
| CartContext.AddChargedTotal | src/context/CartContext.tsx:107-163 | adding q units raises the charged total by q times the unit price of the line the units land on |
| CartContext.RaisedLineTotal | src/context/CartContext.tsx:143-149 | raising a line's quantity by q raises its amount by q unit prices |
| CartContext.NewLineTotal | src/context/CartContext.tsx:150-161 | a new line's amount is its quantity times its unit price |
| CartContext.IsInCartAfterAdd | src/context/CartContext.tsx:137-163 | after adding, the pair is in the cart |
| CartContext.Cart.constructor | src/context/CartContext.tsx:20-24 | the cart starts with no items |
| CartContext.Cart.Total | src/context/CartContext.tsx:107-111 | `cart.total`: the listed total of the items, each line at variant price, else `base_price`, else 0, times its quantity |
| CartContext.Cart.AddToLocalCart | src/context/CartContext.tsx:137-163 | the items become the specified merge-or-append; the count rises by the quantity; the pair is in the cart; one line per pair is kept |
| CartContext.Cart.RemoveFromLocalCart | src/context/CartContext.tsx:179-184 | the items become the specified removal, keeping one line per pair |
| CartContext.Cart.UpdateLocalQuantity | src/context/CartContext.tsx:205-212 | the items become the specified quantity update, keeping one line per pair |
| CartContext.Cart.UpdateQuantity | src/context/CartContext.tsx:186-203 | a quantity of zero or less removes the line; otherwise the quantity is set |
| CartContext.Cart.ClearCart | src/context/CartContext.tsx:214-226 | the cart is empty, with total and count 0 |
| ProductCard.MainImage | src/components/products/ProductCard.tsx:15 | the image is never empty: the main image when set, else the first gallery image when that is non-empty, else the placeholder |
| ProductCard.ProductPrice | src/components/products/ProductCard.tsx:18 | the price when truthy, else the regular price when truthy, else 0 |
| ProductCard.VariantPrice | src/components/products/ProductCard.tsx:24 | a variant's price when truthy, else its regular price when truthy, else 0 |
| ProductCard.MinOf | src/components/products/ProductCard.tsx:24 | the minimum is one of the prices and no price is below it |
| ProductCard.VariantPrices | src/components/products/ProductCard.tsx:24 | one price per variant, in order |
| ProductCard.MinPrice | src/components/products/ProductCard.tsx:22-25 | the stored minimum when truthy, else the cheapest variant price, else the product price |
| ProductCard.DisplayedPrice | src/components/products/ProductCard.tsx:64-70 | a range exactly when both bounds are defined and differ; otherwise "from the minimum" exactly when there are variants; otherwise the product price |
| ProductCard.Button | src/components/products/ProductCard.tsx:75-94 | "Select Options" exactly for variable products; otherwise an add button disabled exactly at a stock of 0 |
| ProductCard.HandleAddToCart | src/components/products/ProductCard.tsx:27-30 | one unit of the product, without a variant, is added to the cart, whose count rises by one |
| ProductCard.AsWrittenNeverRemoves | src/components/products/ProductCard.tsx:96-103 | with numeric ids, the heart as written only ever adds: clicking a filled heart leaves the product in the wishlist |
| ProductCard.AsWrittenCounterexample | src/components/products/ProductCard.tsx:96-103 | product 5 alone in the wishlist is still there after its heart is clicked |
| ProductCard.ToggleFlips | src/components/products/ProductCard.tsx:96-103 | the intended heart flips membership, and two clicks from "absent" give the original list back |
| ProductCard.HandleHeartClick | src/components/products/ProductCard.tsx:96-103 | the click applies the intended toggle, so the product is in the wishlist afterwards exactly when it was not before |
| Orders.ItemRows | src/services/orders.ts:102-112 | one item row per order line, in order, each carrying the line's fields and its amount |
| Orders.ItemRowsSumToSubtotal | src/services/orders.ts:102-112 | the item rows' totals add up to the order's subtotal, and each row's subtotal and total equal the line's amount |
| Orders.TimestampTail | src/services/orders.ts:31 | at most the last eight characters of the clock reading are kept |
| Orders.OrderNumber | src/services/orders.ts:30-34 | `generateOrderNumber` with the clock reading and the random draw as inputs (its shape is the lemmas below) |
| Orders.DrawDigits | src/services/orders.ts:32 | the padded draw is exactly three digits whose value is the draw |
| Orders.TimestampTailLength | src/services/orders.ts:31 | a clock reading of eight digits or more leaves exactly eight characters |
| Orders.OrderNumberShape | src/services/orders.ts:30-34 | an order number is `ORD-`, the timestamp tail, `-` and three characters; with a current clock reading it is 16 characters long |
| Orders.OrderNumberDraw | src/services/orders.ts:32-33 | the last three characters of the number are the digits of the draw |
| Orders.NewOrder | src/services/orders.ts:43-95 | the order row: its subtotal is the sum of the line amounts, its total the subtotal plus the fee; status pending, currency PHP, the user's email on it, shipping and billing the given address |
| Orders.Cancelled | src/services/orders.ts:251-255 | exactly the rows with that id and email become cancelled, and nothing else changes |
| Orders.OrderStore.constructor | src/services/orders.ts:55-57 | the tables start empty, with unique order ids |
| Orders.OrderStore.CreateOrder | src/services/orders.ts:39-125 | without a user nothing is written; a failed order insert writes nothing; otherwise the pending order row, with the subtotal, the city's shipping fee and their sum, is added; a failed item insert keeps that row but no items; on success the item rows are added and exactly the user's cart rows are cleared |
| Orders.OrderStore.CancelOrder | src/services/orders.ts:233-258 | it succeeds exactly when the signed-in user has a pending order with that id and neither the status query nor the update fails, and then only that order becomes cancelled; a query error, a missing order, an order that is not pending and an update error each fail with their message and change nothing |
| Orders.OneMatch | src/services/orders.ts:238-243 | with unique ids, `.single()` finds a matching order exactly when one exists, and it is that order |
| Orders.GetOrders | src/services/orders.ts:130-161 | no user gives an empty list; a query error is raised with its message |
| Orders.GetOrdersSpec | src/services/orders.ts:130-161 | the list holds exactly the orders under the user's email, each once, latest first |
| Orders.GetOrderById | src/services/orders.ts:166-200 | no user fails with the log-in message; a query error is raised as it is; an order found is one of the user's with that id, with exactly its item rows |
| Orders.GetOrderByIdSpec | src/services/orders.ts:166-200 | with unique ids and no query error, the order is found exactly when one of the user's orders has that id, and otherwise the single-row error is raised |
| Orders.GetOrderByNumber | src/services/orders.ts:205-228 | no user fails; a query error is raised as it is; otherwise it succeeds exactly when one of the user's orders has that number, and returns it |
| Orders.SharedNumberNotFound | src/services/orders.ts:205-228 | when two of the user's orders share a number, looking it up fails |
| Profiles.ClearDefaults | src/services/profiles.ts:128-133 | only the flags change: the user's rows lose their default flag, except the row kept out by `.neq`, and every other row stays as it was |
| Profiles.ApplyUpdate | src/services/profiles.ts:164-171 | the user's row with that id takes the given fields and the new `updated_at`, and every other row stays as it was |
| Profiles.MarkDefault | src/services/profiles.ts:229-233 | the user's row with that id becomes the default, and every other row stays as it was |
| Profiles.OrderKey | src/services/profiles.ts:91-92 | in the list order, a default comes before a non-default, and the newer row comes first among rows with the same flag |
| Profiles.AddressesSpec | src/services/profiles.ts:83-96 | without a user the list is empty; otherwise it holds exactly the user's addresses, defaults first, newest first among equals |
| Profiles.DefaultAddress | src/services/profiles.ts:195-213 | without a user there is none; whatever is returned is one of the user's addresses |
| Profiles.DefaultAddressSpec | src/services/profiles.ts:195-213 | with at most one default per customer, a flagged default is what is returned; without one, the first address of the list, or nothing |
| Profiles.ClearDefaultsSpec | src/services/profiles.ts:128-133 | after clearing, the user's only default can be the kept row; other customers' rows are untouched; no customer gains a second default |
| Profiles.MarkDefaultKeepsOne | src/services/profiles.ts:229-233 | flagging a row when the customer has no other default leaves that row as their only default |
| Profiles.SetDefaultSpec | src/services/profiles.ts:218-236 | after `setDefaultAddress`, among the user's rows exactly the one with that id is the default; other customers' rows are untouched; one default per customer is kept |
| Profiles.CreateSpec | src/services/profiles.ts:123-146 | the new row is appended with the user as owner; a new default becomes the user's only default; a non-default leaves every other row unchanged; ids and defaults stay unique |
| Profiles.UpdateSpec | src/services/profiles.ts:151-174 | other customers' rows are untouched; the updated row gets the new timestamp; setting the flag leaves that row as the user's only default; otherwise no flag is raised; one default per customer is kept |
| Profiles.AddressBook.constructor | src/services/profiles.ts:135-142 | the table starts empty and well formed |
| Profiles.AddressBook.CreateAddress | src/services/profiles.ts:123-146 | without a user the call fails and nothing changes; a new default first clears the user's defaults, and a failure of that clearing goes unnoticed and clears nothing; a failed insert keeps whatever the clearing did and adds no row; otherwise the row is added and returned; each customer keeps at most one default whenever the clearing succeeded or was not needed |
| Profiles.FailedClearCreatesSecondDefault | src/services/profiles.ts:128-144 | when that clearing fails, a new default beside an existing one gives the customer two defaults |
| Profiles.AddressBook.UpdateAddress | src/services/profiles.ts:151-174 | without a user nothing changes; raising the flag first clears the user's other defaults, and a failure of that clearing goes unnoticed; a failed update keeps whatever the clearing did; otherwise the update is applied; at most one default each survives whenever the clearing succeeded or was not needed |
| Profiles.FailedClearUpdatesSecondDefault | src/services/profiles.ts:156-173 | when that clearing fails, flagging one row leaves the user's other default set too |
| Profiles.AddressBook.DeleteAddress | src/services/profiles.ts:179-190 | without a user or on an error nothing changes; otherwise exactly the user's own row with that id goes; at most one default each is kept |
| Profiles.AddressBook.SetDefaultAddress | src/services/profiles.ts:218-236 | without a user nothing changes; the first update clears the user's defaults, and its failure goes unnoticed; a failed second update keeps whatever the first did, so after a successful first update the user has no default at all; otherwise the row is marked, and the user's only default is that row when the first update succeeded |
| Profiles.FailedClearMarksSecondDefault | src/services/profiles.ts:222-235 | when the first update fails, marking one row leaves the user's old default set too |
| Profiles.AddressById | src/services/profiles.ts:101-118 | nothing without a user or when the lookup fails; an address returned is the user's own row with that id |
| Profiles.AddressByIdSpec | src/services/profiles.ts:101-118 | with unique ids, a signed-in user gets the address exactly when they own a row with that id |
| Profiles.GetProfile | src/services/profiles.ts:34-50 | nothing without a user or on an error; otherwise the profile exactly when one row has the user's id, and it is that row |
| Profiles.ProfilesAfter | src/services/profiles.ts:59-65 | the user's profile takes the fields given and the new `updated_at`; every other profile stays |
| Profiles.ProfileStore.constructor | src/services/profiles.ts:59-65 | no profiles and no metadata |
| Profiles.ProfileStore.UpdateProfile | src/services/profiles.ts:55-78 | without a user the call fails; a failed update is raised and changes nothing; otherwise the profile takes the update, and the auth metadata takes the name and phone given exactly when either is non-empty |
| Profiles.UpdateThenGet | src/services/profiles.ts:34-78 | with one profile per user, the updated profile is what `getProfile` then returns |
| Products.CategoryFilter | src/services/products.ts:52-54 | a single id gives its own containment term |
| Products.CategoryTerms | src/services/products.ts:53 | one containment term per id, in order |
| Products.CategoryFilterIsJoin | src/services/products.ts:52-54 | the filter is the terms joined by commas |
| Products.CategoryTermNoComma | src/services/products.ts:53 | an id without a comma gives a term without a comma |
| Products.CategoryFilterSplits | src/services/products.ts:52-56 | when no id contains a comma, splitting the `or` filter at commas gives back one term per id, in order, so no id is lost or merged |
| Products.CategoryClauses | src/services/products.ts:48-57 | there is a category clause exactly when some ids are given, and it is the joined filter |
| Products.SearchClauses | src/services/products.ts:59-61 | there is a search clause exactly when the term is non-empty |
| Products.PriceClauses | src/services/products.ts:63-69 | a price bound is applied exactly when it is given, 0 included, and no other clause is added |
| Products.StockClauses | src/services/products.ts:71-73 | a stock clause exactly when the stock status is non-empty |
| Products.FeaturedClauses | src/services/products.ts:75-77 | a featured clause exactly when the flag is given, `false` included |
| Products.SortClause | src/services/products.ts:80-95 | exactly one ordering clause; name order is ascending; a missing or unknown sort orders newest first |
| Products.PageClauses | src/services/products.ts:98-104 | a limit exactly when it is truthy; a row range exactly when the offset is truthy, starting there and one page long, the page being the limit or 10 |
| Products.ApplySharedFilters | src/services/products.ts:45-69 | the published filter, the category, search and price clauses, in that order |
| Products.ApplySort | src/services/products.ts:80-95 | the `switch` appends the ordering clause |
| Products.ApplyPaging | src/services/products.ts:98-104 | the paging clauses are appended |
| Products.ProductsQuery | src/services/products.ts:19-106 | the listing query is the shared filters, the stock and featured clauses, the ordering and the paging, in that order |
| Products.CountQuery | src/services/products.ts:251-281 | the count query is the shared filters and the featured clause |
| Products.SharedKept | src/services/products.ts:45-69 | the shared filters are all kept by the count |
| Products.ListingDropped | src/services/products.ts:71-104 | the stock-status clause, the ordering and the paging are all left out of the count |
| Products.FeaturedKept | src/services/products.ts:277-279 | the featured clause is kept by the count |
| Products.CountQueryDropsListingClauses | src/services/products.ts:251-281 | dropping the listing-only clauses from the listing query gives exactly the count query, so the count ignores the stock-status filter |
| Products.CountResult | src/services/products.ts:281-289 | a failed count or a falsy count gives 0; otherwise the count |
| Products.FeaturedQuery | src/services/products.ts:230-236 | the featured listing is the published featured products, newest first, with the limit (8 by default) and nothing else |
| Products.SearchQuery | src/services/products.ts:241-246 | the search listing is the published products matching the term, newest first, with the limit (20 by default) and nothing else |
| Products.ProductBySlug | src/services/products.ts:120-177 | null on a failed lookup; a product returned is a published one with that slug |
| Products.ProductById | src/services/products.ts:182-225 | null on a failed lookup; a product returned has that id, compared as text |
| Products.ProductBySlugSpec | src/services/products.ts:120-177 | with unique slugs, a slug finds its product exactly when the product is published |
| Products.DraftFoundOnlyById | src/services/products.ts:167-216 | a draft product is found by its id but not by its slug: the id lookup does not filter on status |
| ShopPage.ParentSlugs | src/pages/ShopPage.tsx:48-52 | the list starts with the category slug; `men` and `mens`, and `ladies` and `woman`, are synonyms both ways; any other slug has no synonym |
| ShopPage.RowWithId | src/pages/ShopPage.tsx:64 | the first row with this id, or none when no row has it |
| ShopPage.ParentOf | src/pages/ShopPage.tsx:62-66 | a parent is found only for a truthy parent id; none is found only when no row has that id |
| ShopPage.IdsAt | src/pages/ShopPage.tsx:77-108 | a found row gives a one-element id list; no row gives an empty list |
| ShopPage.SubcategoryStage | src/pages/ShopPage.tsx:54-97 | the subcategory stage yields at most one id, and only the id of an existing row |
| ShopPage.MainFallback | src/pages/ShopPage.tsx:100-110 | one id exactly when some row matches the main category, counting the one-way aliases; that row's id |
| ShopPage.TargetShape | src/pages/ShopPage.tsx:42-114 | the URL resolves to at most one category id, and only to an existing row's id |
| ShopPage.FirstAcceptedWins | src/pages/ShopPage.tsx:55-78 | with both parameters present, the first accepted subcategory row in list order is the one selected |
| ShopPage.SubcategoryParentFallback | src/pages/ShopPage.tsx:79-96 | with no accepted row, the first row slugged as the subcategory is selected, or its first gendered child when there is one |
| ShopPage.FindSlugRow | src/pages/ShopPage.tsx:81 | the lookup by lower-cased slug finds the first row with that slug |
| ShopPage.MainFallbackOnlyWhenUnresolved | src/pages/ShopPage.tsx:99-110 | the main-category fallback decides exactly when there is no subcategory or the subcategory stage resolved nothing |
| ShopPage.WomanFormForOtherCategories | src/pages/ShopPage.tsx:59 | `{sub}-woman` matches for every category other than `men` (so also for `kids`), and `{sub}-man` for `men` |
| ShopPage.AcceptedWithParent | src/pages/ShopPage.tsx:62-68 | a matching row with an existing parent is accepted exactly when the parent's slug is the category or a synonym |
| ShopPage.AcceptedWithoutParent | src/pages/ShopPage.tsx:61-72 | a matching row with no parent, or a dangling one, is accepted exactly when its own slug contains the category or a synonym |
| ShopPage.IdsNamed | src/pages/ShopPage.tsx:208-210 | exactly the ids of the rows with this name, empty-product rows included |
| ShopPage.CheckSpec | src/pages/ShopPage.tsx:222-225 | checking a name gives a duplicate-free selection holding exactly the old selection and the name's ids |
| ShopPage.CheckKeepsSelection | src/pages/ShopPage.tsx:223-225 | checking keeps a duplicate-free selection as a prefix, and everything appended is a new id of the name |
| ShopPage.UncheckSpec | src/pages/ShopPage.tsx:228 | unchecking leaves exactly the selected ids that are not the name's |
| ShopPage.UncheckAfterCheck | src/pages/ShopPage.tsx:221-229 | unchecking straight after checking restores a duplicate-free selection that held none of the name's ids |
| ShopPage.NamesWithProducts | src/pages/ShopPage.tsx:203-205 | exactly the names of rows with a positive product count |
| ShopPage.DisplayNamesSpec | src/pages/ShopPage.tsx:202-206 | the checkbox names are sorted by code points, without duplicates, and are exactly the names of rows with products |
| ShopPage.TotalPages | src/pages/ShopPage.tsx:30 | the page count is the ceiling of the total over 12 |
| ShopPage.ShownFrom | src/pages/ShopPage.tsx:345-351 | the listed page numbers are strictly increasing and are exactly the first page, the last page and the pages next to the current one |
| ShopPage.EllipsisIffSkipped | src/pages/ShopPage.tsx:352-357 | an ellipsis is drawn before a listed page exactly when some page between it and the previous listed page is not listed |
| ShopPage.ShopPageState.constructor | src/pages/ShopPage.tsx:17-29 | no categories and no selection, prices 0..1000, sorted by name, page 1, total 0 |
| ShopPage.ShopPageState.SetSelected | src/pages/ShopPage.tsx:123-126 | a new selection also takes the page back to 1; nothing else changes |
| ShopPage.ShopPageState.SetMinPrice | src/pages/ShopPage.tsx:250 | the minimum price is set; the page goes back to 1 exactly when the value changed (the reset effect of lines 123-126 does not run on an equal value); nothing else changes |
| ShopPage.ShopPageState.SetMaxPrice | src/pages/ShopPage.tsx:259 | the maximum price is set; the page goes back to 1 exactly when the value changed; nothing else changes |
| ShopPage.ShopPageState.SetSortBy | src/pages/ShopPage.tsx:290 | a new sort order also takes the page back to 1; nothing else changes |
| ShopPage.ShopPageState.ResetFilters | src/pages/ShopPage.tsx:266-271 | the selection is cleared, the price range goes back to 0..1000 and the page to 1; the sort order is kept |
| ShopPage.ShopPageState.LoadCategories | src/pages/ShopPage.tsx:34-119 | the rows are stored; the selection becomes the resolved id (back on page 1) when one resolves and is otherwise left alone |
| ShopPage.ShopPageState.ToggleName | src/pages/ShopPage.tsx:220-230 | a checkbox change checks or unchecks all ids of that name and goes back to page 1 |
| ShopPage.ShopPageState.GoToPage | src/pages/ShopPage.tsx:162-167 | only a page in 1..totalPages is accepted; any other request leaves the state unchanged |
| ShopPage.ShopPageState.ReceiveCount | src/pages/ShopPage.tsx:149-151 | the reported count becomes the total; nothing else changes |
| ShopPage.PageFilters | src/pages/ShopPage.tsx:134-141 | 12 per page at offset (page−1)·12; the minimum price, selection and sort are sent; a non-positive maximum is left out |
| ShopPage.PageWindow | src/pages/ShopPage.tsx:134-141 | page 1 asks for the first 12 rows with no range; a later page p asks for rows (p−1)·12 through p·12−1 |
| Checkout.CanContinue | src/pages/CheckoutPage.tsx:366 | the shipping step may continue exactly when city, address and full name are all non-empty |
| Checkout.NextStep | src/pages/CheckoutPage.tsx:101-108 | a button moves at most one step; Back moves one step back (it is not offered on the shipping step); every other button moves forward or not at all |
| Checkout.StepEntry | src/pages/CheckoutPage.tsx:101-108 | confirmation is reached only by submitting payment; payment only by an enabled Continue from shipping or Back from confirmation |
| Checkout.BackUndoesForward | src/pages/CheckoutPage.tsx:428-500 | Back undoes each forward move |
| Checkout.DefaultChoice | src/pages/CheckoutPage.tsx:51-66 | the first address flagged default is preselected, else the first address; the new-address form exactly when there is no address |
| Checkout.DefaultChoiceIsFirstListed | src/pages/CheckoutPage.tsx:47-53 | since the address list puts defaults first, the page always preselects the first listed address |
| Checkout.FromSaved | src/pages/CheckoutPage.tsx:54-62 | a saved address fills the name, city and the other fields; a missing postal code becomes empty; the e-mail is kept |
| Checkout.SplitName | src/pages/CheckoutPage.tsx:133-134 | first name is the text before the first space, or the whole name when that is empty; last name is the rest after it (its properties are the two lemmas below) |
| Checkout.SplitNameNoSpace | src/pages/CheckoutPage.tsx:133-134 | a name without a space is all first name, and the last name is empty |
| Checkout.SplitNameWithSpace | src/pages/CheckoutPage.tsx:133-134 | a name with a space and no leading space is a non-empty first name without spaces, one space, then the last name |
| Checkout.LineSku | src/pages/CheckoutPage.tsx:125 | the variant's SKU when it has a non-empty one, else the product's, else none |
| Checkout.ToOrderLine | src/pages/CheckoutPage.tsx:121-128 | an order line keeps the item's product and quantity, charges the variant price or else the product price or else 0, and always has a product name |
| Checkout.ToOrderItems | src/pages/CheckoutPage.tsx:121 | one order line per cart item, in order |
| Checkout.OrderSubtotalIsCartTotal | src/pages/CheckoutPage.tsx:121-128 | the subtotal of the order lines equals the charged cart total |
| Checkout.ChargedTotalIsOrderTotal | src/services/orders.ts:43-52 | the charged cart total plus the fee for the order's city equals the total the new order records |
| Checkout.OrderAddress | src/pages/CheckoutPage.tsx:132-141 | the order's shipping address has the form's city and the country Philippines |
| Checkout.DisplayedTotalIsOrderTotal | src/pages/CheckoutPage.tsx:99 | when every line is listed at the price checkout charges, the total shown (cart total plus the fee for the order's city) equals the total the new order records |
| Checkout.DisplayedTotalCounterexample | src/pages/CheckoutPage.tsx:99 | a signed-in cart of one mapped line, price 0 and regular price 600: the page shows 600 plus the fee while the order placed from it records the fee alone |
| Checkout.CheckoutForm.constructor | src/pages/CheckoutPage.tsx:19-39 | the shipping step, no saved addresses, nothing selected, the new-address fields, cash on delivery, fee 0 |
| Checkout.CheckoutForm.LoadSavedAddresses | src/pages/CheckoutPage.tsx:41-80 | with no user or a failed load the new-address form is chosen and the fields are kept; otherwise the addresses are stored, the default choice is selected and a chosen address fills the form |
| Checkout.CheckoutForm.SelectSaved | src/pages/CheckoutPage.tsx:244-255 | picking a saved address selects it and fills the form from it with the account's e-mail; nothing else changes |
| Checkout.CheckoutForm.SelectNew | src/pages/CheckoutPage.tsx:291-302 | picking the new-address option resets the form to the account's name and e-mail; nothing else changes |
| Checkout.CheckoutForm.RefreshShippingFee | src/pages/CheckoutPage.tsx:82-97 | a city of more than two characters sets the fee to that city's rate; otherwise the fee is kept; nothing else changes |
| Checkout.CheckoutForm.TotalAmount | src/pages/CheckoutPage.tsx:99 | `totalAmount`: the cart's listed total plus the current fee |
| Checkout.CheckoutForm.Press | src/pages/CheckoutPage.tsx:101-108 | a button press moves the step as the step function says, Continue enabled only with the city, street and name filled in; nothing else changes |
| Checkout.CheckoutForm.PlaceOrder | src/pages/CheckoutPage.tsx:110-174 | with no user nothing is created; it succeeds exactly when both inserts succeed; a failed order insert leaves the orders alone, while a failed item insert leaves the new pending order behind with no item rows, and either failure leaves the address book, the cart and the stored cart rows alone; a placed order is appended with subtotal the charged cart total and total that plus the city's fee, its item rows are the cart's lines in order, the cart and the user's stored cart rows are emptied, and the address is saved as the new default after the clearing of the user's defaults (either step may fail unnoticed); one default per customer survives when the clearing succeeded |
| ProductDetail.Trims | src/pages/ProductDetailPage.tsx:171-172 | every entry trimmed, in order, nothing dropped |
| ProductDetail.TrimsAppend | src/pages/ProductDetailPage.tsx:171-172 | trimming a concatenation is concatenating the trimmed parts |
| ProductDetail.NormalizedSnoc | src/pages/ProductDetailPage.tsx:171-177 | one more entry adds its trimmed form at the end exactly when that form is non-empty and not yet listed |
| ProductDetail.NormalizeUrls | src/pages/ProductDetailPage.tsx:168-177 | the de-duplicating loop returns the de-duplicated, trimmed, non-empty entries in first-occurrence order |
| ProductDetail.NormalizeStep | src/pages/ProductDetailPage.tsx:171-177 | each loop step pushes the trimmed entry exactly when it is non-empty and not yet seen |
| ProductDetail.GetDisplayImages | src/pages/ProductDetailPage.tsx:143-180 | the gallery shown is the normalized combined list, or the placeholder alone when that is empty |
| ProductDetail.TrimsOnly | src/pages/ProductDetailPage.tsx:172 | every trimmed entry is the trimmed form of some entry |
| ProductDetail.TrimsAll | src/pages/ProductDetailPage.tsx:172 | the trimmed form of every entry occurs |
| ProductDetail.TrimsHas | src/pages/ProductDetailPage.tsx:172 | a text occurs among the trimmed entries exactly when it is some entry's trimmed form |
| ProductDetail.NormalizedHas | src/pages/ProductDetailPage.tsx:168-177 | a text is listed exactly when it is non-empty and the trimmed form of some entry |
| ProductDetail.NormalizedShape | src/pages/ProductDetailPage.tsx:168-177 | the normalized list has no repeats and holds only trimmed, non-empty texts |
| ProductDetail.PlaceholderTrimmed | src/pages/ProductDetailPage.tsx:179 | the placeholder path is already trimmed |
| ProductDetail.DisplayImagesShape | src/pages/ProductDetailPage.tsx:143-180 | the gallery is never empty, has no repeats, and holds only trimmed, non-empty paths |
| ProductDetail.DisplayImagesPlaceholder | src/pages/ProductDetailPage.tsx:176-179 | when every candidate entry is blank, the gallery is the placeholder alone |
| ProductDetail.VariantImagesFirst | src/pages/ProductDetailPage.tsx:150-158 | with variant images, those come first, and every other entry comes from the gallery and differs from the trimmed main image |
| ProductDetail.DedupHead | src/pages/ProductDetailPage.tsx:168-177 | de-duplication keeps the first entry in first place |
| ProductDetail.MainImageFirst | src/pages/ProductDetailPage.tsx:159-165 | without variant images, a main image with text comes first |
| ProductDetail.TrimOfNonEmpty | src/pages/ProductDetailPage.tsx:162-165 | dropping blank entries does not change which non-empty trimmed forms occur |
| ProductDetail.MainAndGalleryEntries | src/pages/ProductDetailPage.tsx:159-177 | without variant images, the gallery holds exactly the non-empty trimmed forms of the main image and the gallery entries (or the placeholder) |
| ProductDetail.FirstAttr | src/pages/ProductDetailPage.tsx:46-47 | the result is the value of the first key with a non-empty value, or the empty text |
| ProductDetail.AttrLookupsAgree | src/pages/ProductDetailPage.tsx:276-277 | for a capitalized key the loader's lookup and the pickers' lookup agree |
| ProductDetail.CapitalizedKeys | src/pages/ProductDetailPage.tsx:47 | `Color` and `Size` are already capitalized |
| ProductDetail.CompareSizes | src/pages/ProductDetailPage.tsx:66-84 | two numeric sizes compare by value; otherwise two sizes in the size table compare by table position; otherwise by locale order |
| ProductDetail.CompareVariants | src/pages/ProductDetailPage.tsx:50-85 | a lower colour rank (white, then black, then the rest) always sorts first; equal ranks compare by size |
| ProductDetail.BestIndex | src/pages/ProductDetailPage.tsx:50-87 | the chosen position is within the list |
| ProductDetail.BestIndexRank | src/pages/ProductDetailPage.tsx:50-87 | under a comparator that agrees with a rank, the first sorted element has the lowest rank |
| ProductDetail.BestIndexLeast | src/pages/ProductDetailPage.tsx:50-87 | under a comparator that is a strict order, no element sorts before the chosen one, and it sorts before every element ahead of it |
| ProductDetail.DefaultIndex | src/pages/ProductDetailPage.tsx:50-87 | the default variant's position is within the list |
| ProductDetail.CompareRank | src/pages/ProductDetailPage.tsx:55-63 | the comparator puts a lower colour rank first and never puts a higher one first |
| ProductDetail.DefaultHasBestRank | src/pages/ProductDetailPage.tsx:44-88 | the default variant is white if any variant is white, else black if any is black |
| ProductDetail.CompareNumeric | src/pages/ProductDetailPage.tsx:69-74 | with numeric sizes the comparator is negative exactly when the first variant comes first by (colour rank, numeric size) |
| ProductDetail.BeforeOrder | src/pages/ProductDetailPage.tsx:50-85 | the (colour rank, numeric size) order is irreflexive and transitive |
| ProductDetail.DefaultIsSmallest | src/pages/ProductDetailPage.tsx:44-88 | with numeric sizes, the default variant has the best colour and, among those, the smallest size |
| ProductDetail.Available | src/pages/ProductDetailPage.tsx:300-303 | with colours present and a colour chosen, exactly the variants of that colour; otherwise all variants |
| ProductDetail.Colors | src/pages/ProductDetailPage.tsx:284-286 | the colour buttons are exactly the non-empty colours of the variants, each once |
| ProductDetail.Sizes | src/pages/ProductDetailPage.tsx:305-306 | the size buttons are exactly the non-empty sizes of the available variants, each once |
| ProductDetail.SizeOutOfStock | src/pages/ProductDetailPage.tsx:390-391 | a size with no variant is out of stock; otherwise it is out of stock exactly when its first variant has no stock |
| ProductDetail.CurrentPrice | src/pages/ProductDetailPage.tsx:189-190 | the selected variant's truthy price, else the product price, else the regular price, else 0 |
| ProductDetail.CurrentStock | src/pages/ProductDetailPage.tsx:191 | the selected variant's stock when set, else the product's, else 0; a stock of 0 is kept |
| ProductDetail.LabelAsWritten | src/pages/ProductDetailPage.tsx:497-501 | the label as written: "Out of Stock" exactly when the current stock is 0 |
| ProductDetail.Label | src/pages/ProductDetailPage.tsx:497-501 | the corrected label: "Out of Stock" exactly when the current stock is 0 |
| ProductDetail.LabelAsWrittenMissesNumericIds | src/pages/ProductDetailPage.tsx:497-501 | with numeric ids in the cart, the label as written never says "Update Cart" |
| ProductDetail.LabelAsWrittenCounterexample | src/pages/ProductDetailPage.tsx:497-501 | product 7 added to an empty cart: the label as written says "Add to Cart" where the corrected one says "Update Cart" |
| ProductDetail.LabelSpec | src/pages/ProductDetailPage.tsx:497-501 | the corrected label says "Update Cart" exactly when there is stock and the selected product and variant are in the cart |
| ProductDetail.Decrement | src/pages/ProductDetailPage.tsx:459 | the minus button takes one off and never goes below 1 |
| ProductDetail.TypedQuantity | src/pages/ProductDetailPage.tsx:468 | a typed number of at least 1 is kept; anything else gives 1 |
| ProductDetail.Increment | src/pages/ProductDetailPage.tsx:475 | the plus button adds one, capped at the stock (or at 1 when the stock is 0) |
| ProductDetail.IncrementEnabled | src/pages/ProductDetailPage.tsx:475-477 | while the plus button is enabled it adds exactly one |
| ProductDetail.ProductPage.constructor | src/pages/ProductDetailPage.tsx:18-25 | no product, no error, loading, nothing selected, quantity 1 |
| ProductDetail.ProductPage.SelectDefault | src/pages/ProductDetailPage.tsx:87-96 | the default variant is selected, with its colour and size when they have text |
| ProductDetail.ProductPage.LoadProduct | src/pages/ProductDetailPage.tsx:29-107 | a failed load or a missing product sets the matching error; a loaded product is stored and, with variants, its default variant is selected; loading ends in every case |
| ProductDetail.ProductPage.SelectColor | src/pages/ProductDetailPage.tsx:344-366 | the colour is chosen; the size is kept with the variant of that colour and size when one exists; otherwise the size and variant are cleared |
| ProductDetail.ProductPage.SelectSize | src/pages/ProductDetailPage.tsx:390-406 | an out-of-stock size does nothing; otherwise the size and its first available variant, which has stock, are selected |
| ProductDetail.ProductPage.Minus | src/pages/ProductDetailPage.tsx:459-461 | the quantity goes down by one but not below 1; disabled without stock |
| ProductDetail.ProductPage.Type | src/pages/ProductDetailPage.tsx:468-472 | the typed quantity is taken; disabled without stock |
| ProductDetail.ProductPage.Plus | src/pages/ProductDetailPage.tsx:475-477 | disabled at or above the stock and without stock; otherwise the quantity goes up by one and stays within the stock |
| ProductDetail.ProductPage.AddSelectionToCart | src/pages/ProductDetailPage.tsx:197-199 | a disabled button leaves the cart alone; otherwise the selection and quantity are added and the corrected label then says "Update Cart" |
| ProductDetail.ProductPage.SelectListed | src/pages/ProductDetailPage.tsx:423-428 | a button of the plain variant list selects that variant; nothing else changes |

## Left out

- Rendering, styling, routing, navigation and `alert` calls: the model covers the state and values the handlers compute, not what is drawn.
- The hosted database and the network. The query builder of the product service is modelled as the list of clauses it chains; the database's evaluation of those clauses is not modelled. `ilike` is ASCII case-insensitive equality, without the pattern characters.
- Database failures in the cart service, in `getCart`, in `getAddresses` and in the evaluation of `getProducts`: these calls are modelled on their successful path. The other services take each failure they read, or ignore, as a parameter.
- CartService.SyncOverwrites: requires the guest items to have distinct conflict keys. The source sends them in one batched `upsert`, which the database rejects when two rows share a conflict key; the model applies the rows one by one and does not model that rejection.
- The upsert conflict key with a missing variant: two rows without a variant are taken to collide, as the code intends; the behaviour of a unique index that treats NULLs as distinct is not modelled.
- The signed-in branches of the cart context that call the cart service, `refreshCart`, and the localStorage persistence and JSON (de)serialisation of the guest cart and the wishlist.
- The product and variant data that `getCart` and `getOrders` join onto their rows (`product:products(*)`, embedded `order_items`): the reads return the rows themselves.
- `updateAddress` and `updateProfile` spread a partial update over the row; the model's update records carry the fields the pages send.
- The metadata half of `updateProfile` assumes that the auth provider's `updateUser` merges the given keys into the user's metadata.
- HeroSlider.Slider.constructor: requires at least one slide, because with none the source's `% slides.length` gives `NaN`.
- The autoplay interval, the 3-second redirect after a password reset and the 500 ms debounce of the checkout fee: timing is left out. Each callback that fires is modelled as a method call.
- The `isProcessing`, `loading` and `isLoadingAddresses` flags of the checkout page, its plain field setters (`setShippingInfo` on typing, `setPaymentMethod`), and its redirect when the cart is empty.
- The display order of the colour and size buttons. Their sort comparators mix a priority list, `parseFloat` and `localeCompare`; the model keeps which buttons appear, in first-use order.
- The default-variant sort is modelled by the element a stable sort puts first. For a comparator that is not a consistent order, JavaScript's choice there is implementation-defined.
- The thumbnail index of the product page and the effect that resets it, the size-chart dialog, and the early return of `loadProduct` when the route has no id.
- The `Number(...)` conversion of product ids when checkout builds order lines: cart ids are copied unchanged.
- `formatDate`, `calculateDiscount` and the currency formatting: they are locale formatting or floating point.
- The error exits of the developer scripts (a failed fetch, `process.exit`), their console output, and the fetch and file write of the location transform. Also its array-input branch, which would destructure each array element as a pair.
- The loading and error flags of the shop page and the product list it fetches: the model covers the filters it sends and the count it stores.
- TitleWord: lower-cases ASCII letters only; JavaScript's `toLowerCase` also lower-cases other letters, so a name such as `PARAÑAQUE` keeps its `Ñ` in the model where the page shows `ñ`.
- JoinTitleWords: states the joined title case with ASCII-only lower-casing, for the same reason as TitleWord.
- TitleCaseSpec: states title case with ASCII-only lower-casing, for the same reason as TitleWord.
- ResetPassword.Validate: counts the password's length in characters; JavaScript's `length` counts UTF-16 code units, so a password of three characters outside the Basic Multilingual Plane (three emoji) is too short in the model and long enough on the page.
- HeroSlider.Next and HeroSlider.Prev: promise a slide index only from an index of 0 or more. The page can reach a negative index only through `goToSlide`, whose dots offer slide indices.
- Shipping.ShippingZones and Shipping.ShippingZonesSpec: order the zones by the code points of their names; the database's `order('name')` follows its collation, which may order letters of different case or accented letters differently.
- ShopPage.DisplayNamesSpec: sorts by code points, while JavaScript's `sort()` compares UTF-16 code units; the two orders differ only between characters beyond the Basic Multilingual Plane and those in U+E000..U+FFFF.

## Findings

| source | as written | input that shows it | evidently intended | confidence | as-written member | corrected member |
|---|---|---|---|---|---|---|
| src/components/products/ProductCard.tsx:96-103 | the heart asks `isInWishlist(String(product.id))`, but the wishlist stores the product with its numeric id and compares with `===` | a product with id 5 alone in the wishlist: the click sees "not in wishlist" and calls add, which keeps the list as it is, so the product is never removed | the click removes a wished product and adds an unwished one | not executed | ProductCard.AsWrittenNeverRemoves, ProductCard.AsWrittenCounterexample | ProductCard.ToggleFlips, ProductCard.HandleHeartClick |
| src/context/CartContext.tsx:107-111 | the cart total prices a line without a variant at `product.base_price`, which the product records added from the pages do not carry | one simple product priced 500 in the guest cart: the cart shows a total of 0 (a display gap only, since a guest cannot place an order); a signed-in line, whose `base_price` the database mapping sets to `price || regular_price`, with price 0 and regular price 600: the checkout page shows 600 plus the fee while the order records the fee alone | the total uses the price checkout charges (variant price, else product price) | not executed | CartContext.ListedTotalCounterexample, CartContext.MappedLineCounterexample, Checkout.DisplayedTotalCounterexample | CartContext.ChargedTotal, CartContext.AddChargedTotal, Checkout.ChargedTotalIsOrderTotal |
| src/pages/ProductDetailPage.tsx:499 | the add-to-cart label asks `isInCart(String(product.id), ...)`, but the guest cart stores the numeric product id and compares with `===` (the signed-in cart, which the database mapping fills with string ids, is not affected) | product 7 added to an empty guest cart: the label still reads "Add to Cart" | the label reads "Update Cart" once the selected product and variant are in the cart | not executed | ProductDetail.LabelAsWrittenMissesNumericIds, ProductDetail.LabelAsWrittenCounterexample | ProductDetail.LabelSpec, ProductDetail.ProductPage.AddSelectionToCart |
