# Shopping-cart use case in Dafny

This project models `CartUseCase`, the domain use case of the shopping-cart
service. It covers its four operations:

- **cartSave** adds an article to the authenticated user's cart. It checks that
  the article exists and that enough is in stock. If the user already has a
  line for the article, that line absorbs the quantity. Otherwise the
  category-diversity rule runs: no category may be tallied more than
  MAX_NUM_CATEGORY = 3 times over the cart plus the new article. Only then is
  a new line stored.
- **deleteCart** removes one line of the user's cart, or fails with
  TheArticleNotExist. It then restamps the user's remaining lines.
- **getCart** validates the paging, reads the user's cart and builds the view:
  one detail per article the stock service returns, with its subtotal and an
  availability message, plus the total over the cart's price list.
- **buyArticle** re-validates the stock of the whole cart, records one sale
  per cart line in the transaction ledger, and empties the cart.
  ItemNotAvailable and NoDataFound propagate unchanged. Any other failure
  calls returnRecord for the user and the checkout time, and the caller sees
  PurchaseFailure.

The project has three files:

- `cart_types.dfy` (module `CartTypes`): the data model and the use case's
  constants.
- `cart_rules.dfy` (module `CartRules`): the pure rules as specification
  functions, with the lemmas that state their properties. The rules are the
  store queries, the guards, the category tally, the view, the stock
  re-validation, the ledger records, and the store updates.
- `cart_use_case.dfy` (module `CartService`): the operations over a `Store`
  value, one method per loop of the source, and the class `CartUseCase`.
  The class's fields are the collaborators' state: the cart table, the
  stock catalog, the next supply date, the ledger, and the log of reversals.
  Each of its methods is proved equal to the corresponding state-level
  function. The class invariant `Valid` (one line per user and article) is
  kept by every method.

The collaborators are modelled as follows:

- The authenticated user, the clock and the stock service's answers to paged
  queries are parameters.
- `existArticleById` is a lookup in the `catalog` map.
- `getNextDate` is the `nextDate` field.

## Model

Paths are relative to the repository root. `CartUseCase.java` is
`src/main/java/com/emazon/api_shopping_cart/domain/usecase/CartUseCase.java`
and the unit tests are in
`src/test/java/com/emazon/api_shopping_cart/domain/usecase/CartUseCaseTest.java`.

| member | source | states |
|---|---|---|
| CartRules.FindLine | src/main/java/com/emazon/api_shopping_cart/domain/usecase/CartUseCase.java:130 | the position found is the first line with the user and article; there is none exactly when no line has that key |
| CartRules.LineOf | src/main/java/com/emazon/api_shopping_cart/domain/usecase/CartUseCase.java:130-131 | the line found is in the store with the key; null exactly when no stored line has the key |
| CartRules.LineOfUnique | src/main/java/com/emazon/api_shopping_cart/domain/usecase/CartUseCase.java:130 | with one line per key, looking a stored line's key up returns that very line |
| CartRules.UserLines | src/main/java/com/emazon/api_shopping_cart/domain/usecase/CartUseCase.java:95 | the user's cart holds exactly the stored lines of that user, and is no longer than the store |
| CartRules.UserLinesSnoc | src/main/java/com/emazon/api_shopping_cart/domain/usecase/CartUseCase.java:60 | a line saved last is the last line of its user's cart and of no other cart |
| CartRules.QuantityFromItem | src/main/java/com/emazon/api_shopping_cart/domain/usecase/CartUseCase.java:225-231 | null exactly when no line has the article; otherwise the quantity of the first line that has it |
| CartRules.ArticleIds | src/main/java/com/emazon/api_shopping_cart/domain/usecase/CartUseCase.java:185-189 | one id per line in cart order; an id is listed exactly when getQuantityFromItem finds a quantity for it |
| CartRules.ValidatePaginationData | src/main/java/com/emazon/api_shopping_cart/domain/usecase/CartUseCase.java:176-183 | passes exactly when page and size are both present and non-negative; otherwise PaginationNotAllowed |
| CartRules.ValidateData | src/main/java/com/emazon/api_shopping_cart/domain/usecase/CartUseCase.java:191-195 | passes exactly when the list is present and non-empty; otherwise NoDataFound |
| CartRules.AvailabilityCheck | src/main/java/com/emazon/api_shopping_cart/domain/usecase/CartUseCase.java:119-126 | throws exactly when fewer are available than requested, with the article name and the next supply date |
| CartRules.LimitOutcome | src/main/java/com/emazon/api_shopping_cart/domain/usecase/CartUseCase.java:154-167 | the tally loop over a category list fails only with CategoryLimit naming a category of that list; what it means in full is stated by LimitMeaning |
| CartRules.FirstExcess | src/main/java/com/emazon/api_shopping_cart/domain/usecase/CartUseCase.java:155-165 | the first position whose running tally exceeds MAX_NUM_CATEGORY; none exactly when no running tally does |
| CartRules.LimitMeaning | src/main/java/com/emazon/api_shopping_cart/domain/usecase/CartUseCase.java:154-167 | the tally passes exactly when no running tally exceeds the limit; otherwise the error names a category whose running tally did |
| CartRules.TalliesSnoc | src/main/java/com/emazon/api_shopping_cart/domain/usecase/CartUseCase.java:158-161 | getOrDefault plus ADD_ONE, put back, keeps the map equal to the count of every category seen |
| CartRules.TallyStep | src/main/java/com/emazon/api_shopping_cart/domain/usecase/CartUseCase.java:155-165 | one step of the tally loop keeps the map's invariant; a new count above the limit decides the verdict on the whole list |
| CartRules.WithinLimitIffBounded | src/main/java/com/emazon/api_shopping_cart/domain/usecase/CartUseCase.java:163-165 | the tally never throws exactly when no category occurs more than MAX_NUM_CATEGORY times in total |
| CartRules.CategoryVerdict | src/main/java/com/emazon/api_shopping_cart/domain/usecase/CartUseCase.java:141-152 | the scan of validateArticleByCategory fails only with CategoryLimit or ArticleNotFound; its full meaning is stated by VerdictMeaning |
| CartRules.VerdictMeaning | src/main/java/com/emazon/api_shopping_cart/domain/usecase/CartUseCase.java:141-152 | the scan passes exactly when every scanned article exists and no category is tallied past the limit; a failure is a missing scanned id or a category limit |
| CartRules.VerdictExtends | src/main/java/com/emazon/api_shopping_cart/domain/usecase/CartUseCase.java:147-150 | once the scan of a prefix has thrown, the ids after it do not change the verdict |
| CartRules.Lookups | src/main/java/com/emazon/api_shopping_cart/domain/usecase/CartUseCase.java:147-148 | the articles the scan looks up before it returns or throws are never more than the ids scanned; LookupsStop says exactly how many |
| CartRules.LookupsStop | src/main/java/com/emazon/api_shopping_cart/domain/usecase/CartUseCase.java:147-150 | a passing scan looks up every id; a failing one stops right after the id that fails it, with all earlier ids passing |
| CartRules.LookupsAt | src/main/java/com/emazon/api_shopping_cart/domain/usecase/CartUseCase.java:147-150 | when the first k ids pass and id k fails, the scan makes exactly k + 1 lookups and its verdict is that of id k |
| CartRules.ScanStopsOnMissing | src/main/java/com/emazon/api_shopping_cart/domain/usecase/CartUseCase.java:147-148 | an unknown article after a clean prefix is the verdict, after exactly i + 1 lookups |
| CartRules.ScanStopsOnLimit | src/main/java/com/emazon/api_shopping_cart/domain/usecase/CartUseCase.java:147-150 | a tally overflow inside article i is the verdict, after exactly i + 1 lookups |
| CartRules.ScanStopsAtFirst | src/main/java/com/emazon/api_shopping_cart/domain/usecase/CartUseCase.java:147-150 | a first article whose own categories overflow the tally stops the scan after one lookup, with its category as the error |
| CartRules.ScanCompletes | src/main/java/com/emazon/api_shopping_cart/domain/usecase/CartUseCase.java:143-151 | a scan of known articles that never overflows passes after looking up every id |
| CartRules.ScanUncategorised | src/main/java/com/emazon/api_shopping_cart/domain/usecase/CartUseCase.java:143-151 | known articles without categories pass the scan after one lookup each |
| CartRules.Detail | src/main/java/com/emazon/api_shopping_cart/domain/usecase/CartUseCase.java:202-213 | a detail line carries the next supply date as its message exactly when the article's stock is below the cart quantity |
| CartRules.Details | src/main/java/com/emazon/api_shopping_cart/domain/usecase/CartUseCase.java:201-216 | the detail loop builds exactly when every returned article has a cart line, with one detail per article; otherwise the error is the first returned article without a line |
| CartRules.DetailsDescribe | src/main/java/com/emazon/api_shopping_cart/domain/usecase/CartUseCase.java:201-216 | detail i names article i's name, price and stock, the cart quantity, quantity times price, and the next supply date exactly when stock is short |
| CartRules.DetailsErrPrefix | src/main/java/com/emazon/api_shopping_cart/domain/usecase/CartUseCase.java:201-208 | after an article without a cart line has broken the detail loop, later articles do not change the result |
| CartRules.Total | src/main/java/com/emazon/api_shopping_cart/domain/usecase/CartUseCase.java:237-241 | the price loop fails only on a priced article without a cart line; TotalMeaning states when it builds and which article breaks it |
| CartRules.TotalMeaning | src/main/java/com/emazon/api_shopping_cart/domain/usecase/CartUseCase.java:237-241 | the total is found exactly when every priced article has a cart line; otherwise the error names the first priced article without one |
| CartRules.TotalErrPrefix | src/main/java/com/emazon/api_shopping_cart/domain/usecase/CartUseCase.java:238-240 | after a priced article without a cart line has broken the total loop, later prices do not change the result |
| CartRules.CartDetails | src/main/java/com/emazon/api_shopping_cart/domain/usecase/CartUseCase.java:197-223 | the view builds exactly when every returned and every priced article has a cart line; its details are the detail loop's and its total the total loop's, 0 without a price list |
| CartRules.TotalIsSumOfSubtotals | src/main/java/com/emazon/api_shopping_cart/domain/usecase/CartUseCase.java:212-240 | when the price list prices exactly the returned articles, the total is the sum of the subtotals shown |
| CartRules.TotalCoversCart | src/main/java/com/emazon/api_shopping_cart/domain/usecase/CartUseCase.java:233-244 | with one line per article and a price list that follows the cart, the total is quantity times price summed over every line |
| CartRules.StockVerdict | src/main/java/com/emazon/api_shopping_cart/domain/usecase/CartUseCase.java:255-260 | passes exactly when every returned article has a cart line whose quantity is in stock; the unavailability error carries the next supply date |
| CartRules.StockVerdictBlame | src/main/java/com/emazon/api_shopping_cart/domain/usecase/CartUseCase.java:255-260 | a failed stock check names an article all of whose predecessors pass: MissingCartLine of its id when it has no cart line, otherwise TheItemIsNotAvailable with its name because its cart quantity exceeds its stock |
| CartRules.StockVerdictFailPrefix | src/main/java/com/emazon/api_shopping_cart/domain/usecase/CartUseCase.java:256-259 | the first article that fails the check decides the error |
| CartRules.StockVerdictAgreesWithView | src/main/java/com/emazon/api_shopping_cart/domain/usecase/CartUseCase.java:247-260 | checkout's stock check passes exactly when the cart view of the same articles builds and shows no unavailability message |
| CartRules.Records | src/main/java/com/emazon/api_shopping_cart/domain/usecase/CartUseCase.java:266-275 | one transaction request per cart line, in order, carrying that line's article and quantity |
| CartRules.RecordsOfUser | src/main/java/com/emazon/api_shopping_cart/domain/usecase/CartUseCase.java:266-277 | one record per cart line with its article and quantity, each stamped with the user and the checkout time |
| CartRules.RemoveLine | src/main/java/com/emazon/api_shopping_cart/domain/usecase/CartUseCase.java:69 | exactly the lines without the deleted key remain; a key not held changes nothing |
| CartRules.RemoveLineLength | src/main/java/com/emazon/api_shopping_cart/domain/usecase/CartUseCase.java:69 | with one line per key, deleting a held key removes exactly one line |
| CartRules.Touch | src/main/java/com/emazon/api_shopping_cart/domain/usecase/CartUseCase.java:72 | every line of the user gets the new update date, and every other line is unchanged, in place |
| CartRules.Purge | src/main/java/com/emazon/api_shopping_cart/domain/usecase/CartUseCase.java:104 | exactly the other users' lines remain, and the user's cart is empty |
| CartRules.Reverse | src/main/java/com/emazon/api_shopping_cart/domain/usecase/CartUseCase.java:110 | exactly the ledger records not of this user and this checkout time remain |
| CartRules.ReverseUndoesSale | src/main/java/com/emazon/api_shopping_cart/domain/usecase/CartUseCase.java:103-111 | reversing a sale stamped with a time new for the user restores the ledger as it was before the sale |
| CartRules.UniqueRemoveLine | src/main/java/com/emazon/api_shopping_cart/domain/usecase/CartUseCase.java:69 | deleting a line keeps one line per user and article |
| CartRules.UniquePurge | src/main/java/com/emazon/api_shopping_cart/domain/usecase/CartUseCase.java:104 | emptying a cart keeps one line per user and article |
| CartRules.UniqueUserLines | src/main/java/com/emazon/api_shopping_cart/domain/usecase/CartUseCase.java:185-189 | with one line per key in the store, a user's cart names each article once |
| CartService.AddQuantity | src/main/java/com/emazon/api_shopping_cart/domain/usecase/CartUseCase.java:128-139 | the user's line for the article takes the Java `Integer` sum of its quantity and the request, wrapping past INT_MAX, and is restamped; every other line is unchanged; without such a line nothing changes |
| CartService.AddQuantityWraps | src/main/java/com/emazon/api_shopping_cart/domain/usecase/CartUseCase.java:132 | a stored quantity of INT_MAX that absorbs one more unit becomes INT_MIN, since line 132 adds two `Integer`s and only the request is checked against stock |
| CartService.ScannedIds | src/main/java/com/emazon/api_shopping_cart/domain/usecase/CartUseCase.java:142-144 | the ids scanned are the article ids of the user's cart lines, in cart order, followed by the new article last |
| CartService.CategoryCheck | src/main/java/com/emazon/api_shopping_cart/domain/usecase/CartUseCase.java:141-152 | an empty cart passes unchecked; otherwise the scan of the cart's ids followed by the new id decides |
| CartService.CategoryLookups | src/main/java/com/emazon/api_shopping_cart/domain/usecase/CartUseCase.java:141-152 | an empty cart makes no lookup; otherwise at most one per cart line plus the new article |
| CartService.AddToCart | src/main/java/com/emazon/api_shopping_cart/domain/usecase/CartUseCase.java:45-62 | fails with ArticleNotFound for an unknown article, then TheItemIsNotAvailable for a short stock; for a new line the outcome is exactly the category check's, CategoryLimit naming the category or ArticleNotFound for a cart article met in the scan; any failure leaves the store unchanged; succeeds exactly when the article exists and is in stock and either the line exists or the category check passes |
| CartService.AddToCartKeepsUnique | src/main/java/com/emazon/api_shopping_cart/domain/usecase/CartUseCase.java:45-62 | cartSave keeps one line per user and article |
| CartService.AddToExistingLine | src/main/java/com/emazon/api_shopping_cart/domain/usecase/CartUseCase.java:128-139 | an existing line absorbs the quantity and the new update date, no other line is lost, and the store keeps its size |
| CartService.AddNewLine | src/main/java/com/emazon/api_shopping_cart/domain/usecase/CartUseCase.java:54-61 | without a line, and within the limit, one new line created and updated now goes last in the store and in the user's cart |
| CartService.AddNewLineWithinCategoryLimit | src/main/java/com/emazon/api_shopping_cart/domain/usecase/CartUseCase.java:141-167 | after a new line joins a non-empty cart, every article of the cart exists and no category is tallied more than MAX_NUM_CATEGORY times |
| CartService.EmptyCartSkipsCategoryLimit | src/main/java/com/emazon/api_shopping_cart/domain/usecase/CartUseCase.java:143 | an article in stock is always added to an empty cart, whatever its categories |
| CartService.OverflowingFirstArticleBlocksCart | src/main/java/com/emazon/api_shopping_cart/domain/usecase/CartUseCase.java:141-167 | when the first article of a cart exceeds a category limit on its own, every new line is refused with that article's CategoryLimit after one lookup |
| CartService.CategoryScanLength | src/main/java/com/emazon/api_shopping_cart/domain/usecase/CartUseCase.java:143-151 | a passing check looks up every cart article plus the new one; a failing one stops at the article that fails it |
| CartService.FourOfOneCategory | src/test/java/com/emazon/api_shopping_cart/domain/usecase/CartUseCaseTest.java:111-117 | an article listing one category four times overflows the tally on its fourth entry |
| CartService.ScenarioScanStops | src/test/java/com/emazon/api_shopping_cart/domain/usecase/CartUseCaseTest.java:128-136 | in the scenario store, such articles stop the category scan at its first lookup with CategoryLimit |
| CartService.ScenarioScanPasses | src/test/java/com/emazon/api_shopping_cart/domain/usecase/CartUseCaseTest.java:152-155 | in the scenario store, articles without categories pass the scan after four lookups |
| CartService.CategoryLimitExceededScenario | src/test/java/com/emazon/api_shopping_cart/domain/usecase/CartUseCaseTest.java:109-142 | cartSave throws CategoryLimit and saves nothing, after two article lookups in all |
| CartService.CategoryLimitNotExceededScenario | src/test/java/com/emazon/api_shopping_cart/domain/usecase/CartUseCaseTest.java:144-163 | cartSave saves the one new line, after five article lookups in all |
| CartService.ValidateCartItem | src/main/java/com/emazon/api_shopping_cart/domain/usecase/CartUseCase.java:169-174 | passes exactly when the user has a line for the article; otherwise TheArticleNotExist |
| CartService.DeleteFromCart | src/main/java/com/emazon/api_shopping_cart/domain/usecase/CartUseCase.java:65-73 | succeeds exactly when the user has the line; a failure is TheArticleNotExist with the store unchanged; catalog and ledger never change |
| CartService.DeleteFromCartKeepsUnique | src/main/java/com/emazon/api_shopping_cart/domain/usecase/CartUseCase.java:65-73 | deleteCart keeps one line per user and article |
| CartService.DeleteExisting | src/main/java/com/emazon/api_shopping_cart/domain/usecase/CartUseCase.java:68-72 | the store loses exactly that line; other users' lines stay; the user's other lines stay with update date now |
| CartService.ViewCart | src/main/java/com/emazon/api_shopping_cart/domain/usecase/CartUseCase.java:76-88 | bad paging is PaginationNotAllowed and an empty page NoDataFound; once those pass, the view builds exactly when every returned and every priced article has a line in the user's cart, so a short-stock message never fails the call; a built view has one detail per returned article describing it with its cart quantity, and the total of the price list |
| CartService.ViewTotalCoversCart | src/main/java/com/emazon/api_shopping_cart/domain/usecase/CartUseCase.java:220-221 | with a price list that follows the cart, the view's total covers every cart line, whatever page of details is shown |
| CartService.Purchase | src/main/java/com/emazon/api_shopping_cart/domain/usecase/CartUseCase.java:94-104 | the cart is purged only on success; the ledger either is unchanged or has gained exactly the cart's records; a validation failure writes nothing |
| CartService.Checkout | src/main/java/com/emazon/api_shopping_cart/domain/usecase/CartUseCase.java:91-113 | succeeds exactly when nothing throws and the data and stock checks pass, and then records the cart and purges it; NoDataFound and the stock check's TheItemIsNotAvailable propagate with no write; a failing cart read or stock read, a null cart quantity, and a failing saveBuy or deleteCart become PurchaseFailure, which always comes with one returnRecord for the user and time: the ledger is the old one, or the old one plus the cart's records, with that user's records of that time dropped; the catalog and the next supply date never change |
| CartService.CheckoutRejectsShortage | src/main/java/com/emazon/api_shopping_cart/domain/usecase/CartUseCase.java:105-106 | a stock shortage surfaces unchanged with the store untouched, and it is TheItemIsNotAvailable with the name of a returned article whose cart quantity exceeds its stock |
| CartService.CheckoutCompensates | src/main/java/com/emazon/api_shopping_cart/domain/usecase/CartUseCase.java:109-111 | any failed checkout with a timestamp new for the user leaves the ledger exactly as before |
| CartService.CheckoutRecordsCart | src/main/java/com/emazon/api_shopping_cart/domain/usecase/CartUseCase.java:103-104 | a successful checkout appends one record per cart line, in cart order, with the user and the checkout time, and empties only that user's cart |
| CartService.UpdateCategoryCountMap | src/main/java/com/emazon/api_shopping_cart/domain/usecase/CartUseCase.java:154-167 | the loop's verdict is the tally verdict on all categories seen so far, and on success the map counts every one of them |
| CartService.BuildDetails | src/main/java/com/emazon/api_shopping_cart/domain/usecase/CartUseCase.java:200-216 | the detail loop computes Details |
| CartService.GetTotalPrice | src/main/java/com/emazon/api_shopping_cart/domain/usecase/CartUseCase.java:233-244 | the total loop computes Total, and 0 without a price list |
| CartService.GetCartDetails | src/main/java/com/emazon/api_shopping_cart/domain/usecase/CartUseCase.java:197-223 | details then total compute CartDetails |
| CartService.ValidateQuantity | src/main/java/com/emazon/api_shopping_cart/domain/usecase/CartUseCase.java:255-260 | the stock loop computes StockVerdict |
| CartService.GetTransactionRequestList | src/main/java/com/emazon/api_shopping_cart/domain/usecase/CartUseCase.java:266-277 | the record loop computes Records: one record per line, in order |
| CartService.CartUseCase.constructor | src/main/java/com/emazon/api_shopping_cart/domain/usecase/CartUseCase.java:34-42 | wires the use case to collaborators holding the given cart table (one line per user and article), catalog, next supply date and ledger, with no reversals yet |
| CartService.CartUseCase.CartSave | src/main/java/com/emazon/api_shopping_cart/domain/usecase/CartUseCase.java:45-62 | outcome and new state are AddToCart's, and one line per key is kept |
| CartService.CartUseCase.ValidateExistenceProductInCart | src/main/java/com/emazon/api_shopping_cart/domain/usecase/CartUseCase.java:128-139 | reports an update exactly when the line existed, the table becomes AddQuantity's, and one line per user and article is kept |
| CartService.CartUseCase.ValidateArticleByCategory | src/main/java/com/emazon/api_shopping_cart/domain/usecase/CartUseCase.java:141-152 | the HashMap loop over the scanned articles yields CategoryCheck, after exactly CategoryLookups lookups |
| CartService.CartUseCase.DeleteCart | src/main/java/com/emazon/api_shopping_cart/domain/usecase/CartUseCase.java:65-73 | outcome and new state are DeleteFromCart's, and one line per key is kept |
| CartService.CartUseCase.GetCart | src/main/java/com/emazon/api_shopping_cart/domain/usecase/CartUseCase.java:76-88 | the result is ViewCart's |
| CartService.CartUseCase.BuyArticle | src/main/java/com/emazon/api_shopping_cart/domain/usecase/CartUseCase.java:91-113 | outcome and new state are Checkout's, and one line per key is kept |

validateArticleExists (lines 115-117) is the `catalog` lookup at the head
of AddToCart. saveSaleInTransaction (lines 262-264) is the ledger append in
Purchase and BuyArticle.

## Left out

- The authenticated user, `LocalDateTime.now()` and the next supply date are
  plain parameters and fields. Timestamps are abstract integers, so the
  truncation to seconds in cartSave and deleteCart is not modelled. Line 133
  stamps an untruncated time, and the model uses the same `now` for it.
- The stock adapter is not part of this model. `existArticleById` is taken
  to throw ArticleNotFound for an unknown id, as its use on line 116 relies
  on.
- AddNewLineWithinCategoryLimit: the per-category limit is promised only for
  a line added to a cart that was not empty. Line 143 skips the check for an
  empty cart, so a first article may exceed the limit on its own, and the
  cart then refuses every new line (OverflowingFirstArticleBlocksCart).
- Cart quantities wrap as Java `Integer`s only where the source adds them
  (line 132, Int32Add). Elsewhere quantities, ids and counts are unbounded
  integers. The other `Integer` sums are the category tallies, which are
  bounded by the number of categories in the cart, and the `double` amounts
  below.
- Prices and subtotals are `double` in the source. Here they are integer
  amounts, so rounding is not modelled.
- Exception messages are built by string concatenation in the source. Here
  they are error kinds carrying the name, the category name or the date that
  the message is built from.
- getCart sends descending, categoryName and brandName to getArticleDetails,
  and getPriceByIds answers for the cart's ids. The stock service's paging,
  filtering and sorting are not part of this model: the page it returns and
  the price list are parameters.
- ConstantsUseCase is not part of this model. The values used are
  MAX_NUM_CATEGORY = 3, DEFAULT_VALUE = 0, ADD_ONE = 1 and NUMBER_0 = 0.
- The cart persistence and ledger adapters are not part of this model.
  - updateProductDateByEmail is modelled as restamping every line of the
    user.
  - returnRecord is modelled as logging (user, time) and dropping the ledger
    records with that user and time.
- buyArticle's generic catch is modelled with a `Fault` parameter that names
  the collaborator that throws (cart read, stock read, saveBuy,
  deleteCart). A null quantity unboxed in validateQuantity, getCartDetails or
  getTotalPrice becomes the error MissingCartLine. buyArticle turns it into
  PurchaseFailure and getCart surfaces it.
- Concurrency between requests and transactions of the persistence layer are
  not modelled: each operation is one atomic step on the store.
- Call counts are modelled only for `existArticleById`, which is what the
  category tests check: the `visited` result and CategoryLookups. saveCart
  calls appear only as store changes.
- The category scenarios use a cart of three distinct articles, 1 to 3, and a
  new article 4, all with the same categories and ten units in stock. In the
  unit tests, one id is mocked three times in the cart while the lookup of
  that id's line returns null. That state breaks the one-line-per-key
  invariant, so it cannot be built here.
- The HTTP handler and the DTO mapping are not part of this model.
