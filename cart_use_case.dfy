/** The shopping-cart use case: adding to the cart, removing from it, viewing
    it and buying it, over a store that keeps every user's cart lines, the
    stock service's articles, the next supply date and the sales ledger. */
module CartService {
  import opened CartTypes
  import opened CartRules

  /** What the use case can observe or change. `lines` is the cart table of all
      users; `catalog` answers existArticleById; `nextDate` is getNextDate;
      `ledger` is what saveBuy recorded; `reversals` logs every returnRecord. */
  datatype Store = Store(lines: seq<CartLine>, catalog: map<int, Article>, nextDate: int,
                         ledger: seq<TransactionRequest>, reversals: seq<(string, int)>)

  // ---------------------------------------------------------------------
  // Adding to the cart
  // ---------------------------------------------------------------------

  /** validateExistenceProductInCart on the store: raise the quantity of the
      user's line for the article and restamp it; no line, no change. */
  function AddQuantity(lines: seq<CartLine>, email: string, articleId: int, quantity: int, now: int)
    : (r: seq<CartLine>)
    ensures |r| == |lines|
    ensures FindLine(lines, email, articleId).None? ==> r == lines
    ensures FindLine(lines, email, articleId).Some? ==>
              var i := FindLine(lines, email, articleId).value;
              r[i] == lines[i].(quantity := Int32Add(lines[i].quantity, quantity), updateDate := now)
              && forall j :: 0 <= j < |lines| && j != i ==> r[j] == lines[j]
  {
    match FindLine(lines, email, articleId)
    case None => lines
    case Some(i) => lines[i := lines[i].(quantity := Int32Add(lines[i].quantity, quantity), updateDate := now)]
  }

  /** The stored quantity is a Java `Integer`: a line already at INT_MAX that
      absorbs one more unit wraps to INT_MIN. */
  lemma AddQuantityWraps(lines: seq<CartLine>, email: string, articleId: int, now: int)
    requires FindLine(lines, email, articleId).Some?
    requires lines[FindLine(lines, email, articleId).value].quantity == INT_MAX
    ensures AddQuantity(lines, email, articleId, 1, now)[FindLine(lines, email, articleId).value].quantity
            == INT_MIN
  {
  }

  /** The ids validateArticleByCategory scans: the user's cart, then the new article. */
  function ScannedIds(lines: seq<CartLine>, email: string, articleId: int): (ids: seq<int>)
    ensures |ids| == |UserLines(lines, email)| + 1 && ids[|ids| - 1] == articleId
    ensures forall i :: 0 <= i < |UserLines(lines, email)| ==> ids[i] == UserLines(lines, email)[i].articleId
  {
    ArticleIds(UserLines(lines, email)) + [articleId]
  }

  /** validateArticleByCategory: an empty cart is not checked; otherwise the
      scan of the cart's articles and the new one decides. */
  function CategoryCheck(lines: seq<CartLine>, catalog: map<int, Article>, email: string, articleId: int)
    : (r: Outcome)
    ensures UserLines(lines, email) == [] ==> r == Pass
    ensures UserLines(lines, email) != [] ==> r == CategoryVerdict(ScannedIds(lines, email, articleId), catalog)
  {
    if UserLines(lines, email) == [] then Pass
    else CategoryVerdict(ScannedIds(lines, email, articleId), catalog)
  }

  /** How many articles validateArticleByCategory looks up. */
  function CategoryLookups(lines: seq<CartLine>, catalog: map<int, Article>, email: string, articleId: int)
    : (n: nat)
    ensures UserLines(lines, email) == [] ==> n == 0
    ensures n <= |UserLines(lines, email)| + 1
  {
    if UserLines(lines, email) == [] then 0
    else Lookups(ScannedIds(lines, email, articleId), catalog)
  }

  /** cartSave: the article must exist and have the quantity in stock; an
      existing line absorbs the quantity, otherwise the category limit is
      checked and a new line is stored. A throw leaves the store as it was. */
  function AddToCart(s: Store, user: string, articleId: int, quantity: int, now: int): (r: (Outcome, Store))
    ensures r.1.catalog == s.catalog && r.1.nextDate == s.nextDate
    ensures r.1.ledger == s.ledger && r.1.reversals == s.reversals
    ensures r.0.Fail? ==> r.1 == s
    ensures articleId !in s.catalog ==> r.0 == Fail(ArticleNotFound(articleId))
    ensures articleId in s.catalog && s.catalog[articleId].quantity < quantity ==>
              r.0 == Fail(TheItemIsNotAvailable(s.catalog[articleId].name, s.nextDate))
    ensures r.0 == Pass <==>
              && articleId in s.catalog && quantity <= s.catalog[articleId].quantity
              && (FindLine(s.lines, user, articleId).Some?
                  || CategoryCheck(s.lines, s.catalog, user, articleId) == Pass)
    ensures articleId in s.catalog && quantity <= s.catalog[articleId].quantity
            && FindLine(s.lines, user, articleId).None? ==>
              r.0 == CategoryCheck(s.lines, s.catalog, user, articleId)
    ensures r.0.Fail? ==> r.0.error.ArticleNotFound? || r.0.error.TheItemIsNotAvailable?
                          || r.0.error.CategoryLimit?
  {
    if articleId !in s.catalog then (Fail(ArticleNotFound(articleId)), s)
    else
      var a := s.catalog[articleId];
      var stock := AvailabilityCheck(a.quantity, quantity, a.name, s.nextDate);
      if stock.Fail? then (stock, s)
      else if FindLine(s.lines, user, articleId).Some? then
        (Pass, s.(lines := AddQuantity(s.lines, user, articleId, quantity, now)))
      else
        var limit := CategoryCheck(s.lines, s.catalog, user, articleId);
        if limit.Fail? then (limit, s)
        else
          (Pass, s.(lines := s.lines + [CartLine(user, articleId, quantity, now, now)]))
  }

  /** cartSave keeps one line per (user, article). */
  lemma AddToCartKeepsUnique(s: Store, user: string, articleId: int, quantity: int, now: int)
    requires Unique(s.lines)
    ensures Unique(AddToCart(s, user, articleId, quantity, now).1.lines)
  {
    match FindLine(s.lines, user, articleId)
    case Some(i) =>
      UniqueUpdate(s.lines, i, s.lines[i].(quantity := Int32Add(s.lines[i].quantity, quantity), updateDate := now));
      assert AddQuantity(s.lines, user, articleId, quantity, now)
             == s.lines[i := s.lines[i].(quantity := Int32Add(s.lines[i].quantity, quantity), updateDate := now)];
    case None =>
      UniqueAppend(s.lines, CartLine(user, articleId, quantity, now, now));
  }

  /** Adding an article the user already has: the one line grows by the
      quantity and is restamped, no category check is made, and no other
      line changes. */
  lemma AddToExistingLine(s: Store, user: string, articleId: int, quantity: int, now: int, l: CartLine)
    requires Unique(s.lines)
    requires LineOf(s.lines, user, articleId) == Some(l)
    requires articleId in s.catalog && quantity <= s.catalog[articleId].quantity
    ensures AddToCart(s, user, articleId, quantity, now).0 == Pass
    ensures var t := AddToCart(s, user, articleId, quantity, now).1;
            && |t.lines| == |s.lines|
            && LineOf(t.lines, user, articleId) == Some(l.(quantity := Int32Add(l.quantity, quantity), updateDate := now))
            && forall m :: m in s.lines && !SameKey(m, user, articleId) ==> m in t.lines
  {
    var i := FindLine(s.lines, user, articleId).value;
    var t := AddToCart(s, user, articleId, quantity, now).1;
    var l' := l.(quantity := Int32Add(l.quantity, quantity), updateDate := now);
    assert t.lines == s.lines[i := l'];
    assert t.lines[i] == l' && l' in t.lines;
    LineOfUnique(t.lines, l');
    forall m | m in s.lines && !SameKey(m, user, articleId) ensures m in t.lines {
      var j :| 0 <= j < |s.lines| && s.lines[j] == m;
      assert t.lines[j] == m;
    }
  }

  /** Adding an article the user does not have, within the category limit:
      one new line with the quantity, created and updated now, goes last. */
  lemma AddNewLine(s: Store, user: string, articleId: int, quantity: int, now: int)
    requires Unique(s.lines)
    requires LineOf(s.lines, user, articleId).None?
    requires articleId in s.catalog && quantity <= s.catalog[articleId].quantity
    requires CategoryCheck(s.lines, s.catalog, user, articleId) == Pass
    ensures var r := AddToCart(s, user, articleId, quantity, now);
            && r.0 == Pass
            && r.1.lines == s.lines + [CartLine(user, articleId, quantity, now, now)]
            && LineOf(r.1.lines, user, articleId) == Some(CartLine(user, articleId, quantity, now, now))
            && UserLines(r.1.lines, user) == UserLines(s.lines, user) + [CartLine(user, articleId, quantity, now, now)]
  {
    var l := CartLine(user, articleId, quantity, now, now);
    var t := AddToCart(s, user, articleId, quantity, now).1;
    assert t.lines == s.lines + [l];
    assert t.lines[|s.lines|] == l;
    LineOfUnique(t.lines, l);
    UserLinesSnoc(s.lines, l, user);
  }

  /** After a new line joins a non-empty cart, no category is shared by more
      than MAX_NUM_CATEGORY of the articles in that cart. */
  lemma AddNewLineWithinCategoryLimit(s: Store, user: string, articleId: int, quantity: int, now: int)
    requires UserLines(s.lines, user) != []
    requires LineOf(s.lines, user, articleId).None?
    requires AddToCart(s, user, articleId, quantity, now).0 == Pass
    ensures var t := AddToCart(s, user, articleId, quantity, now).1;
            var ids := ArticleIds(UserLines(t.lines, user));
            Known(ids, s.catalog) && Bounded(Cats(ids, s.catalog))
  {
    var l := CartLine(user, articleId, quantity, now, now);
    var t := AddToCart(s, user, articleId, quantity, now).1;
    assert t.lines == s.lines + [l];
    UserLinesSnoc(s.lines, l, user);
    var mine := UserLines(s.lines, user);
    assert UserLines(t.lines, user) == mine + [l];
    assert ArticleIds(mine + [l]) == ArticleIds(mine) + [articleId];
    VerdictMeaning(ScannedIds(s.lines, user, articleId), s.catalog);
  }

  /** An empty cart is not checked, so it accepts any article in stock, even
      one whose own categories exceed the limit. */
  lemma EmptyCartSkipsCategoryLimit(s: Store, user: string, articleId: int, quantity: int, now: int)
    requires UserLines(s.lines, user) == []
    requires articleId in s.catalog && quantity <= s.catalog[articleId].quantity
    ensures AddToCart(s, user, articleId, quantity, now).0 == Pass
  {
  }

  /** Once a cart's first article overflows a category on its own, every new
      line is refused: the scan throws that article's CategoryLimit at its
      first lookup. */
  lemma OverflowingFirstArticleBlocksCart(s: Store, user: string, articleId: int, quantity: int, now: int)
    requires UserLines(s.lines, user) != []
    requires UserLines(s.lines, user)[0].articleId in s.catalog
    requires LimitOutcome(s.catalog[UserLines(s.lines, user)[0].articleId].categories).Fail?
    requires FindLine(s.lines, user, articleId).None?
    requires articleId in s.catalog && quantity <= s.catalog[articleId].quantity
    ensures AddToCart(s, user, articleId, quantity, now).0
            == LimitOutcome(s.catalog[UserLines(s.lines, user)[0].articleId].categories)
    ensures CategoryLookups(s.lines, s.catalog, user, articleId) == 1
  {
    ScanStopsAtFirst(ScannedIds(s.lines, user, articleId), s.catalog);
  }

  /** A cart of articles whose categories fit is extended without a lookup
      past the last article, and a first article that already exceeds the
      limit stops the scan after one lookup. */
  lemma CategoryScanLength(s: Store, user: string, articleId: int)
    requires UserLines(s.lines, user) != []
    ensures CategoryCheck(s.lines, s.catalog, user, articleId) == Pass ==>
              CategoryLookups(s.lines, s.catalog, user, articleId) == |UserLines(s.lines, user)| + 1
    ensures CategoryCheck(s.lines, s.catalog, user, articleId).Fail? ==>
              var ids := ScannedIds(s.lines, user, articleId);
              var n := CategoryLookups(s.lines, s.catalog, user, articleId);
              StopsAt(ids, s.catalog, n)
  {
    LookupsStop(ScannedIds(s.lines, user, articleId), s.catalog);
  }

  // ---------------------------------------------------------------------
  // The two category-limit scenarios of the use case's unit tests
  // ---------------------------------------------------------------------

  /** The scenario user's cart: one unit each of articles 1, 2 and 3. */
  function ScenarioLines(user: string): seq<CartLine> {
    [CartLine(user, 1, 1, 0, 0), CartLine(user, 2, 1, 0, 0), CartLine(user, 3, 1, 0, 0)]
  }

  /** A store holding only the scenario cart; every article of the catalog,
      1 to 4, has ten units in stock and lists the categories `cats`. */
  function ScenarioStore(user: string, cats: seq<Category>): (s: Store)
    ensures |s.lines| == 3 && Unique(s.lines)
    ensures forall id :: id in s.catalog <==> 1 <= id <= 4
    ensures forall id :: id in s.catalog ==> s.catalog[id].categories == cats && s.catalog[id].quantity == 10
  {
    var a := Article(0, None, 100, 10, cats);
    Store(ScenarioLines(user), map[1 := a.(id := 1), 2 := a.(id := 2), 3 := a.(id := 3), 4 := a.(id := 4)], 9, [], [])
  }

  /** The scenario user's cart is the whole store, and the scan covers its
      three articles and then article 4. */
  lemma ScenarioScan(user: string)
    ensures UserLines(ScenarioLines(user), user) == ScenarioLines(user)
    ensures ScannedIds(ScenarioLines(user), user, 4) == [1, 2, 3, 4]
    ensures FindLine(ScenarioLines(user), user, 4).None?
  {
    ScenarioCart(user);
    ScenarioIds(user);
    ScenarioNoLine(user);
  }

  lemma ScenarioNoLine(user: string)
    ensures FindLine(ScenarioLines(user), user, 4).None?
  {
    var ls := ScenarioLines(user);
    assert !SameKey(ls[0], user, 4) && !SameKey(ls[1], user, 4) && !SameKey(ls[2], user, 4);
  }

  lemma ScenarioCart(user: string)
    ensures UserLines(ScenarioLines(user), user) == ScenarioLines(user)
  {
    UserLinesAll(ScenarioLines(user), user);
  }

  lemma ScenarioIds(user: string)
    ensures ArticleIds(ScenarioLines(user)) == [1, 2, 3]
  {
    var ids := ArticleIds(ScenarioLines(user));
    assert ids[0] == 1 && ids[1] == 2 && ids[2] == 3;
  }

  /** Three entries of one category stay within the limit. */
  lemma ThreeOfOneCategory(c: Category)
    ensures FirstExcess([c, c, c]).None? && Count([c, c, c], c.id) == 3
  {
    var c1, c2 := [c], [c, c];
    assert [] + [c] == c1 && c1 + [c] == c2 && c2 + [c] == [c, c, c];
    CountSnoc([], c, c.id);
    FirstExcessSnoc([], c);
    CountSnoc(c1, c, c.id);
    FirstExcessSnoc(c1, c);
    CountSnoc(c2, c, c.id);
    FirstExcessSnoc(c2, c);
  }

  /** Four entries of one category: the running tally reaches 4 at the last. */
  lemma FourOfOneCategory(c: Category)
    ensures LimitOutcome([c, c, c, c]) == Fail(CategoryLimit(c.name))
  {
    var c3 := [c, c, c];
    ThreeOfOneCategory(c);
    assert c3 + [c] == [c, c, c, c];
    CountSnoc(c3, c, c.id);
    FirstExcessSnoc(c3, c);
  }

  /** In the scenario store, cartSave of one unit of article 4 passes the
      existence and stock checks and finds no line for it, so the category
      check alone decides between saving the new line and throwing. */
  lemma ScenarioAdd(user: string, cats: seq<Category>)
    ensures var s := ScenarioStore(user, cats);
            var v := CategoryCheck(s.lines, s.catalog, user, 4);
            AddToCart(s, user, 4, 1, 7)
            == if v == Pass then (Pass, s.(lines := s.lines + [CartLine(user, 4, 1, 7, 7)])) else (v, s)
  {
    ScenarioScan(user);
  }

  /** Four entries of one category: the scan throws CategoryLimit at its
      first lookup. */
  lemma ScenarioScanStops(user: string, c: Category)
    ensures var s := ScenarioStore(user, [c, c, c, c]);
            && CategoryCheck(s.lines, s.catalog, user, 4) == Fail(CategoryLimit(c.name))
            && CategoryLookups(s.lines, s.catalog, user, 4) == 1
  {
    var s := ScenarioStore(user, [c, c, c, c]);
    ScenarioScan(user);
    var ids := ScannedIds(s.lines, user, 4);
    FourOfOneCategory(c);
    ScanStopsAtFirst(ids, s.catalog);
  }

  /** No categories: the scan passes after looking up all four articles. */
  lemma ScenarioScanPasses(user: string)
    ensures var s := ScenarioStore(user, []);
            && CategoryCheck(s.lines, s.catalog, user, 4) == Pass
            && CategoryLookups(s.lines, s.catalog, user, 4) == 4
  {
    var s := ScenarioStore(user, []);
    ScenarioScan(user);
    ScanUncategorised(ScannedIds(s.lines, user, 4), s.catalog);
  }

  /** An article listing one category four times exceeds the limit on the
      first lookup of the scan: cartSave throws CategoryLimit after two lookups
      in all (the existence check and one scan step) and saves nothing. */
  lemma CategoryLimitExceededScenario(user: string, c: Category)
    ensures var s := ScenarioStore(user, [c, c, c, c]);
            && AddToCart(s, user, 4, 1, 7) == (Fail(CategoryLimit(c.name)), s)
            && 1 + CategoryLookups(s.lines, s.catalog, user, 4) == 2
  {
    ScenarioAdd(user, [c, c, c, c]);
    ScenarioScanStops(user, c);
  }

  /** Articles without categories never reach the limit: cartSave looks up
      the new article and then all four scanned articles, five lookups in all,
      and saves the one new line. */
  lemma CategoryLimitNotExceededScenario(user: string)
    ensures var s := ScenarioStore(user, []);
            && AddToCart(s, user, 4, 1, 7) == (Pass, s.(lines := s.lines + [CartLine(user, 4, 1, 7, 7)]))
            && 1 + CategoryLookups(s.lines, s.catalog, user, 4) == 5
  {
    ScenarioAdd(user, []);
    ScenarioScanPasses(user);
  }

  // ---------------------------------------------------------------------
  // Removing from the cart
  // ---------------------------------------------------------------------

  /** validateCartItem: the user must have a line for the article. */
  function ValidateCartItem(lines: seq<CartLine>, email: string, articleId: int): (r: Outcome)
    ensures r == Pass <==> exists l :: l in lines && SameKey(l, email, articleId)
    ensures r.Fail? ==> r.error == TheArticleNotExist
  {
    if LineOf(lines, email, articleId).None? then Fail(TheArticleNotExist) else Pass
  }

  /** deleteCart: drop the user's line for the article and restamp the rest of
      the user's cart; without such a line, TheArticleNotExist and no change. */
  function DeleteFromCart(s: Store, user: string, articleId: int, now: int): (r: (Outcome, Store))
    ensures r.0.Fail? ==> r == (Fail(TheArticleNotExist), s)
    ensures r.0 == Pass <==> LineOf(s.lines, user, articleId).Some?
    ensures r.1.catalog == s.catalog && r.1.nextDate == s.nextDate
    ensures r.1.ledger == s.ledger && r.1.reversals == s.reversals
  {
    var check := ValidateCartItem(s.lines, user, articleId);
    if check.Fail? then (check, s)
    else (Pass, s.(lines := Touch(RemoveLine(s.lines, user, articleId), user, now)))
  }

  /** deleteCart keeps one line per (user, article). */
  lemma DeleteFromCartKeepsUnique(s: Store, user: string, articleId: int, now: int)
    requires Unique(s.lines)
    ensures Unique(DeleteFromCart(s, user, articleId, now).1.lines)
  {
    UniqueRemoveLine(s.lines, user, articleId);
    UniqueTouch(RemoveLine(s.lines, user, articleId), user, now);
  }

  /** Deleting a line the user has: the store shrinks by exactly that line,
      other users' lines stay as they were, and the user's remaining lines
      are kept with their update date set to now. */
  lemma DeleteExisting(s: Store, user: string, articleId: int, now: int)
    requires Unique(s.lines) && LineOf(s.lines, user, articleId).Some?
    ensures var t := DeleteFromCart(s, user, articleId, now).1;
            && |t.lines| == |s.lines| - 1
            && LineOf(t.lines, user, articleId).None?
            && (forall l :: l in s.lines && l.email != user ==> l in t.lines)
            && (forall l :: l in s.lines && l.email == user && l.articleId != articleId ==>
                  l.(updateDate := now) in t.lines)
            && (forall m :: m in t.lines && m.email == user ==> m.updateDate == now)
  {
    var rest := RemoveLine(s.lines, user, articleId);
    var t := DeleteFromCart(s, user, articleId, now).1;
    RemoveLineLength(s.lines, user, articleId);
    assert t.lines == Touch(rest, user, now);
    forall l | l in s.lines && !SameKey(l, user, articleId)
      ensures (if l.email == user then l.(updateDate := now) else l) in t.lines
    {
      TouchKeeps(rest, user, now, l);
    }
    forall m | m in t.lines ensures !SameKey(m, user, articleId) && (m.email == user ==> m.updateDate == now) {
      TouchedFrom(rest, user, now, m);
    }
  }

  // ---------------------------------------------------------------------
  // Viewing the cart
  // ---------------------------------------------------------------------

  /** getCart: validate the paging, read the user's cart, take the page of
      article details the stock service returns (`articles`) and the price
      list it returns for the cart (`prices`), and build the view. */
  function ViewCart(s: Store, user: string, page: Option<int>, size: Option<int>,
                    articles: Option<seq<Article>>, prices: Option<seq<ArticlePrice>>)
    : (r: Result<CartDetailResponse>)
    ensures ValidatePaginationData(page, size).Fail? ==> r == Err(PaginationNotAllowed)
    ensures ValidatePaginationData(page, size) == Pass && ValidateData(articles).Fail? ==> r == Err(NoDataFound)
    ensures r.Ok? ==>
              var ls := UserLines(s.lines, user);
              && ValidatePaginationData(page, size) == Pass && ValidateData(articles) == Pass
              && |r.value.cartDetail| == |articles.value|
              && (forall i :: 0 <= i < |articles.value| ==>
                    QuantityFromItem(ls, articles.value[i].id).Some?
                    && Describes(r.value.cartDetail[i], articles.value[i],
                                 QuantityFromItem(ls, articles.value[i].id).value, s.nextDate))
              && (prices.None? ==> r.value.totalPrice == 0)
              && (prices.Some? ==> Total(ls, prices.value) == Ok(r.value.totalPrice))
    ensures ValidatePaginationData(page, size) == Pass && ValidateData(articles) == Pass ==>
              (r.Ok? <==> AllInCart(UserLines(s.lines, user), articles.value)
                          && (prices.Some? ==> AllPricedInCart(UserLines(s.lines, user), prices.value)))
    ensures r.Err? ==> r.error == PaginationNotAllowed || r.error == NoDataFound || r.error.MissingCartLine?
  {
    var paging := ValidatePaginationData(page, size);
    if paging.Fail? then Err(paging.error)
    else
      var myCart := UserLines(s.lines, user);
      var data := ValidateData(articles);
      if data.Fail? then Err(data.error)
      else
        DetailsDescribe(myCart, articles.value, s.nextDate);
        CartDetails(myCart, articles.value, prices, s.nextDate)
  }

  /** With one line per article and a price list that follows the cart, the
      total of the view is the sum of quantity times price over the whole
      cart, whichever page of details is shown. */
  lemma ViewTotalCoversCart(s: Store, user: string, page: Option<int>, size: Option<int>,
                            articles: Option<seq<Article>>, ps: seq<ArticlePrice>)
    requires Unique(s.lines)
    requires |ps| == |UserLines(s.lines, user)|
    requires forall i :: 0 <= i < |ps| ==> ps[i].id == UserLines(s.lines, user)[i].articleId
    requires ViewCart(s, user, page, size, articles, Some(ps)).Ok?
    ensures ViewCart(s, user, page, size, articles, Some(ps)).value.totalPrice
            == LineSum(UserLines(s.lines, user), ps)
  {
    UniqueUserLines(s.lines, user);
    TotalCoversCart(UserLines(s.lines, user), ps);
  }

  // ---------------------------------------------------------------------
  // Buying the cart
  // ---------------------------------------------------------------------

  /** The try block of buyArticle: read the cart, fetch its articles, validate
      them and the stock, record the sale, then empty the cart. `fault` names
      the collaborator that throws, if any. */
  function Purchase(s: Store, user: string, articles: Option<seq<Article>>, fault: Fault, now: int)
    : (r: (Outcome, Store))
    ensures r.1.lines == s.lines || r.0 == Pass
    ensures r.1.catalog == s.catalog && r.1.nextDate == s.nextDate && r.1.reversals == s.reversals
    ensures r.1.ledger == s.ledger || r.1.ledger == s.ledger + Records(UserLines(s.lines, user), now)
    ensures r.0.Fail? && r.0.error != ServiceFailure ==> r.1 == s
  {
    if fault == CartReadFails then (Fail(ServiceFailure), s)
    else
      var myCart := UserLines(s.lines, user);
      if fault == StockFails then (Fail(ServiceFailure), s)
      else
        var data := ValidateData(articles);
        if data.Fail? then (data, s)
        else
          var stock := StockVerdict(myCart, articles.value, s.nextDate);
          if stock.Fail? then (stock, s)
          else if fault == SaveBuyFails then (Fail(ServiceFailure), s)
          else
            var sold := s.(ledger := s.ledger + Records(myCart, now));
            if fault == PurgeFails then (Fail(ServiceFailure), sold)
            else (Pass, sold.(lines := Purge(s.lines, user)))
  }

  /** buyArticle: stock and data failures propagate untouched; any other
      failure calls returnRecord for the user and the checkout time and
      becomes PurchaseFailure. */
  function Checkout(s: Store, user: string, articles: Option<seq<Article>>, fault: Fault, now: int)
    : (r: (Outcome, Store))
    ensures r.0 == Pass <==>
              && fault == NoFault && ValidateData(articles) == Pass
              && StockVerdict(UserLines(s.lines, user), articles.value, s.nextDate) == Pass
    ensures r.0 == Pass ==>
              r.1 == s.(lines := Purge(s.lines, user), ledger := s.ledger + Records(UserLines(s.lines, user), now))
    ensures r.0.Fail? ==> r.1.lines == s.lines
    ensures r.0.Fail? ==> r.0.error.TheItemIsNotAvailable? || r.0.error == NoDataFound
                          || r.0.error == PurchaseFailure
    ensures r.0.Fail? && r.0.error != PurchaseFailure ==> r.1 == s
    ensures (fault == CartReadFails || fault == StockFails) ==> r.0 == Fail(PurchaseFailure)
    ensures fault != CartReadFails && fault != StockFails && ValidateData(articles).Fail? ==>
              r == (Fail(NoDataFound), s)
    ensures fault != CartReadFails && fault != StockFails && ValidateData(articles) == Pass
            && StockVerdict(UserLines(s.lines, user), articles.value, s.nextDate).Fail? ==>
              var stock := StockVerdict(UserLines(s.lines, user), articles.value, s.nextDate);
              if stock.error.TheItemIsNotAvailable? then r == (stock, s) else r.0 == Fail(PurchaseFailure)
    ensures (fault == SaveBuyFails || fault == PurgeFails) && ValidateData(articles) == Pass
            && StockVerdict(UserLines(s.lines, user), articles.value, s.nextDate) == Pass ==>
              r.0 == Fail(PurchaseFailure)
    ensures r.0 == Fail(PurchaseFailure) ==>
              && r.1.reversals == s.reversals + [(user, now)]
              && forall t :: t in r.1.ledger <==> t in s.ledger && !(t.email == user && t.buyDate == now)
    ensures r.0 != Fail(PurchaseFailure) ==> r.1.reversals == s.reversals
    ensures r.1.catalog == s.catalog && r.1.nextDate == s.nextDate
    ensures r.0 == Fail(PurchaseFailure) ==>
              || r.1.ledger == Reverse(s.ledger, user, now)
              || r.1.ledger == Reverse(s.ledger + Records(UserLines(s.lines, user), now), user, now)
  {
    var attempt := Purchase(s, user, articles, fault, now);
    var outcome, t := attempt.0, attempt.1;
    if outcome.Fail? && !(outcome.error.TheItemIsNotAvailable? || outcome.error == NoDataFound) then
      (Fail(PurchaseFailure), t.(ledger := Reverse(t.ledger, user, now), reversals := t.reversals + [(user, now)]))
    else attempt
  }

  /** A checkout whose stock check fails on quantity writes nothing: the
      store is as before and the error is the article's own. */
  lemma CheckoutRejectsShortage(s: Store, user: string, articles: seq<Article>, fault: Fault, now: int)
    requires fault != CartReadFails && fault != StockFails && |articles| > 0
    requires StockVerdict(UserLines(s.lines, user), articles, s.nextDate).Fail?
    requires StockVerdict(UserLines(s.lines, user), articles, s.nextDate).error.TheItemIsNotAvailable?
    ensures Checkout(s, user, Some(articles), fault, now)
            == (StockVerdict(UserLines(s.lines, user), articles, s.nextDate), s)
    ensures exists i :: 0 <= i < |articles|
              && QuantityFromItem(UserLines(s.lines, user), articles[i].id).Some?
              && articles[i].quantity < QuantityFromItem(UserLines(s.lines, user), articles[i].id).value
              && Checkout(s, user, Some(articles), fault, now).0
                 == Fail(TheItemIsNotAvailable(articles[i].name, s.nextDate))
  {
    StockVerdictBlame(UserLines(s.lines, user), articles, s.nextDate);
  }

  /** A failed checkout whose timestamp is new for the user leaves the ledger
      exactly as it was, whether or not the sale had been recorded. */
  lemma CheckoutCompensates(s: Store, user: string, articles: Option<seq<Article>>, fault: Fault, now: int)
    requires forall t :: t in s.ledger ==> !(t.email == user && t.buyDate == now)
    requires Checkout(s, user, articles, fault, now).0.Fail?
    ensures Checkout(s, user, articles, fault, now).1.ledger == s.ledger
  {
    var sale := Records(UserLines(s.lines, user), now);
    RecordsOfUser(s.lines, user, now);
    ReverseUndoesSale(s.ledger, sale, user, now);
    ReverseUndoesSale(s.ledger, [], user, now);
    assert s.ledger + [] == s.ledger;
  }

  /** A successful checkout records one sale per cart line, in cart order,
      all stamped with the one checkout time, and empties the user's cart
      while other users' lines stay. */
  lemma CheckoutRecordsCart(s: Store, user: string, articles: Option<seq<Article>>, now: int)
    requires Checkout(s, user, articles, NoFault, now).0 == Pass
    ensures var t := Checkout(s, user, articles, NoFault, now).1;
            var mine := UserLines(s.lines, user);
            && |t.ledger| == |s.ledger| + |mine|
            && t.ledger[..|s.ledger|] == s.ledger
            && (forall i :: 0 <= i < |mine| ==>
                  t.ledger[|s.ledger| + i] == TransactionRequest(mine[i].articleId, mine[i].quantity, user, now))
            && UserLines(t.lines, user) == []
            && forall l :: l in s.lines && l.email != user ==> l in t.lines
  {
    var mine := UserLines(s.lines, user);
    var t := Checkout(s, user, articles, NoFault, now).1;
    forall i | 0 <= i < |mine| ensures mine[i].email == user {
      assert mine[i] in mine;
    }
  }

  // ---------------------------------------------------------------------
  // Loops of the use case
  // ---------------------------------------------------------------------

  /** updateCategoryCountMap: tally each category of one article on top of the
      tallies of the categories `done` already scanned, throwing at the first
      tally above MAX_NUM_CATEGORY. */
  method UpdateCategoryCountMap(counts: map<int, nat>, categories: seq<Category>, ghost done: seq<Category>)
    returns (newCounts: map<int, nat>, r: Outcome)
    requires Tallies(counts, done) && FirstExcess(done).None?
    ensures r == LimitOutcome(done + categories)
    ensures r == Pass ==> Tallies(newCounts, done + categories)
  {
    newCounts := counts;
    var j := 0;
    ghost var seen := done;
    ScanBounds(done, categories);
    while j < |categories|
      invariant 0 <= j <= |categories| && seen == done + categories[..j]
      invariant Tallies(newCounts, seen) && FirstExcess(seen).None?
    {
      var item := categories[j];
      var category := item.id;
      var currentCount := if category in newCounts then newCounts[category] else DEFAULT_VALUE;
      var newCount := currentCount + ADD_ONE;
      TallyStep(newCounts, done, categories, j);
      newCounts := newCounts[category := newCount];
      if newCount > MAX_NUM_CATEGORY {
        r := Fail(CategoryLimit(item.name));
        return;
      }
      j := j + 1;
      seen := done + categories[..j];
    }
    r := Pass;
  }

  /** The detail loop of getCartDetails. */
  method BuildDetails(myCart: seq<CartLine>, articles: seq<Article>, nextSupply: int)
    returns (r: Result<seq<CartDetail>>)
    ensures r == Details(myCart, articles, nextSupply)
  {
    var details: seq<CartDetail> := [];
    var i := 0;
    while i < |articles|
      invariant 0 <= i <= |articles|
      invariant Details(myCart, articles[..i], nextSupply) == Ok(details)
    {
      var article := articles[i];
      assert articles[..i + 1][..i] == articles[..i];
      var quantity := QuantityFromItem(myCart, article.id);
      if quantity.None? {
        r := Err(MissingCartLine(article.id));
        DetailsErrPrefix(myCart, articles, i + 1, nextSupply);
        return;
      }
      details := details + [Detail(article, quantity.value, nextSupply)];
      i := i + 1;
    }
    assert articles[..i] == articles;
    r := Ok(details);
  }

  /** getTotalPrice: with no price list the total is 0, otherwise quantity
      times price summed over the list. */
  method GetTotalPrice(myCart: seq<CartLine>, prices: Option<seq<ArticlePrice>>) returns (r: Result<int>)
    ensures prices.None? ==> r == Ok(0)
    ensures prices.Some? ==> r == Total(myCart, prices.value)
  {
    var totalPrice := 0;
    if prices.Some? {
      var ps := prices.value;
      var i := 0;
      while i < |ps|
        invariant 0 <= i <= |ps|
        invariant Total(myCart, ps[..i]) == Ok(totalPrice)
      {
        var article := ps[i];
        var quantity := QuantityFromItem(myCart, article.id);
        if quantity.None? {
          r := Err(MissingCartLine(article.id));
          TotalMissingAt(myCart, ps, i);
          TotalErrPrefix(myCart, ps, i + 1);
          return;
        }
        TotalPrefix(myCart, ps, i, quantity.value);
        totalPrice := totalPrice + Amount(quantity.value, article.price);
        i := i + 1;
      }
      TakeAll(ps);
    }
    r := Ok(totalPrice);
  }

  /** getCartDetails: the details of the page, then the total of the cart. */
  method GetCartDetails(myCart: seq<CartLine>, articles: seq<Article>, prices: Option<seq<ArticlePrice>>,
                        nextSupply: int)
    returns (r: Result<CartDetailResponse>)
    ensures r == CartDetails(myCart, articles, prices, nextSupply)
  {
    var details := BuildDetails(myCart, articles, nextSupply);
    if details.Err? {
      return Err(details.error);
    }
    var total := GetTotalPrice(myCart, prices);
    if total.Err? {
      return Err(total.error);
    }
    r := Ok(CartDetailResponse(details.value, total.value));
  }

  /** validateQuantity: the first article whose cart quantity is missing or
      above its stock stops checkout. */
  method ValidateQuantity(myCart: seq<CartLine>, articles: seq<Article>, nextSupply: int) returns (r: Outcome)
    ensures r == StockVerdict(myCart, articles, nextSupply)
  {
    var i := 0;
    while i < |articles|
      invariant 0 <= i <= |articles|
      invariant StockVerdict(myCart, articles[..i], nextSupply) == Pass
    {
      var article := articles[i];
      assert articles[..i + 1][..i] == articles[..i];
      var quantity := QuantityFromItem(myCart, article.id);
      if quantity.None? {
        r := Fail(MissingCartLine(article.id));
        StockVerdictFailPrefix(myCart, articles, i + 1, nextSupply);
        return;
      }
      r := AvailabilityCheck(article.quantity, quantity.value, article.name, nextSupply);
      if r.Fail? {
        StockVerdictFailPrefix(myCart, articles, i + 1, nextSupply);
        return;
      }
      i := i + 1;
    }
    assert articles[..i] == articles;
    r := Pass;
  }

  /** getTransactionRequestList: one record per cart line, in order. */
  method GetTransactionRequestList(myCart: seq<CartLine>, buyDate: int) returns (rs: seq<TransactionRequest>)
    ensures rs == Records(myCart, buyDate)
  {
    rs := [];
    var i := 0;
    while i < |myCart|
      invariant 0 <= i <= |myCart|
      invariant rs == Records(myCart[..i], buyDate)
    {
      var cart := myCart[i];
      rs := rs + [TransactionRequest(cart.articleId, cart.quantity, cart.email, buyDate)];
      i := i + 1;
    }
    assert myCart[..i] == myCart;
  }

  // ---------------------------------------------------------------------
  // The use case object
  // ---------------------------------------------------------------------

  /** CartUseCase over its collaborators' state. The authenticated user, the
      clock, the stock service's paged answers and collaborator failures are
      passed in. */
  class CartUseCase {
    var lines: seq<CartLine>
    var catalog: map<int, Article>
    var nextDate: int
    var ledger: seq<TransactionRequest>
    var reversals: seq<(string, int)>

    /** The cart table holds at most one line per (user, article). */
    ghost predicate Valid()
      reads this
    {
      Unique(lines)
    }

    function Snapshot(): Store
      reads this
    {
      Store(lines, catalog, nextDate, ledger, reversals)
    }

    /** Wires the use case to collaborators that already hold `lines` in the
        cart table and `ledger` in the transaction service. */
    constructor(lines: seq<CartLine>, catalog: map<int, Article>, nextDate: int,
                ledger: seq<TransactionRequest>)
      requires Unique(lines)
      ensures Valid() && Snapshot() == Store(lines, catalog, nextDate, ledger, [])
    {
      this.lines := lines;
      this.catalog := catalog;
      this.nextDate := nextDate;
      this.ledger := ledger;
      this.reversals := [];
    }

    method CartSave(user: string, articleId: int, quantity: int, now: int) returns (r: Outcome)
      requires Valid()
      modifies this`lines
      ensures Valid()
      ensures (r, Snapshot()) == AddToCart(old(Snapshot()), user, articleId, quantity, now)
    {
      if articleId !in catalog {
        return Fail(ArticleNotFound(articleId));
      }
      var article := catalog[articleId];
      r := AvailabilityCheck(article.quantity, quantity, article.name, nextDate);
      if r.Fail? {
        return;
      }
      var isUpdate := ValidateExistenceProductInCart(user, articleId, quantity, now);
      if !isUpdate {
        var visited;
        r, visited := ValidateArticleByCategory(user, articleId);
        if r.Fail? {
          return;
        }
        UniqueAppend(lines, CartLine(user, articleId, quantity, now, now));
        lines := lines + [CartLine(user, articleId, quantity, now, now)];
      }
    }

    method ValidateExistenceProductInCart(user: string, articleId: int, quantity: int, now: int)
      returns (isUpdate: bool)
      requires Valid()
      modifies this`lines
      ensures Valid()
      ensures isUpdate <==> FindLine(old(lines), user, articleId).Some?
      ensures lines == AddQuantity(old(lines), user, articleId, quantity, now)
    {
      var found := FindLine(lines, user, articleId);
      isUpdate := found.Some?;
      if isUpdate {
        var cartSave := lines[found.value];
        UniqueUpdate(lines, found.value, cartSave.(quantity := Int32Add(cartSave.quantity, quantity), updateDate := now));
        lines := lines[found.value := cartSave.(quantity := Int32Add(cartSave.quantity, quantity), updateDate := now)];
      }
    }

    /** The scan of validateArticleByCategory; `visited` counts the articles
        it looks up. */
    method ValidateArticleByCategory(user: string, articleId: int) returns (r: Outcome, visited: nat)
      ensures r == CategoryCheck(lines, catalog, user, articleId)
      ensures visited == CategoryLookups(lines, catalog, user, articleId)
    {
      r, visited := Pass, 0;
      if UserLines(lines, user) == [] {
        return;
      }
      var cart := ArticleIds(UserLines(lines, user)) + [articleId];
      var counts: map<int, nat> := map[];
      var i := 0;
      while i < |cart|
        invariant 0 <= i <= |cart| && visited == i && r == Pass
        invariant forall j :: 0 <= j < i ==> cart[j] in catalog
        invariant Tallies(counts, Cats(cart[..i], catalog))
        invariant FirstExcess(Cats(cart[..i], catalog)).None?
      {
        visited := i + 1;
        if cart[i] !in catalog {
          r := Fail(ArticleNotFound(cart[i]));
          ScanStopsOnMissing(cart, catalog, i);
          return;
        }
        CatsStep(cart, catalog, i);
        counts, r := UpdateCategoryCountMap(counts, catalog[cart[i]].categories, Cats(cart[..i], catalog));
        if r.Fail? {
          ScanStopsOnLimit(cart, catalog, i);
          return;
        }
        i := i + 1;
      }
      assert cart[..i] == cart;
      ScanCompletes(cart, catalog);
    }

    method DeleteCart(user: string, articleId: int, now: int) returns (r: Outcome)
      requires Valid()
      modifies this`lines
      ensures Valid()
      ensures (r, Snapshot()) == DeleteFromCart(old(Snapshot()), user, articleId, now)
    {
      r := ValidateCartItem(lines, user, articleId);
      if r.Fail? {
        return;
      }
      UniqueRemoveLine(lines, user, articleId);
      lines := RemoveLine(lines, user, articleId);
      UniqueTouch(lines, user, now);
      lines := Touch(lines, user, now);
    }

    /** getCart; `articles` and `prices` are what getArticleDetails and
        getPriceByIds return for the user's article ids. */
    method GetCart(user: string, page: Option<int>, size: Option<int>,
                   articles: Option<seq<Article>>, prices: Option<seq<ArticlePrice>>)
      returns (r: Result<CartDetailResponse>)
      ensures r == ViewCart(Snapshot(), user, page, size, articles, prices)
    {
      var paging := ValidatePaginationData(page, size);
      if paging.Fail? {
        return Err(paging.error);
      }
      var myCart := UserLines(lines, user);
      var data := ValidateData(articles);
      if data.Fail? {
        return Err(data.error);
      }
      r := GetCartDetails(myCart, articles.value, prices, nextDate);
    }

    /** buyArticle; `articles` is what getArticleDetails returns for the cart
        and `fault` names the collaborator that throws, if any. */
    method BuyArticle(user: string, articles: Option<seq<Article>>, fault: Fault, now: int) returns (r: Outcome)
      requires Valid()
      modifies this`lines, this`ledger, this`reversals
      ensures Valid()
      ensures (r, Snapshot()) == Checkout(old(Snapshot()), user, articles, fault, now)
    {
      ghost var s := Snapshot();
      var thrown: Option<Error> := None;
      label attempt: {
        if fault == CartReadFails {
          thrown := Some(ServiceFailure);
          break attempt;
        }
        var myCart := UserLines(lines, user);
        if fault == StockFails {
          thrown := Some(ServiceFailure);
          break attempt;
        }
        var data := ValidateData(articles);
        if data.Fail? {
          thrown := Some(data.error);
          break attempt;
        }
        var stock := ValidateQuantity(myCart, articles.value, nextDate);
        if stock.Fail? {
          thrown := Some(stock.error);
          break attempt;
        }
        if fault == SaveBuyFails {
          thrown := Some(ServiceFailure);
          break attempt;
        }
        var sale := GetTransactionRequestList(myCart, now);
        ledger := ledger + sale;
        if fault == PurgeFails {
          thrown := Some(ServiceFailure);
          break attempt;
        }
        UniquePurge(lines, user);
        lines := Purge(lines, user);
      }
      assert thrown.None? ==> Purchase(s, user, articles, fault, now) == (Pass, Snapshot());
      assert thrown.Some? ==> Purchase(s, user, articles, fault, now) == (Fail(thrown.value), Snapshot());
      if thrown.None? {
        r := Pass;
      } else if thrown.value.TheItemIsNotAvailable? || thrown.value == NoDataFound {
        r := Fail(thrown.value);
      } else {
        ledger := Reverse(ledger, user, now);
        reversals := reversals + [(user, now)];
        r := Fail(PurchaseFailure);
      }
    }
  }
}
