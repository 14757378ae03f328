/** The pure rules of the cart use case: queries over the cart store, the
    category-diversity tally, the cart view, the stock re-validation of
    checkout and the purchase records, each with the properties it keeps. */
module CartRules {
  import opened CartTypes

  // ---------------------------------------------------------------------
  // Cart store queries
  // ---------------------------------------------------------------------

  /** `l` is the line of article `articleId` in the cart of `email`. */
  predicate SameKey(l: CartLine, email: string, articleId: int) {
    l.email == email && l.articleId == articleId
  }

  /** The store holds at most one line per (email, article). */
  predicate Unique(lines: seq<CartLine>) {
    forall i, j :: 0 <= i < j < |lines| ==> !SameKey(lines[j], lines[i].email, lines[i].articleId)
  }

  /** findCartByUserNameAndArticleId: the position of the first line for (email, articleId). */
  function FindLine(lines: seq<CartLine>, email: string, articleId: int): (r: Option<nat>)
    ensures r.None? <==> forall i :: 0 <= i < |lines| ==> !SameKey(lines[i], email, articleId)
    ensures r.Some? ==> r.value < |lines| && SameKey(lines[r.value], email, articleId)
    ensures r.Some? ==> forall i :: 0 <= i < r.value ==> !SameKey(lines[i], email, articleId)
  {
    if lines == [] then None
    else if SameKey(lines[0], email, articleId) then Some(0)
    else match FindLine(lines[1..], email, articleId)
      case None => None
      case Some(i) => Some(i + 1)
  }

  /** The line findCartByUserNameAndArticleId returns, or null. */
  function LineOf(lines: seq<CartLine>, email: string, articleId: int): (r: Option<CartLine>)
    ensures r.None? <==> forall l :: l in lines ==> !SameKey(l, email, articleId)
    ensures r.Some? ==> r.value in lines && SameKey(r.value, email, articleId)
  {
    match FindLine(lines, email, articleId)
    case None => None
    case Some(i) => Some(lines[i])
  }

  /** With one line per key, the line found for a key is the one line the store holds for it. */
  lemma LineOfUnique(lines: seq<CartLine>, l: CartLine)
    requires Unique(lines) && l in lines
    ensures LineOf(lines, l.email, l.articleId) == Some(l)
  {
    var i := FindLine(lines, l.email, l.articleId).value;
    var j :| 0 <= j < |lines| && lines[j] == l;
  }

  /** findAllCartByUserName: the lines of one user, in store order. */
  function UserLines(lines: seq<CartLine>, email: string): (r: seq<CartLine>)
    ensures |r| <= |lines|
    ensures forall l :: l in r <==> l in lines && l.email == email
  {
    if lines == [] then []
    else if lines[0].email == email then [lines[0]] + UserLines(lines[1..], email)
    else UserLines(lines[1..], email)
  }

  /** A line stored last is the last line of its user's cart. */
  lemma {:induction false} UserLinesSnoc(lines: seq<CartLine>, l: CartLine, email: string)
    ensures UserLines(lines + [l], email) == UserLines(lines, email) + (if l.email == email then [l] else [])
  {
    if lines != [] {
      assert (lines + [l])[1..] == lines[1..] + [l];
      UserLinesSnoc(lines[1..], l, email);
    }
  }

  /** A store whose lines all belong to one user is that user's cart. */
  lemma {:induction false} UserLinesAll(lines: seq<CartLine>, email: string)
    requires forall l :: l in lines ==> l.email == email
    ensures UserLines(lines, email) == lines
    decreases |lines|
  {
    if lines != [] {
      assert lines[0] in lines;
      forall l | l in lines[1..] ensures l.email == email {
        assert l in lines;
      }
      UserLinesAll(lines[1..], email);
      assert [lines[0]] + lines[1..] == lines;
    }
  }

  /** The position of the first line of a cart that holds article `id`. */
  function FirstLineFor(ls: seq<CartLine>, id: int): (r: Option<nat>)
    ensures r.None? <==> forall i :: 0 <= i < |ls| ==> ls[i].articleId != id
    ensures r.Some? ==> r.value < |ls| && ls[r.value].articleId == id
    ensures r.Some? ==> forall j :: 0 <= j < r.value ==> ls[j].articleId != id
  {
    if ls == [] then None
    else if ls[0].articleId == id then Some(0)
    else match FirstLineFor(ls[1..], id)
      case None => None
      case Some(i) => Some(i + 1)
  }

  /** getQuantityFromItem: the quantity of the first line for `id`, or null. */
  function QuantityFromItem(ls: seq<CartLine>, id: int): (r: Option<int>)
    ensures r.None? <==> forall i :: 0 <= i < |ls| ==> ls[i].articleId != id
    ensures r.Some? ==> FirstLineFor(ls, id).Some? && r.value == ls[FirstLineFor(ls, id).value].quantity
  {
    match FirstLineFor(ls, id)
    case None => None
    case Some(i) => Some(ls[i].quantity)
  }

  /** getAllArticleIds: the article of every line, in order; exactly the ids
      for which getQuantityFromItem finds a quantity. */
  function ArticleIds(ls: seq<CartLine>): (r: seq<int>)
    ensures |r| == |ls| && forall i :: 0 <= i < |ls| ==> r[i] == ls[i].articleId
    ensures forall id :: id in r <==> QuantityFromItem(ls, id).Some?
  {
    if ls == [] then [] else [ls[0].articleId] + ArticleIds(ls[1..])
  }

  /** The article ids of a cart are pairwise distinct. */
  predicate DistinctArticles(ls: seq<CartLine>) {
    forall i, j :: 0 <= i < j < |ls| ==> ls[i].articleId != ls[j].articleId
  }

  // ---------------------------------------------------------------------
  // Guards
  // ---------------------------------------------------------------------

  /** validatePaginationData: both present and neither negative; zero is accepted. */
  function ValidatePaginationData(page: Option<int>, size: Option<int>): (r: Outcome)
    ensures r == Pass <==> page.Some? && size.Some? && page.value >= 0 && size.value >= 0
    ensures r.Fail? ==> r.error == PaginationNotAllowed
  {
    if page.None? || size.None? then Fail(PaginationNotAllowed)
    else if page.value < 0 || size.value < 0 then Fail(PaginationNotAllowed)
    else Pass
  }

  /** validateData: a null or empty article list is NoDataFound. */
  function ValidateData(articles: Option<seq<Article>>): (r: Outcome)
    ensures r == Pass <==> articles.Some? && |articles.value| > 0
    ensures r.Fail? ==> r.error == NoDataFound
  {
    if articles.None? || |articles.value| == 0 then Fail(NoDataFound) else Pass
  }

  /** validateAvailableQuantityException: fails when fewer are available than requested. */
  function AvailabilityCheck(available: int, requested: int, name: Option<string>, nextSupply: int): (r: Outcome)
    ensures r == Pass <==> requested <= available
    ensures r.Fail? ==> r.error == TheItemIsNotAvailable(name, nextSupply)
  {
    if available < requested then Fail(TheItemIsNotAvailable(name, nextSupply)) else Pass
  }

  // ---------------------------------------------------------------------
  // Category-diversity tally
  // ---------------------------------------------------------------------

  /** How many entries of `cats` carry category id `categoryId`. */
  function Count(cats: seq<Category>, categoryId: int): (r: nat)
    ensures r <= |cats|
  {
    if cats == [] then 0
    else Count(cats[..|cats| - 1], categoryId) + (if cats[|cats| - 1].id == categoryId then 1 else 0)
  }

  /** The tally of the category at position k just after the scan has counted it. */
  function RunningCount(cats: seq<Category>, k: nat): nat
    requires k < |cats|
  {
    Count(cats[..k + 1], cats[k].id)
  }

  /** No running tally of the scan ever exceeds the limit. */
  predicate WithinLimit(cats: seq<Category>) {
    forall k :: 0 <= k < |cats| ==> RunningCount(cats, k) <= MAX_NUM_CATEGORY
  }

  /** The position at which the scan first sees a tally above the limit. */
  function FirstExcess(cats: seq<Category>): (r: Option<nat>)
    ensures r.None? <==> WithinLimit(cats)
    ensures r.Some? ==> r.value < |cats| && RunningCount(cats, r.value) > MAX_NUM_CATEGORY
    ensures r.Some? ==> WithinLimit(cats[..r.value])
  {
    if cats == [] then None
    else
      var init := cats[..|cats| - 1];
      WithinLimitSnoc(cats);
      match FirstExcess(init)
      case Some(k) =>
        ExcessKept(cats, k);
        Some(k)
      case None =>
        if Count(cats, cats[|cats| - 1].id) > MAX_NUM_CATEGORY then
          ExcessAtLast(cats);
          Some(|cats| - 1)
        else None
  }

  /** An excess before the last category is still an excess with it. */
  lemma ExcessKept(cats: seq<Category>, k: nat)
    requires k < |cats| - 1
    requires RunningCount(cats[..|cats| - 1], k) > MAX_NUM_CATEGORY
    requires WithinLimit(cats[..|cats| - 1][..k])
    ensures RunningCount(cats, k) > MAX_NUM_CATEGORY && WithinLimit(cats[..k])
  {
    RunningCountPrefix(cats, |cats| - 1, k);
    assert cats[..|cats| - 1][..k] == cats[..k];
  }

  /** A last category tallied past the limit is the excess when none came before. */
  lemma ExcessAtLast(cats: seq<Category>)
    requires cats != [] && WithinLimit(cats[..|cats| - 1])
    requires Count(cats, cats[|cats| - 1].id) > MAX_NUM_CATEGORY
    ensures RunningCount(cats, |cats| - 1) > MAX_NUM_CATEGORY
  {
    assert cats[..|cats|] == cats;
  }

  /** The scan stays within the limit over one more category exactly when it
      did before and the new running tally is within the limit. */
  lemma WithinLimitSnoc(cats: seq<Category>)
    requires cats != []
    ensures WithinLimit(cats) <==> WithinLimit(cats[..|cats| - 1])
                                   && Count(cats, cats[|cats| - 1].id) <= MAX_NUM_CATEGORY
  {
    LastRunningCount(cats);
    if WithinLimit(cats) {
      WithinLimitShrinks(cats);
    }
    if WithinLimit(cats[..|cats| - 1]) && Count(cats, cats[|cats| - 1].id) <= MAX_NUM_CATEGORY {
      WithinLimitGrows(cats);
    }
  }

  /** The running tally at the last position is the tally of the whole list. */
  lemma LastRunningCount(cats: seq<Category>)
    requires cats != []
    ensures RunningCount(cats, |cats| - 1) == Count(cats, cats[|cats| - 1].id)
  {
    assert cats[..|cats|] == cats;
  }

  lemma WithinLimitShrinks(cats: seq<Category>)
    requires cats != [] && WithinLimit(cats)
    ensures WithinLimit(cats[..|cats| - 1])
  {
    var n := |cats| - 1;
    forall k | 0 <= k < n ensures RunningCount(cats[..n], k) <= MAX_NUM_CATEGORY {
      RunningCountPrefix(cats, n, k);
    }
  }

  lemma WithinLimitGrows(cats: seq<Category>)
    requires cats != [] && WithinLimit(cats[..|cats| - 1])
    requires RunningCount(cats, |cats| - 1) <= MAX_NUM_CATEGORY
    ensures WithinLimit(cats)
  {
    var n := |cats| - 1;
    forall k | 0 <= k < |cats| ensures RunningCount(cats, k) <= MAX_NUM_CATEGORY {
      if k < n {
        RunningCountPrefix(cats, n, k);
      }
    }
  }

  /** Running tallies do not depend on what the scan has not reached yet. */
  lemma RunningCountPrefix(cats: seq<Category>, n: nat, k: nat)
    requires k < n <= |cats|
    ensures RunningCount(cats[..n], k) == RunningCount(cats, k)
  {
    assert cats[..n][..k + 1] == cats[..k + 1];
  }

  /** updateCategoryCountMap run over `cats`: the first excess names its category. */
  function LimitOutcome(cats: seq<Category>): (r: Outcome)
    ensures r.Fail? ==> r.error.CategoryLimit? && exists k :: 0 <= k < |cats| && r.error == CategoryLimit(cats[k].name)
  {
    match FirstExcess(cats)
    case None => Pass
    case Some(k) => Fail(CategoryLimit(cats[k].name))
  }

  /** The scan throws exactly when some running tally exceeds the limit, and
      then names a category whose tally did. */
  lemma LimitMeaning(cats: seq<Category>)
    ensures var r := LimitOutcome(cats);
            && (r == Pass <==> WithinLimit(cats))
            && (r.Fail? ==> exists k :: 0 <= k < |cats| && r.error == CategoryLimit(cats[k].name)
                                     && RunningCount(cats, k) > MAX_NUM_CATEGORY)
  {
    if FirstExcess(cats).Some? {
      var k := FirstExcess(cats).value;
      assert LimitOutcome(cats).error == CategoryLimit(cats[k].name);
    }
  }

  /** `counts` is the HashMap of the scan: the tally of every category seen in `cats`. */
  ghost predicate Tallies(counts: map<int, nat>, cats: seq<Category>) {
    forall c :: Count(cats, c) == (if c in counts then counts[c] else DEFAULT_VALUE)
  }

  /** One more category raises its tally in the map by ADD_ONE. */
  lemma TalliesSnoc(counts: map<int, nat>, cats: seq<Category>, x: Category)
    requires Tallies(counts, cats)
    ensures var n := (if x.id in counts then counts[x.id] else DEFAULT_VALUE) + ADD_ONE;
            Tallies(counts[x.id := n], cats + [x]) && Count(cats + [x], x.id) == n
  {
    forall c ensures Count(cats + [x], c) == Count(cats, c) + (if x.id == c then 1 else 0) {
      CountSnoc(cats, x, c);
    }
  }

  /** A scan that has not stopped stops at the next category exactly when its
      new tally is above the limit. */
  lemma FirstExcessSnoc(cats: seq<Category>, x: Category)
    requires FirstExcess(cats).None?
    ensures FirstExcess(cats + [x]) == if Count(cats + [x], x.id) > MAX_NUM_CATEGORY then Some(|cats|) else None
  {
    assert (cats + [x])[..|cats|] == cats;
  }

  /** When the scan stops at category x, its verdict names x, whatever follows. */
  lemma LimitAtSnoc(cats: seq<Category>, x: Category, all: seq<Category>)
    requires FirstExcess(cats).None? && Count(cats + [x], x.id) > MAX_NUM_CATEGORY
    requires cats + [x] <= all
    ensures LimitOutcome(all) == Fail(CategoryLimit(x.name))
  {
    FirstExcessSnoc(cats, x);
    ExcessExtends(cats + [x], all);
    assert all[|cats|] == (cats + [x])[|cats|] == x;
  }

  /** The scan of one article's categories, one step further. */
  lemma ScanPrefix(done: seq<Category>, categories: seq<Category>, j: nat)
    requires j < |categories|
    ensures (done + categories[..j]) + [categories[j]] == done + categories[..j + 1]
    ensures done + categories[..j + 1] <= done + categories
  {
    assert (done + categories)[..|done| + j + 1] == done + categories[..j + 1];
  }

  /** The scan of `categories` after `done` starts at `done` and ends at their concatenation. */
  lemma ScanBounds(done: seq<Category>, categories: seq<Category>)
    ensures done + categories[..0] == done
    ensures done + categories[..|categories|] == done + categories
  {
    assert categories[..0] == [] && categories[..|categories|] == categories;
  }

  /** One step of updateCategoryCountMap over `categories` after `done`: the
      tally of category j grows by one, and a tally past the limit decides
      the verdict on the whole list. */
  lemma TallyStep(counts: map<int, nat>, done: seq<Category>, categories: seq<Category>, j: nat)
    requires j < |categories|
    requires Tallies(counts, done + categories[..j]) && FirstExcess(done + categories[..j]).None?
    ensures var x := categories[j];
            var n := (if x.id in counts then counts[x.id] else DEFAULT_VALUE) + ADD_ONE;
            && Tallies(counts[x.id := n], done + categories[..j + 1])
            && (n <= MAX_NUM_CATEGORY ==> FirstExcess(done + categories[..j + 1]).None?)
            && (n > MAX_NUM_CATEGORY ==> LimitOutcome(done + categories) == Fail(CategoryLimit(x.name)))
  {
    var before, x := done + categories[..j], categories[j];
    ScanPrefix(done, categories, j);
    TalliesSnoc(counts, before, x);
    FirstExcessSnoc(before, x);
    var n := (if x.id in counts then counts[x.id] else DEFAULT_VALUE) + ADD_ONE;
    if n > MAX_NUM_CATEGORY {
      LimitAtSnoc(before, x, done + categories);
    }
  }

  /** The stock service knows every article of `ids`. */
  predicate Known(ids: seq<int>, catalog: map<int, Article>) {
    forall i :: 0 <= i < |ids| ==> ids[i] in catalog
  }

  /** No category is tallied more than MAX_NUM_CATEGORY times in `cats`. */
  ghost predicate Bounded(cats: seq<Category>) {
    forall c :: Count(cats, c) <= MAX_NUM_CATEGORY
  }

  /** How many leading ids the stock service knows. */
  function FoundPrefix(ids: seq<int>, catalog: map<int, Article>): (n: nat)
    ensures n <= |ids|
    ensures forall i :: 0 <= i < n ==> ids[i] in catalog
    ensures n < |ids| ==> ids[n] !in catalog
  {
    if ids == [] || ids[0] !in catalog then 0
    else
      var n := FoundPrefix(ids[1..], catalog);
      assert forall i :: 0 < i < n + 1 ==> ids[i] == ids[1..][i - 1];
      1 + n
  }

  /** The categories of the articles of `ids`, in scan order, duplicates included. */
  function Cats(ids: seq<int>, catalog: map<int, Article>): seq<Category>
    requires Known(ids, catalog)
  {
    if ids == [] then []
    else Cats(ids[..|ids| - 1], catalog) + catalog[ids[|ids| - 1]].categories
  }

  /** A scan over articles that list no category passes after looking up every id. */
  lemma ScanUncategorised(ids: seq<int>, catalog: map<int, Article>)
    requires Known(ids, catalog)
    requires forall i :: 0 <= i < |ids| ==> catalog[ids[i]].categories == []
    ensures CategoryVerdict(ids, catalog) == Pass && Lookups(ids, catalog) == |ids|
  {
    NoCategories(ids, catalog);
    assert FirstExcess([]).None?;
    ScanCompletes(ids, catalog);
  }

  /** Articles that list no category contribute nothing to the tally. */
  lemma {:induction false} NoCategories(ids: seq<int>, catalog: map<int, Article>)
    requires Known(ids, catalog)
    requires forall i :: 0 <= i < |ids| ==> catalog[ids[i]].categories == []
    ensures Cats(ids, catalog) == []
    decreases |ids|
  {
    if ids != [] {
      var init := ids[..|ids| - 1];
      assert forall i :: 0 <= i < |init| ==> init[i] == ids[i];
      NoCategories(init, catalog);
    }
  }

  /** validateArticleByCategory's verdict on the id list it scans: the first
      lookup failure or the first category tallied past the limit, in scan order. */
  function CategoryVerdict(ids: seq<int>, catalog: map<int, Article>): (r: Outcome)
    ensures r.Fail? ==> r.error.CategoryLimit? || r.error.ArticleNotFound?
  {
    var p := FoundPrefix(ids, catalog);
    var limit := LimitOutcome(Cats(ids[..p], catalog));
    if limit.Fail? then limit
    else if p < |ids| then Fail(ArticleNotFound(ids[p]))
    else Pass
  }

  /** The scan passes exactly when every article is known and no category is
      tallied past the limit; otherwise it names the category or the unknown id. */
  lemma VerdictMeaning(ids: seq<int>, catalog: map<int, Article>)
    ensures var r := CategoryVerdict(ids, catalog);
            && (r == Pass <==> Known(ids, catalog) && Bounded(Cats(ids, catalog)))
            && (r.Fail? ==> r.error.CategoryLimit? || r.error.ArticleNotFound?)
            && (r.Fail? && r.error.ArticleNotFound? ==> r.error.missingId in ids && r.error.missingId !in catalog)
  {
    var p := FoundPrefix(ids, catalog);
    var cats := Cats(ids[..p], catalog);
    WithinLimitIffBounded(cats);
    if LimitOutcome(cats).Fail? {
      assert Known(ids, catalog) ==> p == |ids| && ids[..p] == ids;
    } else if p < |ids| {
      assert ids[p] in ids;
    } else {
      assert ids[..p] == ids;
    }
  }

  /** A scan that finds every article and never stops on a limit passes. */
  lemma VerdictPasses(ids: seq<int>, catalog: map<int, Article>)
    requires Known(ids, catalog)
    requires FirstExcess(Cats(ids, catalog)).None?
    ensures CategoryVerdict(ids, catalog) == Pass
  {
    assert FoundPrefix(ids, catalog) == |ids| && ids[..|ids|] == ids;
    WithinLimitIffBounded(Cats(ids, catalog));
  }

  lemma {:induction false} CountMonotone(a: seq<Category>, b: seq<Category>, c: int)
    requires a <= b
    ensures Count(a, c) <= Count(b, c)
    decreases |b|
  {
    if |a| < |b| {
      assert a <= b[..|b| - 1];
      CountMonotone(a, b[..|b| - 1], c);
    } else {
      assert a == b;
    }
  }

  lemma {:induction false} WithinLimitBounded(cats: seq<Category>)
    requires WithinLimit(cats)
    ensures Bounded(cats)
    decreases |cats|
  {
    if cats != [] {
      var init := cats[..|cats| - 1];
      WithinLimitSnoc(cats);
      WithinLimitBounded(init);
      assert cats[..|cats|] == cats;
    }
  }

  /** The scan never stops on a limit exactly when no category is tallied
      more than MAX_NUM_CATEGORY times over the whole list. */
  lemma WithinLimitIffBounded(cats: seq<Category>)
    ensures WithinLimit(cats) <==> Bounded(cats)
  {
    if WithinLimit(cats) {
      WithinLimitBounded(cats);
    } else {
      var k :| 0 <= k < |cats| && RunningCount(cats, k) > MAX_NUM_CATEGORY;
      CountMonotone(cats[..k + 1], cats, cats[k].id);
    }
  }

  /** Once the scan has stopped, what it scans later does not matter. */
  lemma {:induction false} ExcessExtends(a: seq<Category>, b: seq<Category>)
    requires a <= b && FirstExcess(a).Some?
    ensures FirstExcess(b) == FirstExcess(a)
    decreases |b|
  {
    if |a| < |b| {
      assert a <= b[..|b| - 1];
      ExcessExtends(a, b[..|b| - 1]);
    } else {
      assert a == b;
    }
  }

  /** Appending one category raises its tally by one and no other. */
  lemma CountSnoc(cats: seq<Category>, x: Category, c: int)
    ensures Count(cats + [x], c) == Count(cats, c) + (if x.id == c then 1 else 0)
  {
    assert (cats + [x])[..|cats|] == cats;
  }

  lemma {:induction false} CatsPrefix(ids: seq<int>, catalog: map<int, Article>, i: nat)
    requires Known(ids, catalog)
    requires i <= |ids|
    ensures Cats(ids[..i], catalog) <= Cats(ids, catalog)
    decreases |ids|
  {
    if i < |ids| {
      var init := ids[..|ids| - 1];
      assert init[..i] == ids[..i];
      CatsPrefix(init, catalog, i);
    } else {
      assert ids[..i] == ids;
    }
  }

  lemma CatsStep(ids: seq<int>, catalog: map<int, Article>, i: nat)
    requires i < |ids| && forall j :: 0 <= j <= i ==> ids[j] in catalog
    ensures Cats(ids[..i + 1], catalog) == Cats(ids[..i], catalog) + catalog[ids[i]].categories
  {
    assert ids[..i + 1][..i] == ids[..i];
  }

  /** The verdict when the scan stops on a category inside the article at position i. */
  lemma VerdictAtExcess(ids: seq<int>, catalog: map<int, Article>, i: nat)
    requires i < |ids| && forall j :: 0 <= j <= i ==> ids[j] in catalog
    requires FirstExcess(Cats(ids[..i + 1], catalog)).Some?
    ensures CategoryVerdict(ids, catalog) == LimitOutcome(Cats(ids[..i + 1], catalog))
  {
    var p := FoundPrefix(ids, catalog);
    assert p > i;
    var pre := ids[..p];
    assert pre[..i + 1] == ids[..i + 1];
    CatsPrefix(pre, catalog, i + 1);
    ExcessExtends(Cats(ids[..i + 1], catalog), Cats(pre, catalog));
  }

  /** The verdict when the article at position i is unknown and no limit was hit before it. */
  lemma VerdictAtMissing(ids: seq<int>, catalog: map<int, Article>, i: nat)
    requires i < |ids| && ids[i] !in catalog && forall j :: 0 <= j < i ==> ids[j] in catalog
    requires FirstExcess(Cats(ids[..i], catalog)).None?
    ensures CategoryVerdict(ids, catalog) == Fail(ArticleNotFound(ids[i]))
  {
    assert FoundPrefix(ids, catalog) == i;
  }

  /** Once the scan has failed, the ids after the failure do not change the verdict. */
  lemma VerdictExtends(a: seq<int>, b: seq<int>, catalog: map<int, Article>)
    requires a <= b && CategoryVerdict(a, catalog).Fail?
    ensures CategoryVerdict(b, catalog) == CategoryVerdict(a, catalog)
  {
    var pa, pb := FoundPrefix(a, catalog), FoundPrefix(b, catalog);
    assert forall i :: 0 <= i < |a| ==> a[i] == b[i];
    assert pb >= pa;
    assert pa < |a| ==> pb == pa;
    assert a[..pa] == b[..pa];
    var ca, cb := Cats(a[..pa], catalog), Cats(b[..pb], catalog);
    assert b[..pb][..pa] == b[..pa];
    CatsPrefix(b[..pb], catalog, pa);
    if FirstExcess(ca).Some? {
      ExcessExtends(ca, cb);
      assert ca[FirstExcess(ca).value] == cb[FirstExcess(ca).value];
    } else {
      assert pb == pa;
    }
  }

  /** How many ids validateArticleByCategory looks up: up to and including the
      one at which it throws, or all of them (LookupsStop). */
  function Lookups(ids: seq<int>, catalog: map<int, Article>): (n: nat)
    ensures n <= |ids|
    decreases |ids|
  {
    if ids == [] then 0
    else
      var init := ids[..|ids| - 1];
      if CategoryVerdict(init, catalog).Fail? then Lookups(init, catalog) else |ids|
  }

  /** The scan over `ids` stops after its first n ids, and that is where it fails. */
  predicate StopsAt(ids: seq<int>, catalog: map<int, Article>, n: nat) {
    && 0 < n <= |ids| && CategoryVerdict(ids, catalog).Fail?
    && CategoryVerdict(ids[..n], catalog) == CategoryVerdict(ids, catalog)
    && CategoryVerdict(ids[..n - 1], catalog) == Pass
  }

  lemma LookupsAfterPass(ids: seq<int>, catalog: map<int, Article>)
    requires ids != [] && CategoryVerdict(ids[..|ids| - 1], catalog) == Pass
    ensures Lookups(ids, catalog) == |ids|
    ensures CategoryVerdict(ids, catalog).Fail? ==> StopsAt(ids, catalog, |ids|)
  {
    assert ids[..|ids|] == ids;
  }

  /** Appending ids after the scan has stopped leaves its stopping point. */
  lemma StopsAtExtend(init: seq<int>, ids: seq<int>, catalog: map<int, Article>, n: nat)
    requires init <= ids && StopsAt(init, catalog, n)
    requires CategoryVerdict(ids, catalog) == CategoryVerdict(init, catalog)
    ensures StopsAt(ids, catalog, n)
  {
    assert init[..n] == ids[..n];
    assert init[..n - 1] == ids[..n - 1];
  }

  lemma LookupsAfterFail(ids: seq<int>, catalog: map<int, Article>)
    requires ids != [] && CategoryVerdict(ids[..|ids| - 1], catalog).Fail?
    requires StopsAt(ids[..|ids| - 1], catalog, Lookups(ids[..|ids| - 1], catalog))
    ensures CategoryVerdict(ids, catalog).Fail? && StopsAt(ids, catalog, Lookups(ids, catalog))
  {
    var init := ids[..|ids| - 1];
    var n := Lookups(init, catalog);
    assert Lookups(ids, catalog) == n;
    VerdictExtends(init, ids, catalog);
    StopsAtExtend(init, ids, catalog, n);
  }

  /** A scan that passes looks up every id; one that fails stops right after
      the id that makes it fail. */
  lemma {:induction false} LookupsStop(ids: seq<int>, catalog: map<int, Article>)
    ensures CategoryVerdict(ids, catalog) == Pass ==> Lookups(ids, catalog) == |ids|
    ensures CategoryVerdict(ids, catalog).Fail? ==> StopsAt(ids, catalog, Lookups(ids, catalog))
    decreases |ids|
  {
    if ids != [] {
      var init := ids[..|ids| - 1];
      if CategoryVerdict(init, catalog).Fail? {
        LookupsStop(init, catalog);
        LookupsAfterFail(ids, catalog);
      } else {
        LookupsAfterPass(ids, catalog);
      }
    }
  }

  /** A scan that fails within the first m ids stops within them. */
  lemma StopsNoLater(ids: seq<int>, catalog: map<int, Article>, n: nat, m: nat)
    requires StopsAt(ids, catalog, n) && m <= |ids| && CategoryVerdict(ids[..m], catalog).Fail?
    ensures n <= m
  {
    if n - 1 >= m {
      assert ids[..n - 1][..m] == ids[..m];
      VerdictExtends(ids[..m], ids[..n - 1], catalog);
    }
  }

  /** A scan that passes the first m ids stops after them. */
  lemma StopsNoEarlier(ids: seq<int>, catalog: map<int, Article>, n: nat, m: nat)
    requires StopsAt(ids, catalog, n) && m <= |ids| && CategoryVerdict(ids[..m], catalog) == Pass
    ensures m < n
  {
    if n <= m {
      assert ids[..m][..n] == ids[..n];
      VerdictExtends(ids[..n], ids[..m], catalog);
    }
  }

  /** The scan stops right after position k when the ids before k pass and the
      id at k makes it fail; its verdict is then the verdict at k. */
  lemma LookupsAt(ids: seq<int>, catalog: map<int, Article>, k: nat)
    requires k < |ids|
    requires CategoryVerdict(ids[..k], catalog) == Pass && CategoryVerdict(ids[..k + 1], catalog).Fail?
    ensures Lookups(ids, catalog) == k + 1
    ensures CategoryVerdict(ids, catalog) == CategoryVerdict(ids[..k + 1], catalog)
  {
    VerdictExtends(ids[..k + 1], ids, catalog);
    LookupsStop(ids, catalog);
    var n := Lookups(ids, catalog);
    StopsNoLater(ids, catalog, n, k + 1);
    StopsNoEarlier(ids, catalog, n, k);
  }

  /** The scan meets an unknown article at position i: that is its verdict,
      after i + 1 lookups. */
  lemma ScanStopsOnMissing(ids: seq<int>, catalog: map<int, Article>, i: nat)
    requires i < |ids| && ids[i] !in catalog && forall j :: 0 <= j < i ==> ids[j] in catalog
    requires FirstExcess(Cats(ids[..i], catalog)).None?
    ensures CategoryVerdict(ids, catalog) == Fail(ArticleNotFound(ids[i]))
    ensures Lookups(ids, catalog) == i + 1
  {
    VerdictPasses(ids[..i], catalog);
    VerdictAtMissing(ids, catalog, i);
    assert ids[..i + 1][..i] == ids[..i];
    VerdictAtMissing(ids[..i + 1], catalog, i);
    LookupsAt(ids, catalog, i);
  }

  /** The scan stops on a category of the article at position i: that is its
      verdict, after i + 1 lookups. */
  lemma ScanStopsOnLimit(ids: seq<int>, catalog: map<int, Article>, i: nat)
    requires i < |ids| && forall j :: 0 <= j <= i ==> ids[j] in catalog
    requires FirstExcess(Cats(ids[..i], catalog)).None?
    requires LimitOutcome(Cats(ids[..i + 1], catalog)).Fail?
    ensures CategoryVerdict(ids, catalog) == LimitOutcome(Cats(ids[..i + 1], catalog))
    ensures Lookups(ids, catalog) == i + 1
  {
    VerdictPasses(ids[..i], catalog);
    VerdictAtExcess(ids, catalog, i);
    assert ids[..i + 1][..i + 1] == ids[..i + 1];
    VerdictAtExcess(ids[..i + 1], catalog, i);
    LookupsAt(ids, catalog, i);
  }

  /** A first article whose own categories exceed the limit stops the scan
      after one lookup. */
  lemma ScanStopsAtFirst(ids: seq<int>, catalog: map<int, Article>)
    requires |ids| > 0 && ids[0] in catalog
    requires LimitOutcome(catalog[ids[0]].categories).Fail?
    ensures CategoryVerdict(ids, catalog) == LimitOutcome(catalog[ids[0]].categories)
    ensures Lookups(ids, catalog) == 1
  {
    FirstVerdict(ids, catalog);
    LookupsStop(ids, catalog);
    StopsNoLater(ids, catalog, Lookups(ids, catalog), 1);
  }

  /** The verdict of a scan whose first article exceeds the limit is already
      settled by that article. */
  lemma FirstVerdict(ids: seq<int>, catalog: map<int, Article>)
    requires |ids| > 0 && ids[0] in catalog
    requires LimitOutcome(catalog[ids[0]].categories).Fail?
    ensures CategoryVerdict(ids[..1], catalog) == LimitOutcome(catalog[ids[0]].categories)
    ensures CategoryVerdict(ids, catalog) == CategoryVerdict(ids[..1], catalog)
  {
    CatsOfFirst(ids, catalog);
    var one := ids[..1];
    assert one[..1] == one;
    VerdictAtExcess(one, catalog, 0);
    VerdictExtends(one, ids, catalog);
  }

  /** The tally before and after the first article of the scan. */
  lemma CatsOfFirst(ids: seq<int>, catalog: map<int, Article>)
    requires |ids| > 0 && ids[0] in catalog
    ensures Known(ids[..0], catalog) && Cats(ids[..0], catalog) == []
    ensures FirstExcess(Cats(ids[..0], catalog)).None?
    ensures Known(ids[..1], catalog) && Cats(ids[..1], catalog) == catalog[ids[0]].categories
  {
    var none, one := ids[..0], ids[..1];
    assert none == [] && one[..|one| - 1] == none && one[|one| - 1] == ids[0];
    var own := catalog[ids[0]].categories;
    assert Cats(one, catalog) == [] + own;
    assert [] + own == own;
  }

  /** The scan runs to the end without stopping: it passes after |ids| lookups. */
  lemma ScanCompletes(ids: seq<int>, catalog: map<int, Article>)
    requires Known(ids, catalog)
    requires FirstExcess(Cats(ids, catalog)).None?
    ensures CategoryVerdict(ids, catalog) == Pass && Lookups(ids, catalog) == |ids|
  {
    VerdictPasses(ids, catalog);
    LookupsStop(ids, catalog);
  }

  // ---------------------------------------------------------------------
  // Cart view
  // ---------------------------------------------------------------------

  /** What `quantity` units at `price` cost; getCartDetails and getTotalPrice
      both multiply the two. */
  function Amount(quantity: int, price: int): int {
    quantity * price
  }

  /** The CartDetail that getCartDetails fills for one article. */
  function Detail(a: Article, quantity: int, nextSupply: int): (d: CartDetail)
    ensures d.message.Some? <==> a.quantity < quantity
    ensures d.message.Some? ==> d.message.value == nextSupply
  {
    CartDetail(a.name, a.price, quantity, a.quantity, Amount(quantity, a.price),
               if a.quantity < quantity then Some(nextSupply) else None)
  }

  /** What a detail line promises about the article it describes. */
  predicate Describes(d: CartDetail, a: Article, quantity: int, nextSupply: int) {
    && d.name == a.name
    && d.unitPrice == a.price
    && d.quantityRequest == quantity
    && d.quantityAvailable == a.quantity
    && d.subPrice == Amount(quantity, a.price)
    && (d.message.Some? <==> a.quantity < quantity)
    && (d.message.Some? ==> d.message.value == nextSupply)
  }

  /** Every article has a line in the cart. */
  predicate AllInCart(ls: seq<CartLine>, articles: seq<Article>) {
    forall i :: 0 <= i < |articles| ==> QuantityFromItem(ls, articles[i].id).Some?
  }

  /** The detail lines of the view, one per returned article and in its order;
      the first article without a cart line is the null that breaks the loop. */
  function Details(ls: seq<CartLine>, articles: seq<Article>, nextSupply: int): (r: Result<seq<CartDetail>>)
    ensures r.Ok? <==> AllInCart(ls, articles)
    ensures r.Ok? ==> |r.value| == |articles|
    ensures r.Err? ==> exists i :: 0 <= i < |articles| && r.error == MissingCartLine(articles[i].id)
                                  && QuantityFromItem(ls, articles[i].id).None?
                                  && AllInCart(ls, articles[..i])
  {
    if articles == [] then Ok([])
    else
      var init := articles[..|articles| - 1];
      var a := articles[|articles| - 1];
      assert forall i :: 0 <= i < |init| ==> init[i] == articles[i];
      match Details(ls, init, nextSupply)
      case Err(e) =>
        assert forall i :: 0 <= i < |init| ==> init[..i] == articles[..i];
        Err(e)
      case Ok(d) =>
        match QuantityFromItem(ls, a.id)
        case None =>
          assert articles[..|articles| - 1] == init;
          Err(MissingCartLine(a.id))
        case Some(q) => Ok(d + [Detail(a, q, nextSupply)])
  }

  /** Every priced article has a line in the cart. */
  predicate AllPricedInCart(ls: seq<CartLine>, prices: seq<ArticlePrice>) {
    forall i :: 0 <= i < |prices| ==> QuantityFromItem(ls, prices[i].id).Some?
  }

  /** getTotalPrice over a present price list: quantity times price, summed over
      every priced article; the first priced article without a line breaks the loop. */
  function Total(ls: seq<CartLine>, prices: seq<ArticlePrice>): (r: Result<int>)
    ensures r.Err? ==> r.error.MissingCartLine?
  {
    if prices == [] then Ok(0)
    else
      var p := prices[|prices| - 1];
      match Total(ls, prices[..|prices| - 1])
      case Err(e) => Err(e)
      case Ok(t) =>
        match QuantityFromItem(ls, p.id)
        case None => Err(MissingCartLine(p.id))
        case Some(q) => Ok(t + Amount(q, p.price))
  }

  /** The total is found exactly when every priced article has a cart line;
      otherwise the error names the first priced article without one. */
  lemma {:induction false} TotalMeaning(ls: seq<CartLine>, prices: seq<ArticlePrice>)
    ensures var r := Total(ls, prices);
            && (r.Ok? <==> AllPricedInCart(ls, prices))
            && (r.Err? ==> exists i :: 0 <= i < |prices| && r.error == MissingCartLine(prices[i].id)
                                     && QuantityFromItem(ls, prices[i].id).None?
                                     && AllPricedInCart(ls, prices[..i]))
    decreases |prices|
  {
    if prices != [] {
      var init := prices[..|prices| - 1];
      TotalMeaning(ls, init);
      assert forall i :: 0 <= i < |init| ==> init[i] == prices[i];
      if Total(ls, init).Err? {
        assert forall i :: 0 <= i < |init| ==> init[..i] == prices[..i];
      }
    }
  }

  /** Each detail line describes its article with the quantity of the cart
      line found for it. */
  lemma {:induction false} DetailsDescribe(ls: seq<CartLine>, articles: seq<Article>, nextSupply: int)
    ensures Details(ls, articles, nextSupply).Ok? ==>
              forall i :: 0 <= i < |articles| ==>
                Describes(Details(ls, articles, nextSupply).value[i], articles[i],
                          QuantityFromItem(ls, articles[i].id).value, nextSupply)
    decreases |articles|
  {
    if articles != [] && Details(ls, articles, nextSupply).Ok? {
      var n := |articles| - 1;
      var init, a := articles[..n], articles[n];
      TakeSnoc(articles, |articles|);
      assert articles[..|articles|] == articles;
      DetailsDescribe(ls, init, nextSupply);
      var q := QuantityFromItem(ls, a.id).value;
      var d0 := Details(ls, init, nextSupply).value;
      DetailsSnoc(ls, init, a, q, nextSupply);
      var d := d0 + [Detail(a, q, nextSupply)];
      forall i | 0 <= i < |articles|
        ensures Describes(d[i], articles[i], QuantityFromItem(ls, articles[i].id).value, nextSupply)
      {
        if i < n {
          assert d[i] == d0[i] && articles[i] == init[i];
        }
      }
    }
  }

  /** getCartDetails: the details of the returned page, then the total over the
      price list of the whole cart; a null price list totals 0. */
  function CartDetails(ls: seq<CartLine>, articles: seq<Article>, prices: Option<seq<ArticlePrice>>,
                       nextSupply: int): (r: Result<CartDetailResponse>)
    ensures r.Ok? <==> AllInCart(ls, articles) && (prices.Some? ==> AllPricedInCart(ls, prices.value))
    ensures r.Err? ==> r.error.MissingCartLine?
    ensures r.Ok? ==> Details(ls, articles, nextSupply) == Ok(r.value.cartDetail)
    ensures r.Ok? && prices.None? ==> r.value.totalPrice == 0
    ensures r.Ok? && prices.Some? ==> Total(ls, prices.value) == Ok(r.value.totalPrice)
  {
    match Details(ls, articles, nextSupply)
    case Err(e) => Err(e)
    case Ok(d) =>
      if prices.None? then Ok(CartDetailResponse(d, 0))
      else
        TotalMeaning(ls, prices.value);
        match Total(ls, prices.value)
        case Err(e) => Err(e)
        case Ok(t) => Ok(CartDetailResponse(d, t))
  }

  /** Once a missing line has broken the detail loop, later articles do not matter. */
  lemma {:induction false} DetailsErrPrefix(ls: seq<CartLine>, articles: seq<Article>, k: nat, nextSupply: int)
    requires k <= |articles| && Details(ls, articles[..k], nextSupply).Err?
    ensures Details(ls, articles, nextSupply) == Details(ls, articles[..k], nextSupply)
    decreases |articles|
  {
    if k < |articles| {
      var init := articles[..|articles| - 1];
      assert init[..k] == articles[..k];
      DetailsErrPrefix(ls, init, k, nextSupply);
    } else {
      assert articles[..k] == articles;
    }
  }

  /** Once a missing line has broken the price loop, later prices do not matter. */
  lemma {:induction false} TotalErrPrefix(ls: seq<CartLine>, prices: seq<ArticlePrice>, k: nat)
    requires k <= |prices| && Total(ls, prices[..k]).Err?
    ensures Total(ls, prices) == Total(ls, prices[..k])
    decreases |prices|
  {
    if k < |prices| {
      var init := prices[..|prices| - 1];
      assert init[..k] == prices[..k];
      TotalErrPrefix(ls, init, k);
    } else {
      assert prices[..k] == prices;
    }
  }

  /** The sum of the subtotals of some detail lines. */
  function SubtotalSum(d: seq<CartDetail>): int {
    if d == [] then 0 else SubtotalSum(d[..|d| - 1]) + d[|d| - 1].subPrice
  }

  /** One more article, priced at its own price, adds its subtotal to both
      the details and the total. */
  lemma SubtotalStep(ls: seq<CartLine>, articles: seq<Article>, a: Article,
                     prices: seq<ArticlePrice>, p: ArticlePrice, nextSupply: int)
    requires Details(ls, articles, nextSupply).Ok? && QuantityFromItem(ls, a.id).Some?
    requires p == ArticlePrice(a.id, a.price)
    requires Total(ls, prices) == Ok(SubtotalSum(Details(ls, articles, nextSupply).value))
    ensures Details(ls, articles + [a], nextSupply).Ok?
    ensures Total(ls, prices + [p]) == Ok(SubtotalSum(Details(ls, articles + [a], nextSupply).value))
  {
    var q := QuantityFromItem(ls, a.id).value;
    var d0 := Details(ls, articles, nextSupply).value;
    DetailsSnoc(ls, articles, a, q, nextSupply);
    TotalSnoc(ls, prices, p, q);
    SubtotalSumSnoc(d0, Detail(a, q, nextSupply));
  }

  lemma SubtotalSumSnoc(d: seq<CartDetail>, x: CartDetail)
    ensures SubtotalSum(d + [x]) == SubtotalSum(d) + x.subPrice
  {
    SnocParts(d, x);
  }

  /** Appending one element keeps the sequence as the prefix before it. */
  lemma SnocParts<T>(s: seq<T>, x: T)
    ensures (s + [x])[..|s|] == s && (s + [x])[|s|] == x
  {
  }

  /** The prefix as long as the sequence is the sequence. */
  lemma TakeAll<T>(s: seq<T>)
    ensures s[..|s|] == s
  {
  }

  /** A price without a cart line after a run of priced ones ends the total there. */
  lemma TotalMissingAt(ls: seq<CartLine>, prices: seq<ArticlePrice>, i: nat)
    requires i < |prices| && QuantityFromItem(ls, prices[i].id).None?
    requires Total(ls, prices[..i]).Ok?
    ensures Total(ls, prices[..i + 1]) == Err(MissingCartLine(prices[i].id))
  {
    TakeSnoc(prices, i + 1);
    var all := prices[..i + 1];
    assert all[..|all| - 1] == prices[..i] && all[|all| - 1] == prices[i];
  }

  /** A prefix of k elements is the prefix of k - 1 and element k - 1. */
  lemma TakeSnoc<T>(s: seq<T>, k: nat)
    requires 0 < k <= |s|
    ensures s[..k] == s[..k - 1] + [s[k - 1]]
  {
  }

  lemma {:induction false} SubtotalsCoverPrefix(ls: seq<CartLine>, articles: seq<Article>,
                                                prices: seq<ArticlePrice>, nextSupply: int, k: nat)
    requires AllInCart(ls, articles)
    requires |prices| == |articles| && k <= |articles|
    requires forall i {:trigger prices[i]} :: 0 <= i < |prices| ==> prices[i] == ArticlePrice(articles[i].id, articles[i].price)
    ensures Details(ls, articles[..k], nextSupply).Ok?
    ensures Total(ls, prices[..k]) == Ok(SubtotalSum(Details(ls, articles[..k], nextSupply).value))
  {
    if k > 0 {
      SubtotalsCoverPrefix(ls, articles, prices, nextSupply, k - 1);
      assert QuantityFromItem(ls, articles[k - 1].id).Some?;
      assert prices[k - 1] == ArticlePrice(articles[k - 1].id, articles[k - 1].price);
      TakeSnoc(articles, k);
      TakeSnoc(prices, k);
      SubtotalStep(ls, articles[..k - 1], articles[k - 1], prices[..k - 1], prices[k - 1], nextSupply);
    } else {
      EmptyPrefix(articles, prices);
    }
  }

  lemma EmptyPrefix<S, T>(s: seq<S>, t: seq<T>)
    ensures s[..0] == [] && t[..0] == []
  {
  }

  /** When the price list prices exactly the returned articles, the total is
      the sum of the subtotals shown. */
  lemma TotalIsSumOfSubtotals(ls: seq<CartLine>, articles: seq<Article>,
                              prices: seq<ArticlePrice>, nextSupply: int)
    requires AllInCart(ls, articles)
    requires |prices| == |articles|
    requires forall i :: 0 <= i < |prices| ==> prices[i] == ArticlePrice(articles[i].id, articles[i].price)
    ensures Total(ls, prices) == Ok(SubtotalSum(Details(ls, articles, nextSupply).value))
  {
    SubtotalsCoverPrefix(ls, articles, prices, nextSupply, |articles|);
    assert articles[..|articles|] == articles && prices[..|prices|] == prices;
  }

  /** Quantity times price over a cart whose lines are priced position by position. */
  function LineSum(ls: seq<CartLine>, prices: seq<ArticlePrice>): int
    requires |prices| == |ls|
  {
    if ls == [] then 0
    else LineSum(ls[..|ls| - 1], prices[..|prices| - 1]) + Amount(ls[|ls| - 1].quantity, prices[|prices| - 1].price)
  }

  /** With one line per article, getQuantityFromItem finds each line's own quantity. */
  lemma QuantityOfDistinct(ls: seq<CartLine>, n: nat)
    requires DistinctArticles(ls) && n < |ls|
    ensures QuantityFromItem(ls, ls[n].articleId) == Some(ls[n].quantity)
  {
    var j := FirstLineFor(ls, ls[n].articleId).value;
    assert j == n;
  }

  lemma DetailsSnoc(ls: seq<CartLine>, articles: seq<Article>, a: Article, q: int, nextSupply: int)
    requires QuantityFromItem(ls, a.id) == Some(q) && Details(ls, articles, nextSupply).Ok?
    ensures Details(ls, articles + [a], nextSupply) == Ok(Details(ls, articles, nextSupply).value + [Detail(a, q, nextSupply)])
  {
    SnocParts(articles, a);
  }

  lemma TotalSnoc(ls: seq<CartLine>, ps: seq<ArticlePrice>, p: ArticlePrice, q: int)
    requires QuantityFromItem(ls, p.id) == Some(q) && Total(ls, ps).Ok?
    ensures Total(ls, ps + [p]) == Ok(Total(ls, ps).value + Amount(q, p.price))
  {
    SnocParts(ps, p);
  }

  /** The sum over the first i + 1 lines is the sum over the first i and line i. */
  lemma LineSumPrefix(ls: seq<CartLine>, prices: seq<ArticlePrice>, i: nat)
    requires |prices| == |ls| && i < |ls|
    ensures LineSum(ls[..i + 1], prices[..i + 1]) == LineSum(ls[..i], prices[..i])
                                                    + Amount(ls[i].quantity, prices[i].price)
  {
    var a, b := ls[..i + 1], prices[..i + 1];
    assert a[..|a| - 1] == ls[..i] && b[..|b| - 1] == prices[..i];
    assert a[|a| - 1] == ls[i] && b[|b| - 1] == prices[i];
  }

  /** Totalling the first i + 1 prices adds price i to the total of the first i. */
  lemma TotalPrefix(ls: seq<CartLine>, prices: seq<ArticlePrice>, i: nat, q: int)
    requires i < |prices| && QuantityFromItem(ls, prices[i].id) == Some(q)
    requires Total(ls, prices[..i]).Ok?
    ensures Total(ls, prices[..i + 1]) == Ok(Total(ls, prices[..i]).value + Amount(q, prices[i].price))
  {
    TakeSnoc(prices, i + 1);
    TotalSnoc(ls, prices[..i], prices[i], q);
  }

  lemma {:induction false} TotalCoversPrefix(ls: seq<CartLine>, prices: seq<ArticlePrice>, k: nat)
    requires |prices| == |ls| && k <= |ls|
    requires forall i {:trigger prices[i]} :: 0 <= i < |ls| ==> QuantityFromItem(ls, prices[i].id) == Some(ls[i].quantity)
    ensures Total(ls, prices[..k]) == Ok(LineSum(ls[..k], prices[..k]))
  {
    if k > 0 {
      var i := k - 1;
      TotalCoversPrefix(ls, prices, i);
      TotalPrefix(ls, prices, i, ls[i].quantity);
      LineSumPrefix(ls, prices, i);
    } else {
      EmptyPrefix(prices, ls);
    }
  }

  /** With one article per line, a price list that follows the cart totals
      every line's quantity times its price: the total covers the whole cart. */
  lemma TotalCoversCart(ls: seq<CartLine>, prices: seq<ArticlePrice>)
    requires DistinctArticles(ls)
    requires |prices| == |ls| && forall i :: 0 <= i < |ls| ==> prices[i].id == ls[i].articleId
    ensures Total(ls, prices) == Ok(LineSum(ls, prices))
  {
    forall i | 0 <= i < |ls| ensures QuantityFromItem(ls, prices[i].id) == Some(ls[i].quantity) {
      QuantityOfDistinct(ls, i);
    }
    TotalCoversPrefix(ls, prices, |ls|);
    assert prices[..|ls|] == prices && ls[..|ls|] == ls;
  }

  // ---------------------------------------------------------------------
  // Checkout
  // ---------------------------------------------------------------------

  /** validateQuantity: every returned article must have its cart quantity in
      stock; the first article that fails decides the error. */
  function StockVerdict(ls: seq<CartLine>, articles: seq<Article>, nextSupply: int): (r: Outcome)
    ensures r == Pass <==> forall i :: 0 <= i < |articles| ==>
                             QuantityFromItem(ls, articles[i].id).Some?
                             && QuantityFromItem(ls, articles[i].id).value <= articles[i].quantity
    ensures r.Fail? ==> r.error.MissingCartLine? || r.error.TheItemIsNotAvailable?
    ensures r.Fail? && r.error.TheItemIsNotAvailable? ==> r.error.nextSupply == nextSupply
  {
    if articles == [] then Pass
    else
      var init := articles[..|articles| - 1];
      var a := articles[|articles| - 1];
      assert forall i :: 0 <= i < |init| ==> init[i] == articles[i];
      match StockVerdict(ls, init, nextSupply)
      case Fail(e) => Fail(e)
      case Pass =>
        match QuantityFromItem(ls, a.id)
        case None => Fail(MissingCartLine(a.id))
        case Some(q) => AvailabilityCheck(a.quantity, q, a.name, nextSupply)
  }

  /** Once an article has failed the stock check, later articles do not matter. */
  lemma {:induction false} StockVerdictFailPrefix(ls: seq<CartLine>, articles: seq<Article>, k: nat, nextSupply: int)
    requires k <= |articles| && StockVerdict(ls, articles[..k], nextSupply).Fail?
    ensures StockVerdict(ls, articles, nextSupply) == StockVerdict(ls, articles[..k], nextSupply)
    decreases |articles|
  {
    if k < |articles| {
      var init := articles[..|articles| - 1];
      assert init[..k] == articles[..k];
      StockVerdictFailPrefix(ls, init, k, nextSupply);
    } else {
      assert articles[..k] == articles;
    }
  }

  /** A failed stock check names the first article that fails: every article
      before it passes, and it either has no cart line or asks for more than
      its stock. */
  lemma {:induction false} StockVerdictBlame(ls: seq<CartLine>, articles: seq<Article>, nextSupply: int)
    requires StockVerdict(ls, articles, nextSupply).Fail?
    ensures var e := StockVerdict(ls, articles, nextSupply).error;
            exists i :: 0 <= i < |articles| && StockVerdict(ls, articles[..i], nextSupply) == Pass
                        && (if QuantityFromItem(ls, articles[i].id).None?
                            then e == MissingCartLine(articles[i].id)
                            else articles[i].quantity < QuantityFromItem(ls, articles[i].id).value
                                 && e == TheItemIsNotAvailable(articles[i].name, nextSupply))
    decreases |articles|
  {
    var n := |articles| - 1;
    var init := articles[..n];
    if StockVerdict(ls, init, nextSupply).Fail? {
      StockVerdictBlame(ls, init, nextSupply);
      var e := StockVerdict(ls, init, nextSupply).error;
      var i :| 0 <= i < |init| && StockVerdict(ls, init[..i], nextSupply) == Pass
               && (if QuantityFromItem(ls, init[i].id).None?
                   then e == MissingCartLine(init[i].id)
                   else init[i].quantity < QuantityFromItem(ls, init[i].id).value
                        && e == TheItemIsNotAvailable(init[i].name, nextSupply));
      assert init[..i] == articles[..i];
      assert init[i] == articles[i];
    } else {
      assert articles[..n] == init;
    }
  }

  /** Checkout's stock validation passes exactly when the cart view of the same
      articles would build and show no unavailability message. */
  lemma StockVerdictAgreesWithView(ls: seq<CartLine>, articles: seq<Article>, nextSupply: int)
    ensures StockVerdict(ls, articles, nextSupply) == Pass <==>
              Details(ls, articles, nextSupply).Ok?
              && forall i :: 0 <= i < |articles| ==> Details(ls, articles, nextSupply).value[i].message.None?
  {
    DetailsDescribe(ls, articles, nextSupply);
  }

  /** getTransactionRequestList: one record per line, in cart order, stamped with `buyDate`. */
  function Records(ls: seq<CartLine>, buyDate: int): (r: seq<TransactionRequest>)
    ensures |r| == |ls|
    ensures forall i :: 0 <= i < |ls| ==> r[i].articleId == ls[i].articleId && r[i].quantity == ls[i].quantity
  {
    seq(|ls|, i requires 0 <= i < |ls| => TransactionRequest(ls[i].articleId, ls[i].quantity, ls[i].email, buyDate))
  }

  /** The records of one user's cart all carry that user and the checkout time,
      and their quantities are the cart's. */
  lemma RecordsOfUser(lines: seq<CartLine>, email: string, buyDate: int)
    ensures |Records(UserLines(lines, email), buyDate)| == |UserLines(lines, email)|
    ensures forall t :: t in Records(UserLines(lines, email), buyDate) ==>
              t.email == email && t.buyDate == buyDate
    ensures forall i :: 0 <= i < |UserLines(lines, email)| ==>
              Records(UserLines(lines, email), buyDate)[i].articleId == UserLines(lines, email)[i].articleId
              && Records(UserLines(lines, email), buyDate)[i].quantity == UserLines(lines, email)[i].quantity
  {
    var ls := UserLines(lines, email);
    forall t | t in Records(ls, buyDate) ensures t.email == email && t.buyDate == buyDate {
      var i :| 0 <= i < |ls| && Records(ls, buyDate)[i] == t;
      assert ls[i] in ls;
    }
  }

  // ---------------------------------------------------------------------
  // Store updates
  // ---------------------------------------------------------------------

  /** deleteItemCart: drop the line of (email, articleId). */
  function RemoveLine(lines: seq<CartLine>, email: string, articleId: int): (r: seq<CartLine>)
    ensures forall l :: l in r <==> l in lines && !SameKey(l, email, articleId)
    ensures FindLine(lines, email, articleId).None? ==> r == lines
  {
    if lines == [] then []
    else if SameKey(lines[0], email, articleId) then RemoveLine(lines[1..], email, articleId)
    else [lines[0]] + RemoveLine(lines[1..], email, articleId)
  }

  /** With one line per key, removing a key the store holds drops exactly one line. */
  lemma {:induction false} RemoveLineLength(lines: seq<CartLine>, email: string, articleId: int)
    requires Unique(lines) && FindLine(lines, email, articleId).Some?
    ensures |RemoveLine(lines, email, articleId)| == |lines| - 1
    decreases |lines|
  {
    var rest := lines[1..];
    assert Unique(rest) by {
      forall i, j | 0 <= i < j < |rest| ensures !SameKey(rest[j], rest[i].email, rest[i].articleId) {
        assert rest[j] == lines[j + 1] && rest[i] == lines[i + 1];
      }
    }
    if SameKey(lines[0], email, articleId) {
      forall i | 0 <= i < |rest| ensures !SameKey(rest[i], email, articleId) {
        assert rest[i] == lines[i + 1];
      }
    } else {
      RemoveLineLength(rest, email, articleId);
    }
  }

  /** updateProductDateByEmail: stamp `date` on every line of `email`. */
  function Touch(lines: seq<CartLine>, email: string, date: int): (r: seq<CartLine>)
    ensures |r| == |lines|
    ensures forall i :: 0 <= i < |lines| ==>
              r[i] == (if lines[i].email == email then lines[i].(updateDate := date) else lines[i])
  {
    seq(|lines|, i requires 0 <= i < |lines| =>
      if lines[i].email == email then lines[i].(updateDate := date) else lines[i])
  }

  /** Every line survives a restamp, restamped when it is the user's. */
  lemma TouchKeeps(lines: seq<CartLine>, email: string, date: int, l: CartLine)
    requires l in lines
    ensures (if l.email == email then l.(updateDate := date) else l) in Touch(lines, email, date)
  {
    var j :| 0 <= j < |lines| && lines[j] == l;
    assert Touch(lines, email, date)[j] == (if l.email == email then l.(updateDate := date) else l);
  }

  /** Every line after a restamp is a line from before, restamped when it is the user's. */
  lemma TouchedFrom(lines: seq<CartLine>, email: string, date: int, m: CartLine)
    requires m in Touch(lines, email, date)
    ensures exists l :: l in lines && m == (if l.email == email then l.(updateDate := date) else l)
  {
    var j :| 0 <= j < |lines| && Touch(lines, email, date)[j] == m;
    assert lines[j] in lines;
  }

  /** deleteCart: drop every line of `email`. */
  function Purge(lines: seq<CartLine>, email: string): (r: seq<CartLine>)
    ensures forall l :: l in r <==> l in lines && l.email != email
    ensures UserLines(r, email) == []
  {
    if lines == [] then []
    else if lines[0].email == email then Purge(lines[1..], email)
    else [lines[0]] + Purge(lines[1..], email)
  }

  /** returnRecord as the ledger is taken to honour it: drop every record of
      `email` stamped `buyDate`. */
  function Reverse(ledger: seq<TransactionRequest>, email: string, buyDate: int): (r: seq<TransactionRequest>)
    ensures forall t :: t in r <==> t in ledger && !(t.email == email && t.buyDate == buyDate)
  {
    if ledger == [] then []
    else if ledger[0].email == email && ledger[0].buyDate == buyDate then Reverse(ledger[1..], email, buyDate)
    else [ledger[0]] + Reverse(ledger[1..], email, buyDate)
  }

  /** Reversal undoes a sale stamped with a time the ledger had not seen for that user. */
  lemma {:induction false} ReverseUndoesSale(ledger: seq<TransactionRequest>, sale: seq<TransactionRequest>,
                                             email: string, buyDate: int)
    requires forall t :: t in ledger ==> !(t.email == email && t.buyDate == buyDate)
    requires forall t :: t in sale ==> t.email == email && t.buyDate == buyDate
    ensures Reverse(ledger + sale, email, buyDate) == ledger
    decreases |ledger| + |sale|
  {
    if ledger == [] {
      if sale != [] {
        assert [] + sale == sale && [] + sale[1..] == sale[1..];
        assert sale[0] in sale;
        forall t | t in sale[1..] ensures t.email == email && t.buyDate == buyDate {
          assert t in sale;
        }
        ReverseUndoesSale([], sale[1..], email, buyDate);
      }
    } else {
      var all := ledger + sale;
      assert all[0] == ledger[0] && ledger[0] in ledger;
      assert all[1..] == ledger[1..] + sale;
      forall t | t in ledger[1..] ensures !(t.email == email && t.buyDate == buyDate) {
        assert t in ledger;
      }
      ReverseUndoesSale(ledger[1..], sale, email, buyDate);
      assert [ledger[0]] + ledger[1..] == ledger;
    }
  }

  // ---------------------------------------------------------------------
  // One line per (email, article)
  // ---------------------------------------------------------------------

  lemma UniqueCons(l: CartLine, t: seq<CartLine>)
    ensures Unique([l] + t) <==> (forall m :: m in t ==> !SameKey(m, l.email, l.articleId)) && Unique(t)
  {
    var s := [l] + t;
    if Unique(s) {
      forall m | m in t ensures !SameKey(m, l.email, l.articleId) {
        var j :| 0 <= j < |t| && t[j] == m;
        assert s[0] == l && s[j + 1] == m;
      }
      forall i, j | 0 <= i < j < |t| ensures !SameKey(t[j], t[i].email, t[i].articleId) {
        assert s[i + 1] == t[i] && s[j + 1] == t[j];
      }
    }
    if (forall m :: m in t ==> !SameKey(m, l.email, l.articleId)) && Unique(t) {
      forall i, j | 0 <= i < j < |s| ensures !SameKey(s[j], s[i].email, s[i].articleId) {
        if i == 0 { assert s[j] in t; } else { assert s[i] == t[i - 1] && s[j] == t[j - 1]; }
      }
    }
  }

  /** Inserting a line for a key the store does not hold keeps one line per key. */
  lemma UniqueAppend(lines: seq<CartLine>, l: CartLine)
    requires Unique(lines) && FindLine(lines, l.email, l.articleId).None?
    ensures Unique(lines + [l])
  {
  }

  /** Rewriting a line without changing its key keeps one line per key. */
  lemma UniqueUpdate(lines: seq<CartLine>, i: nat, l: CartLine)
    requires Unique(lines) && i < |lines|
    requires l.email == lines[i].email && l.articleId == lines[i].articleId
    ensures Unique(lines[i := l])
  {
  }

  lemma {:induction false} UniqueRemoveLine(lines: seq<CartLine>, email: string, articleId: int)
    requires Unique(lines)
    ensures Unique(RemoveLine(lines, email, articleId))
  {
    if lines != [] {
      assert lines == [lines[0]] + lines[1..];
      UniqueCons(lines[0], lines[1..]);
      UniqueRemoveLine(lines[1..], email, articleId);
      if !SameKey(lines[0], email, articleId) {
        UniqueCons(lines[0], RemoveLine(lines[1..], email, articleId));
      }
    }
  }

  lemma {:induction false} UniquePurge(lines: seq<CartLine>, email: string)
    requires Unique(lines)
    ensures Unique(Purge(lines, email))
  {
    if lines != [] {
      assert lines == [lines[0]] + lines[1..];
      UniqueCons(lines[0], lines[1..]);
      UniquePurge(lines[1..], email);
      if lines[0].email != email {
        UniqueCons(lines[0], Purge(lines[1..], email));
      }
    }
  }

  lemma UniqueTouch(lines: seq<CartLine>, email: string, date: int)
    requires Unique(lines)
    ensures Unique(Touch(lines, email, date))
  {
  }

  /** A line whose article no later line names extends a cart of distinct articles. */
  lemma DistinctCons(l: CartLine, t: seq<CartLine>)
    requires DistinctArticles(t)
    requires forall m :: m in t ==> m.articleId != l.articleId
    ensures DistinctArticles([l] + t)
  {
    var s := [l] + t;
    forall i, j | 0 <= i < j < |s| ensures s[i].articleId != s[j].articleId {
      if i == 0 { assert s[j] == t[j - 1] && s[j] in t; } else { assert s[i] == t[i - 1] && s[j] == t[j - 1]; }
    }
  }

  /** In a store with one line per key, a user's cart names each article once. */
  lemma {:induction false} UniqueUserLines(lines: seq<CartLine>, email: string)
    requires Unique(lines)
    ensures DistinctArticles(UserLines(lines, email))
  {
    if lines != [] {
      var l, rest := lines[0], lines[1..];
      assert lines == [l] + rest;
      UniqueCons(l, rest);
      UniqueUserLines(rest, email);
      var t := UserLines(rest, email);
      if l.email == email {
        forall m | m in t ensures m.articleId != l.articleId {
          assert m in rest && m.email == email;
          assert !SameKey(m, l.email, l.articleId);
        }
        DistinctCons(l, t);
      }
    }
  }
}
