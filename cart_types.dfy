/** Data model of the shopping-cart use case: cart lines, stock snapshots,
    view details, ledger records and the error kinds the use case raises. */
module CartTypes {

  /** Most cart articles that may share one category (ConstantsUseCase.MAX_NUM_CATEGORY). */
  const MAX_NUM_CATEGORY: nat := 3
  /** Tally of a category not yet seen (ConstantsUseCase.DEFAULT_VALUE). */
  const DEFAULT_VALUE: nat := 0
  /** Increment applied per category occurrence (ConstantsUseCase.ADD_ONE). */
  const ADD_ONE: nat := 1

  /** Bounds of Java's `Integer`. */
  const INT_MIN: int := -0x8000_0000
  const INT_MAX: int := 0x7fff_ffff

  /** Java's `Integer` addition: the sum taken modulo 2^32 into [INT_MIN, INT_MAX]. */
  function Int32Add(a: int, b: int): (r: int)
    ensures INT_MIN <= r <= INT_MAX
    ensures (a + b - r) % 0x1_0000_0000 == 0
    ensures INT_MIN <= a + b <= INT_MAX ==> r == a + b
  {
    (a + b - INT_MIN) % 0x1_0000_0000 + INT_MIN
  }

  /** A value that Java may leave `null`. */
  datatype Option<T> = None | Some(value: T)

  /** Outcome of a `void` operation: it returns normally or throws. */
  datatype Outcome = Pass | Fail(error: Error)

  /** Outcome of an operation that returns a value or throws. */
  datatype Result<T> = Ok(value: T) | Err(error: Error)

  /** The exceptions of the use case, carrying the data their messages are built from. */
  datatype Error =
    | ArticleNotFound(missingId: int)                       // the stock service knows no such article
    | TheItemIsNotAvailable(name: Option<string>, nextSupply: int)
    | CategoryLimit(categoryName: string)
    | TheArticleNotExist
    | PaginationNotAllowed
    | NoDataFound
    | MissingCartLine(articleId: int)                       // unboxing the null of getQuantityFromItem
    | ServiceFailure                                        // a collaborator threw during checkout
    | PurchaseFailure

  datatype Category = Category(id: int, name: string)

  /** Snapshot of an article in the stock service; prices are whole cents. */
  datatype Article = Article(id: int, name: Option<string>, price: int, quantity: int,
                             categories: seq<Category>)

  datatype ArticlePrice = ArticlePrice(id: int, price: int)

  /** One persisted cart line (CartSave); dates are abstract timestamps. */
  datatype CartLine = CartLine(email: string, articleId: int, quantity: int,
                               createDate: int, updateDate: int)

  /** One line of the cart view; `message` holds the next supply date when stock is short. */
  datatype CartDetail = CartDetail(name: Option<string>, unitPrice: int, quantityRequest: int,
                                   quantityAvailable: int, subPrice: int, message: Option<int>)

  datatype CartDetailResponse = CartDetailResponse(cartDetail: seq<CartDetail>, totalPrice: int)

  /** One sale sent to the transaction ledger. */
  datatype TransactionRequest = TransactionRequest(articleId: int, quantity: int, email: string,
                                                   buyDate: int)

  /** A failure of a collaborator during checkout that the use case cannot see coming. */
  datatype Fault = NoFault | CartReadFails | StockFails | SaveBuyFails | PurgeFails
}
