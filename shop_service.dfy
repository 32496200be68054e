/**
 * The request and reply shaping of services/shopService.js. The HTTP
 * exchange itself is a parameter: either the response body the backend
 * sent, or the failure axios reports.
 */
module ShopService {
  import opened Js
  import opened Text
  import opened Sessions
  import opened Keyboards

  // ---------------------------------------------------------------------
  // What a request can come back with
  // ---------------------------------------------------------------------

  /** The body of an error response: none, a string, or an object that may
      carry a `message`. */
  datatype ErrorData = NoData | TextData(text: string) | ObjectData(message: Option<string>)

  datatype ErrorResponse = ErrorResponse(status: int, data: ErrorData)

  /** A rejected request: the network error `code` (`""` when there is none),
      the server's response if one arrived, and the error's own message. */
  datatype HttpError = HttpError(code: string, response: Option<ErrorResponse>, message: string)

  datatype HttpResult<T> = Response(body: T) | Failure(error: HttpError)

  /** `error.response?.data?.message`, when truthy. */
  function ResponseMessage(e: HttpError): (m: Option<string>)
    ensures m.Some? ==> m.value != []
  {
    if e.response.Some? && e.response.value.data.ObjectData? && TruthyOpt(e.response.value.data.message)
    then e.response.value.data.message
    else None
  }

  /** `error.response?.status`. */
  function StatusCode(e: HttpError): Option<int> {
    if e.response.Some? then Some(e.response.value.status) else None
  }

  // ---------------------------------------------------------------------
  // getCategories
  // ---------------------------------------------------------------------

  datatype CategoriesResult = CategoriesResult(
    success: bool,
    categories: Option<seq<Category>>,
    error: Option<string>,
    statusCode: Option<int>)

  /** The `bases` of the response (possibly absent), or an error envelope
      with an empty list. */
  function GetCategories(reply: HttpResult<Option<seq<Category>>>): (r: CategoriesResult)
    ensures r.success <==> reply.Response?
    ensures reply.Response? ==> r.categories == reply.body && r.error.None?
    ensures reply.Failure? ==>
              && r.categories == Some([])
              && r.error == Some(ResponseMessage(reply.error).GetOr("Failed to get categories"))
              && r.statusCode == StatusCode(reply.error)
  {
    match reply
    case Response(bases) => CategoriesResult(true, bases, None, None)
    case Failure(e) =>
      CategoriesResult(false, Some([]), Some(ResponseMessage(e).GetOr("Failed to get categories")), StatusCode(e))
  }

  // ---------------------------------------------------------------------
  // getProducts
  // ---------------------------------------------------------------------

  /** The value of a filter key that is copied only when truthy. */
  function TruthyField(value: Option<string>): Option<string> {
    if TruthyOpt(value) then value else None
  }

  /** The query parameters of a product search, one optional field per
      parameter (`None` for a parameter that is not sent). */
  datatype ProductQuery = ProductQuery(
    username: string,
    base: Option<string>,
    city: Option<string>,
    country: Option<string>,
    zip: Option<string>,
    state: Option<string>,
    cs: Option<string>,
    name: Option<string>,
    isBot: Option<string>,
    dob: Option<string>,
    dobMax: Option<string>)

  /** Both year bounds are truthy numbers. */
  predicate HasYears(filters: Filters) {
    filters.yearFrom.Some? && filters.yearFrom.value.Truthy() && filters.yearTo.Some? && filters.yearTo.value.Truthy()
  }

  /** The query parameters of `getProducts`, filled field by field: the user
      and the bot marker always, each text filter only when truthy, and the
      birth-year bounds only when both are truthy. */
  method BuildProductQuery(username: string, filters: Filters) returns (query: ProductQuery)
    ensures query.username == username && query.isBot == Some("yes")
    ensures query.base == TruthyField(filters.base)
    ensures query.city == TruthyField(filters.city)
    ensures query.country == TruthyField(filters.country)
    ensures query.zip == TruthyField(filters.zip)
    ensures query.state == TruthyField(filters.state)
    ensures query.cs == TruthyField(filters.cs)
    ensures query.name == TruthyField(filters.name)
    ensures query.dob == if HasYears(filters) then Some(IntToString(filters.yearFrom.value.value)) else None
    ensures query.dobMax == if HasYears(filters) then Some(IntToString(filters.yearTo.value.value)) else None
  {
    var base, city, country, zip, state, cs, name: Option<string> := None, None, None, None, None, None, None;
    if TruthyOpt(filters.base) { base := filters.base; }
    if TruthyOpt(filters.city) { city := filters.city; }
    if TruthyOpt(filters.country) { country := filters.country; }
    if TruthyOpt(filters.zip) { zip := filters.zip; }
    if TruthyOpt(filters.state) { state := filters.state; }
    if TruthyOpt(filters.cs) { cs := filters.cs; }
    if TruthyOpt(filters.name) { name := filters.name; }
    var dob, dobMax: Option<string> := None, None;
    if HasYears(filters) {
      dob := Some(IntToString(filters.yearFrom.value.value));
      dobMax := Some(IntToString(filters.yearTo.value.value));
    }
    query := ProductQuery(username, base, city, country, zip, state, cs, name, Some("yes"), dob, dobMax);
  }

  /** The body of a product search reply. */
  datatype ProductsData = ProductsData(count: Option<int>, products: Option<seq<Product>>, data: Option<seq<Product>>)

  datatype ProductsResult = ProductsResult(
    success: bool,
    availableQuantity: int,
    products: seq<Product>,
    error: Option<string>,
    statusCode: Option<int>)

  /** The reply envelope: the count (falsy counts become 0) and the product
      list from `products`, else `data`, else empty. A failure always
      reports zero products. */
  function GetProducts(reply: HttpResult<ProductsData>): (r: ProductsResult)
    ensures r.success <==> reply.Response?
    ensures reply.Response? ==>
              && r.availableQuantity == reply.body.count.GetOr(0)
              && r.products == (if reply.body.products.Some? then reply.body.products.value else reply.body.data.GetOr([]))
    ensures !r.success ==>
              && r.availableQuantity == 0 && r.products == []
              && r.error == Some(ResponseMessage(reply.error).GetOr("Failed to get products"))
              && r.statusCode == StatusCode(reply.error)
  {
    match reply
    case Response(d) =>
      var available := if d.count.Some? && d.count.value != 0 then d.count.value else 0;
      var products := if d.products.Some? then d.products.value else if d.data.Some? then d.data.value else [];
      ProductsResult(true, available, products, None, None)
    case Failure(e) =>
      ProductsResult(false, 0, [], Some(ResponseMessage(e).GetOr("Failed to get products")), StatusCode(e))
  }

  // ---------------------------------------------------------------------
  // checkout
  // ---------------------------------------------------------------------

  /** The POST body: the user, the number of records, and the filters unchanged. */
  datatype CheckoutBody = CheckoutBody(username: string, number: IntOrNaN, filters: Filters)

  /** The fields of a checkout reply (`""` stands for a falsy string). */
  datatype CheckoutData = CheckoutData(message: string, filename: string, path: string, size: int)

  /** `message` is `None` when the reply had none and the default summary is shown. */
  datatype CheckoutResult = CheckoutResult(
    success: bool,
    fileName: string,
    fileSize: int,
    downloadUrl: string,
    message: Option<string>,
    error: string,
    statusCode: Option<int>)

  const MISSING_FILE: string := "Invalid response: missing filename or path"

  /** The error text of a failed checkout, by priority: connection failure,
      404, the server's message, the server's string body (any other body
      reads "Server error"), the error's own message, "Checkout failed". */
  function CheckoutErrorMessage(e: HttpError): (m: string)
    ensures m != []
    ensures e.code == "ENOTFOUND" || e.code == "ECONNREFUSED" ==> m == "Unable to connect to server"
    ensures e.code != "ENOTFOUND" && e.code != "ECONNREFUSED" && e.response.None? ==>
              m == (if e.message != [] then e.message else "Checkout failed")
  {
    if e.code == "ENOTFOUND" || e.code == "ECONNREFUSED" then "Unable to connect to server"
    else if e.response.Some? && e.response.value.status == 404 then "File not found or checkout endpoint not available"
    else if ResponseMessage(e).Some? then ResponseMessage(e).value
    else if e.response.Some? && (e.response.value.data.ObjectData? || (e.response.value.data.TextData? && e.response.value.data.text != [])) then
      if e.response.value.data.TextData? then e.response.value.data.text else "Server error"
    else if e.message != [] then e.message
    else "Checkout failed"
  }

  /** The server's answer decides the message only once the connection
      error and 404 cases are excluded; a 404 hides any message it carries. */
  lemma CheckoutErrorPriority(e: HttpError)
    ensures e.code != "ENOTFOUND" && e.code != "ECONNREFUSED" && e.response.Some? && e.response.value.status == 404 ==>
              CheckoutErrorMessage(e) == "File not found or checkout endpoint not available"
    ensures e.code != "ENOTFOUND" && e.code != "ECONNREFUSED" && e.response.Some? && e.response.value.status != 404 ==>
              CheckoutErrorMessage(e) ==
                match e.response.value.data
                case ObjectData(msg) => if TruthyOpt(msg) then msg.value else "Server error"
                case TextData(s) => if s != [] then s else if e.message != [] then e.message else "Checkout failed"
                case NoData => if e.message != [] then e.message else "Checkout failed"
  {
  }

  /** The reply of a checkout: success needs both a file name and a path, and
      the download address is the path itself; anything else fails with the
      classified error. */
  function Checkout(reply: HttpResult<CheckoutData>): (r: CheckoutResult)
    ensures r.success <==> reply.Response? && reply.body.filename != [] && reply.body.path != []
    ensures r.success ==> r.downloadUrl == reply.body.path && r.fileName == reply.body.filename
    ensures reply.Response? && !r.success ==> r.error == MISSING_FILE && r.statusCode.None?
    ensures reply.Failure? ==> r.error == CheckoutErrorMessage(reply.error) && r.statusCode == StatusCode(reply.error)
  {
    match reply
    case Response(d) =>
      if d.filename == [] || d.path == [] then
        CheckoutResult(false, "", 0, "", None, CheckoutErrorMessage(HttpError("", None, MISSING_FILE)), None)
      else
        CheckoutResult(true, d.filename, d.size, d.path, if d.message != [] then Some(d.message) else None, "", None)
    case Failure(e) =>
      CheckoutResult(false, "", 0, "", None, CheckoutErrorMessage(e), StatusCode(e))
  }
}
