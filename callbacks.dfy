/**
 * The button-tap handler of handlers/callbacks.js. A tap passes the tap
 * rate limit, then the per-tap lock in the shared pending set, is decoded
 * into a trigger, and the trigger's step reads and rewrites the session.
 *
 * The step of each trigger is a function of the tap, the session read for
 * it and the backend replies (passed in, one per backend call the step may
 * make). It returns the requests made, the session write, and the screens
 * shown in order. The handler method threads the three shared objects: the
 * rate limiter, the message handler's pending set and the session store.
 */
module Callbacks {
  import opened Js
  import opened Text
  import opened Sessions
  import opened Keyboards
  import opened ShopService
  import opened RateLimiting
  import opened SharedState
  import opened MessageHandling
  import opened CallbackData

  // ---------------------------------------------------------------------
  // Backend replies given to the handler
  // ---------------------------------------------------------------------

  /** A wallet transaction, with its date already rendered. */
  datatype Tx = Tx(status: string, priceAmount: string, payCurrency: string, date: string)

  /** The envelope of `getUserWallet` (a missing list reads as empty). */
  datatype WalletReply = WalletFailed(error: string) | WalletOk(balance: string, transactions: seq<Tx>)

  /** The envelope of `getCurrencies`. */
  datatype CurrenciesReply = CurrenciesFailed(error: string) | CurrenciesOk(currencies: CurrencyPayload)

  /** The payment fields of a created deposit, as rendered text. */
  datatype Payment = Payment(priceAmount: string, payCurrency: string, network: string, orderId: string,
                             payAddress: string, payAmount: string)

  /** The envelope of `createDeposit`. */
  datatype DepositReply = DepositFailed(error: string) | DepositCreated(payment: Payment, transactionId: string, status: string)

  datatype Replies = Replies(
    categories: HttpResult<Option<seq<Category>>>,
    products: HttpResult<ProductsData>,
    checkout: HttpResult<CheckoutData>,
    wallet: WalletReply,
    currencies: CurrenciesReply,
    deposit: DepositReply)

  // ---------------------------------------------------------------------
  // What a step does
  // ---------------------------------------------------------------------

  /** A backend call, with the arguments the step passes. */
  datatype Request =
    | CategoriesRequest
    | ProductsRequest(username: string, filters: Filters)
    | CheckoutRequest(body: CheckoutBody)
    | WalletRequest(username: string)
    | CurrenciesRequest
    | DepositRequest(amount: Option<string>, code: string, username: string, description: string)

  /** The session write of a step. */
  datatype Write = Keep | Replace(session: Session) | Clear

  /** What is shown: through `safeEditMessage`, `showError`, `showLoading`,
      `goToMainMenu`, the fixed pages, or a callback answer with text. */
  datatype Screen =
    | EditScreen(text: string, options: Options)
    | ErrorScreen(text: string, backButton: string)
    | LoadingScreen(text: string)
    | MainMenuScreen
    | HelpScreen(username: string)
    | HowItWorksScreen
    | YearFilterScreen(selected: string, baseId: string)
    | StateFilterScreen
    | PurchaseScreen(result: CheckoutResult)
    | AnswerText(text: string)

  datatype StepResult = StepResult(requests: seq<Request>, write: Write, screens: seq<Screen>)

  const SHOP_ONLY: Markup := Markup([[CallbackButton("🛍️ Back to Shop", "shop")]])
  const SESSION_EXPIRED: string := "❌ Session expired. Please start again."
  const NO_USERNAME: string := "❌ Please create a Telegram username first!"
  const SOMETHING_WRONG: string := "❌ Something went wrong. Please try again."

  // The texts of the screens, as handlers/callbacks.js writes them.
  const CATEGORY_NOT_FOUND: string := "❌ Category not found. Please try again."
  const TRY_OTHER_CATEGORY: string := "🔄 Try Different Category"
  const MAIN_MENU_LABEL: string := "🏠 Main Menu"
  const CHECK_WALLET_LABEL: string := "💰 Check Wallet"
  const BACK_TO_SHOP_LABEL: string := "🛍️ Back to Shop"
  const SEARCHING: string := "⏳ Searching for products..."
  const PRODUCTS_ERROR: string := "❌ **Unable to get products**\n\nError: "
  const NO_PRODUCTS: string := "📭 **No Products Available**\n\nNo products found with your current filters."
  const PRODUCTS_FOUND: string := "📦 **Products Found**\n\n**Available Quantity:** "
  const TYPE_QUANTITY: string := "\n\nPlease type the quantity you want to purchase (1-"
  const PROCESSING_ORDER: string := "⏳ Processing your order..."
  const PURCHASE_FAILED: string := "❌ **Purchase Failed**\n\nError: "
  const WALLET_HEADER: string := "💰 **Your Wallet**\n\n💵 **Balance:** "
  const LOADING_WALLET: string := "⏳ Loading wallet..."
  const WALLET_ERROR: string := "❌ Unable to get wallet information.\n\nError: "
  const LOADING_SHOP: string := "⏳ Loading shop categories..."
  const SHOP_ERROR: string := "❌ **Unable to load shop categories**\n\nError: "
  const SHOP_BROKEN: string := "❌ Something went wrong loading the shop. Please try again."
  const SHOP_TITLE: string := "🛍️ **Shop Categories**\n\nSelect a category (base and price):"
  const LOADING_CURRENCIES: string := "⏳ Loading available cryptocurrencies..."
  const CURRENCIES_ERROR: string := "❌ **Unable to load cryptocurrencies**\n\nError: "
  const DEPOSIT_BROKEN: string := "❌ Something went wrong loading deposit options. Please try again."
  const DEPOSIT_TITLE: string := "💳 **Deposit Funds**\n\nSelect cryptocurrency:"
  const CRYPTO_TITLE: string := "💰 **Deposit with "
  const SELECT_AMOUNT: string := "**\n\nSelect amount:"
  const CREATING_DEPOSIT: string := "⏳ Creating deposit..."
  const DEPOSIT_FAILED: string := "❌ **Deposit Failed**\n\nError: "
  const DEPOSIT_DESCRIPTION: string := "Deposit via Telegram Bot - $"
  const PAYMENT_TITLE: string := "💰 **Deposit Created Successfully**\n\n"
  const PAYMENT_USD: string := "**USD Amount:** $"
  const PAYMENT_CRYPTO: string := "**Cryptocurrency:** "
  const PAYMENT_NETWORK: string := "**Network:** "
  const PAYMENT_STATUS: string := "**Status:** "
  const PAYMENT_ORDER: string := "**Order ID:** "
  const PAYMENT_TRANSACTION: string := "**Transaction ID:** "
  const PAYMENT_ADDRESS: string := "📍 **Payment Address:**\n`"
  const PAYMENT_AMOUNT: string := "💎 **Amount to Send:**\n`"
  const PAYMENT_IMPORTANT: string := "⚠️ **Important:**\n• Send exactly **"
  const PAYMENT_TO_ADDRESS: string := "** to the address above\n"
  const PAYMENT_NOTES: string := "• Your deposit will be credited automatically once confirmed\n• Do not send from an exchange, use a personal wallet"
  const COMING_SOON: string := "Feature coming soon!"

  /** `sendSessionExpiredMessage`: no request, no write. */
  const EXPIRED: StepResult := StepResult([], Keep, [EditScreen(SESSION_EXPIRED, Options(None, Some(SHOP_ONLY)))])

  const NO_USERNAME_STEP: StepResult := StepResult([], Keep, [ErrorScreen(NO_USERNAME, "main_menu")])

  // ---------------------------------------------------------------------
  // Category, year and state selection
  // ---------------------------------------------------------------------

  /** The category at index `index`, when the number names one. */
  predicate ValidIndex(index: IntOrNaN, categories: seq<Category>) {
    index.Int? && 0 <= index.value < |categories|
  }

  /** `category_i`: the categories are fetched again. A failed fetch or an
      index that names no category shows "not found", and a successful reply
      without a list fails in the lookup; only a listed category replaces the
      session, with the category's id and the index. */
  function CategoryStep(index: IntOrNaN, reply: HttpResult<Option<seq<Category>>>): (s: StepResult)
    ensures s.requests == [CategoriesRequest]
    ensures s.write != Keep <==> reply.Response? && reply.body.Some? && ValidIndex(index, reply.body.value)
    ensures s.write != Keep ==>
              var c := reply.body.value[index.value];
              && s.write == Replace(Session(Some(SelectingYear), Some(c.id), Some(index.value), None, None, None, None))
              && s.screens == [YearFilterScreen(c.base, c.id)]
    ensures reply.Response? && reply.body.None? ==> s.screens == [ErrorScreen(SOMETHING_WRONG, "shop")]
  {
    var result := GetCategories(reply);
    var notFound := [EditScreen(CATEGORY_NOT_FOUND, Options(None, Some(SHOP_ONLY)))];
    if !result.success then StepResult([CategoriesRequest], Keep, notFound)
    else if result.categories.None? then StepResult([CategoriesRequest], Keep, [ErrorScreen(SOMETHING_WRONG, "shop")])
    else if !ValidIndex(index, result.categories.value) then StepResult([CategoriesRequest], Keep, notFound)
    else
      var c := result.categories.value[index.value];
      StepResult([CategoriesRequest],
                 Replace(Session(Some(SelectingYear), Some(c.id), Some(index.value), None, None, None, None)),
                 [YearFilterScreen(c.base, c.id)])
  }

  /** `year_range_Y_E` (with its two parsed years) and `skip_year` (with
      `None`): a session with a truthy `baseId` is replaced by the state
      step with the base and, for a range, both years; anything else is
      an expired session. */
  function YearStep(session: Option<Session>, range: Option<(IntOrNaN, IntOrNaN)>): (s: StepResult)
    ensures s.requests == []
    ensures s.write != Keep <==> session.Some? && TruthyOpt(session.value.baseId)
    ensures s.write == Keep ==> s == EXPIRED
    ensures s.write != Keep ==>
              var base := session.value.baseId.value;
              var filters := if range.Some? then YearFilters(base, range.value.0, range.value.1) else BaseFilters(base);
              && s.write == Replace(Session(Some(SelectingState), Some(base), None, Some(filters), None, None, None))
              && s.screens == [StateFilterScreen]
  {
    if session.None? || !TruthyOpt(session.value.baseId) then EXPIRED
    else
      var base := session.value.baseId.value;
      var filters := if range.Some? then YearFilters(base, range.value.0, range.value.1) else BaseFilters(base);
      StepResult([], Replace(Session(Some(SelectingState), Some(base), None, Some(filters), None, None, None)), [StateFilterScreen])
  }

  const NO_PRODUCTS_MARKUP: Markup := Markup([
    [CallbackButton(TRY_OTHER_CATEGORY, "shop")],
    [CallbackButton(MAIN_MENU_LABEL, "main_menu")]])

  function ProductsFoundText(available: int): string {
    PRODUCTS_FOUND + IntToString(available)
    + TYPE_QUANTITY + IntToString(available) + "):"
  }

  /** `handleProductSearch`: a loading screen, then the search. A failed
      search or a count of zero shows a notice and keeps the session; any
      other count replaces it with the quantity step, the filters and the count. */
  function ProductSearch(username: string, filters: Filters, reply: HttpResult<ProductsData>): (s: StepResult)
    ensures s.requests == [ProductsRequest(username, filters)]
    ensures |s.screens| == 2 && s.screens[0] == LoadingScreen(SEARCHING)
    ensures s.write != Keep <==> GetProducts(reply).success && GetProducts(reply).availableQuantity != 0
    ensures s.write != Keep ==>
              var n := GetProducts(reply).availableQuantity;
              && s.write == Replace(Session(Some(EnteringQuantity), None, None, Some(filters), Some(n), None, None))
              && s.screens[1] == EditScreen(ProductsFoundText(n), Markdown(Some(QuantityKeyboard(n))))
    ensures !GetProducts(reply).success ==>
              s.screens[1] == EditScreen(PRODUCTS_ERROR + GetProducts(reply).error.value, Markdown(Some(SHOP_ONLY)))
    ensures GetProducts(reply).success && GetProducts(reply).availableQuantity == 0 ==>
              s.screens[1] == EditScreen(NO_PRODUCTS, Markdown(Some(NO_PRODUCTS_MARKUP)))
  {
    var result := GetProducts(reply);
    var requests := [ProductsRequest(username, filters)];
    var loading := LoadingScreen(SEARCHING);
    if !result.success then
      StepResult(requests, Keep, [loading, EditScreen(PRODUCTS_ERROR + result.error.value, Markdown(Some(SHOP_ONLY)))])
    else if result.availableQuantity == 0 then
      StepResult(requests, Keep, [loading, EditScreen(NO_PRODUCTS, Markdown(Some(NO_PRODUCTS_MARKUP)))])
    else
      var n := result.availableQuantity;
      StepResult(requests, Replace(Session(Some(EnteringQuantity), None, None, Some(filters), Some(n), None, None)),
                 [loading, EditScreen(ProductsFoundText(n), Markdown(Some(QuantityKeyboard(n))))])
  }

  // ---------------------------------------------------------------------
  // Checkout
  // ---------------------------------------------------------------------

  const CHECKOUT_MARKUP: Markup := Markup([
    [CallbackButton(CHECK_WALLET_LABEL, "wallet")],
    [CallbackButton(BACK_TO_SHOP_LABEL, "shop")],
    [CallbackButton(MAIN_MENU_LABEL, "main_menu")]])

  /** `handleCheckout`: a loading screen, then the checkout with exactly the
      user, the quantity and the session's filters. Only a successful
      checkout clears the session. */
  function CheckoutStep(username: string, quantity: IntOrNaN, filters: Filters, reply: HttpResult<CheckoutData>): (s: StepResult)
    ensures s.requests == [CheckoutRequest(CheckoutBody(username, quantity, filters))]
    ensures |s.screens| == 2 && s.screens[0] == LoadingScreen(PROCESSING_ORDER)
    ensures s.write != Keep <==> Checkout(reply).success
    ensures s.write != Keep ==> s.write == Clear && s.screens[1] == PurchaseScreen(Checkout(reply))
    ensures s.write == Keep ==>
              s.screens[1] == EditScreen(PURCHASE_FAILED + Checkout(reply).error, Markdown(Some(CHECKOUT_MARKUP)))
  {
    var result := Checkout(reply);
    var requests := [CheckoutRequest(CheckoutBody(username, quantity, filters))];
    var loading := LoadingScreen(PROCESSING_ORDER);
    if !result.success then
      StepResult(requests, Keep, [loading, EditScreen(PURCHASE_FAILED + result.error, Markdown(Some(CHECKOUT_MARKUP)))])
    else StepResult(requests, Clear, [loading, PurchaseScreen(result)])
  }

  // ---------------------------------------------------------------------
  // Wallet
  // ---------------------------------------------------------------------

  const TX_TITLE: string := "📊 **Recent Transactions:**"
  const TX_HEADER: string := "\n\n" + TX_TITLE + "\n"
  const TX_SHOWN: nat := 5

  function StatusEmoji(status: string): string {
    if status == "waiting" then "⏳" else if status == "completed" then "✅" else "❌"
  }

  /** The line of the transaction at position `index` (numbered from 1). */
  function TransactionLine(index: nat, tx: Tx): string {
    IntToString(index + 1) + ". " + StatusEmoji(tx.status) + " " + tx.priceAmount + " "
    + ToUpper(tx.payCurrency) + " - " + tx.date + "\n"
  }

  /** The lines of `txs`, numbered in order. */
  function TransactionLines(txs: seq<Tx>): string
    decreases |txs|
  {
    if txs == [] then "" else TransactionLines(txs[..|txs| - 1]) + TransactionLine(|txs| - 1, txs[|txs| - 1])
  }

  /** The count of the transactions not listed. */
  function MoreCount(total: int): string {
    "... and " + IntToString(total - TX_SHOWN) + " more"
  }

  function MoreText(total: int): string {
    "\n" + MoreCount(total)
  }

  /** The transaction part of the wallet text: the first five transactions,
      and a count of the rest when there are more. */
  function TransactionText(txs: seq<Tx>): string {
    if txs == [] then "\n\n"
    else TX_HEADER + TransactionLines(txs[..Min(|txs|, TX_SHOWN)]) + (if |txs| > TX_SHOWN then MoreText(|txs|) else "")
  }

  function WalletText(balance: string, txs: seq<Tx>): string {
    WALLET_HEADER + balance + TransactionText(txs)
  }

  lemma LinesSnoc(txs: seq<Tx>, i: nat)
    requires i < |txs|
    ensures TransactionLines(txs[..i + 1]) == TransactionLines(txs[..i]) + TransactionLine(i, txs[i])
  {
    assert txs[..i + 1][..i] == txs[..i];
  }

  /** Appending the next line extends the listed prefix by one. */
  lemma AppendLine(head: string, text: string, shown: seq<Tx>, i: nat)
    requires i < |shown| && text == head + TransactionLines(shown[..i])
    ensures text + TransactionLine(i, shown[i]) == head + TransactionLines(shown[..i + 1])
  {
    LinesSnoc(shown, i);
    ConcatAssoc(head, TransactionLines(shown[..i]), TransactionLine(i, shown[i]));
  }

  /** The `forEach` that appends one line per shown transaction. */
  method BuildTransactionText(txs: seq<Tx>) returns (text: string)
    ensures text == TransactionText(txs)
  {
    if |txs| == 0 {
      return "\n\n";
    }
    text := TX_HEADER;
    var shown := txs[..Min(|txs|, TX_SHOWN)];
    var i := 0;
    while i < |shown|
      invariant 0 <= i <= |shown|
      invariant text == TX_HEADER + TransactionLines(shown[..i])
    {
      AppendLine(TX_HEADER, text, shown, i);
      text := text + TransactionLine(i, shown[i]);
      i := i + 1;
    }
    assert shown[..i] == shown;
    if |txs| > TX_SHOWN {
      text := text + MoreText(|txs|);
    }
  }

  /** A line is free of further line breaks when its fields are. */
  predicate OneLine(tx: Tx) {
    '\n' !in tx.status && '\n' !in tx.priceAmount && '\n' !in tx.payCurrency && '\n' !in tx.date
  }

  lemma UpperKeepsLineBreaks(s: string)
    requires '\n' !in s
    ensures '\n' !in ToUpper(s)
  {
    var u := ToUpper(s);
    forall i | 0 <= i < |u| ensures u[i] != '\n' {
      assert u[i] == UpperChar(s[i]);
    }
  }

  lemma TransactionLineBreaks(index: nat, tx: Tx)
    requires OneLine(tx)
    ensures Count(TransactionLine(index, tx), '\n') == 1
  {
    var a := IntToString(index + 1) + ". " + StatusEmoji(tx.status) + " " + tx.priceAmount + " " + ToUpper(tx.payCurrency) + " - " + tx.date;
    UpperKeepsLineBreaks(tx.payCurrency);
    IntToStringOmits(index + 1, '_');
    assert '\n' !in a;
    CountConcat(a, "\n", '\n');
  }

  /** One line break per listed transaction. */
  lemma {:induction false} TransactionLinesBreaks(txs: seq<Tx>)
    requires forall i :: 0 <= i < |txs| ==> OneLine(txs[i])
    ensures Count(TransactionLines(txs), '\n') == |txs|
    decreases |txs|
  {
    if txs != [] {
      var init := txs[..|txs| - 1];
      TransactionLinesBreaks(init);
      TransactionLineBreaks(|txs| - 1, txs[|txs| - 1]);
      CountConcat(TransactionLines(init), TransactionLine(|txs| - 1, txs[|txs| - 1]), '\n');
    }
  }

  /** Two line breaks, a line without one, and a closing line break. */
  lemma FramedLineBreaks(line: string)
    requires '\n' !in line
    ensures Count("\n\n" + line + "\n", '\n') == 3
  {
    assert Count("\n\n", '\n') == 2;
    CountConcat("\n\n", line, '\n');
    CountConcat("\n\n" + line, "\n", '\n');
  }

  lemma HeaderBreaks()
    ensures Count(TX_HEADER, '\n') == 3
  {
    assert '\n' !in TX_TITLE;
    FramedLineBreaks(TX_TITLE);
  }

  lemma MoreBreaks(total: int)
    ensures Count(MoreText(total), '\n') == 1
  {
    IntToStringOmits(total - TX_SHOWN, '\n');
    var digits := IntToString(total - TX_SHOWN);
    assert '\n' !in "... and " && '\n' !in " more";
    CountConcat("... and ", digits, '\n');
    CountConcat("... and " + digits, " more", '\n');
    CountConcat("\n", MoreCount(total), '\n');
  }

  /** At most five transactions are listed, one line each: the text has one
      line break per listed transaction beyond the three of the header and
      one more before the count of the rest. */
  lemma ListedTransactions(txs: seq<Tx>)
    requires forall i :: 0 <= i < |txs| ==> OneLine(txs[i])
    ensures txs != [] ==>
              Count(TransactionText(txs), '\n') == 3 + Min(|txs|, TX_SHOWN) + (if |txs| > TX_SHOWN then 1 else 0)
  {
    if txs != [] {
      var shown := txs[..Min(|txs|, TX_SHOWN)];
      TransactionLinesBreaks(shown);
      HeaderBreaks();
      var more := if |txs| > TX_SHOWN then MoreText(|txs|) else "";
      if |txs| > TX_SHOWN {
        MoreBreaks(|txs|);
      }
      CountConcat(TX_HEADER, TransactionLines(shown), '\n');
      CountConcat(TX_HEADER + TransactionLines(shown), more, '\n');
    }
  }

  lemma EndsWithAppended(a: string, b: string)
    ensures EndsWith(a + b, b)
  {
    assert (a + b)[|a + b| - |b|..] == b;
  }

  lemma EndsWithTail(s: string, x: string, y: string)
    requires EndsWith(s, x) && EndsWith(x, y)
    ensures EndsWith(s, y)
  {
    assert s[|s| - |y|..] == x[|x| - |y|..];
  }

  /** A text ending in a line break does not end with " more". */
  lemma BreakIsNotMore(s: string)
    requires EndsWith(s, "\n")
    ensures !EndsWith(s, " more")
  {
    assert s[|s| - 1] == '\n';
    assert |s| >= 5 ==> s[|s| - 5..][4] == s[|s| - 1];
  }

  lemma LineEndsWithBreak(index: nat, tx: Tx)
    ensures EndsWith(TransactionLine(index, tx), "\n")
  {
    var line := TransactionLine(index, tx);
    var a := IntToString(index + 1) + ". " + StatusEmoji(tx.status) + " " + tx.priceAmount + " " + ToUpper(tx.payCurrency) + " - " + tx.date;
    assert line == a + "\n";
    EndsWithAppended(a, "\n");
  }

  lemma MoreEndsWithMore(total: int)
    ensures EndsWith(MoreText(total), " more")
  {
    var a := "\n" + "... and " + IntToString(total - TX_SHOWN);
    assert MoreText(total) == a + " more";
    EndsWithAppended(a, " more");
  }

  lemma ManyEndWithMore(txs: seq<Tx>)
    requires |txs| > TX_SHOWN
    ensures EndsWith(TransactionText(txs), MoreText(|txs|)) && EndsWith(TransactionText(txs), " more")
  {
    var m := MoreText(|txs|);
    EndsWithAppended(TX_HEADER + TransactionLines(txs[..TX_SHOWN]), m);
    MoreEndsWithMore(|txs|);
    EndsWithTail(TransactionText(txs), m, " more");
  }

  lemma FewEndWithBreak(txs: seq<Tx>)
    requires |txs| <= TX_SHOWN
    ensures EndsWith(TransactionText(txs), "\n") && !EndsWith(TransactionText(txs), " more")
  {
    var t := TransactionText(txs);
    if txs != [] {
      var shown := txs[..|txs|];
      var line := TransactionLine(|shown| - 1, shown[|shown| - 1]);
      var init := TX_HEADER + TransactionLines(shown[..|shown| - 1]);
      assert t == init + line;
      EndsWithAppended(init, line);
      LineEndsWithBreak(|shown| - 1, shown[|shown| - 1]);
      EndsWithTail(t, line, "\n");
    } else {
      EndsWithAppended("\n", "\n");
    }
    BreakIsNotMore(t);
  }

  /** The text ends with "… and N more", N the number not listed, exactly
      when there are more than five; otherwise it ends with a line break. */
  lemma MoreTransactions(txs: seq<Tx>)
    ensures |txs| > TX_SHOWN ==> EndsWith(TransactionText(txs), MoreText(|txs|))
    ensures |txs| <= TX_SHOWN ==> EndsWith(TransactionText(txs), "\n")
    ensures EndsWith(TransactionText(txs), " more") <==> |txs| > TX_SHOWN
  {
    if |txs| > TX_SHOWN {
      ManyEndWithMore(txs);
    } else {
      FewEndWithBreak(txs);
    }
  }

  /** `wallet`: a user without a username is told to create one; otherwise
      a loading screen, then the wallet or its error. */
  function WalletStep(username: string, reply: WalletReply): (s: StepResult)
    ensures s.write == Keep
    ensures username == "" ==> s == NO_USERNAME_STEP
    ensures username != "" ==> s.requests == [WalletRequest(username)] && |s.screens| == 2 && s.screens[0] == LoadingScreen(LOADING_WALLET)
    ensures username != "" && reply.WalletOk? ==>
              s.screens == [LoadingScreen(LOADING_WALLET), EditScreen(WalletText(reply.balance, reply.transactions), Markdown(Some(BACK_TO_MAIN)))]
    ensures username != "" && reply.WalletFailed? ==>
              s.screens == [LoadingScreen(LOADING_WALLET), ErrorScreen(WALLET_ERROR + reply.error, "main_menu")]
  {
    if username == "" then NO_USERNAME_STEP
    else
      var loading := LoadingScreen(LOADING_WALLET);
      match reply
      case WalletFailed(error) =>
        StepResult([WalletRequest(username)], Keep, [loading, ErrorScreen(WALLET_ERROR + error, "main_menu")])
      case WalletOk(balance, txs) =>
        StepResult([WalletRequest(username)], Keep, [loading, EditScreen(WalletText(balance, txs), Markdown(Some(BACK_TO_MAIN)))])
  }

  // ---------------------------------------------------------------------
  // Shop, deposit, crypto and amount
  // ---------------------------------------------------------------------

  /** `shop`: the category keyboard after the repair pass. */
  function ShopStep(username: string, reply: HttpResult<Option<seq<Category>>>): (s: StepResult)
    ensures s.write == Keep
    ensures username == "" ==> s == NO_USERNAME_STEP
    ensures username != "" ==> s.requests == [CategoriesRequest] && |s.screens| == 2
  {
    if username == "" then NO_USERNAME_STEP
    else
      var loading := LoadingScreen(LOADING_SHOP);
      var result := GetCategories(reply);
      if !result.success then
        StepResult([CategoriesRequest], Keep, [loading, ErrorScreen(SHOP_ERROR + result.error.value, "main_menu")])
      else
        match FixMarkup(CategoriesKeyboard(result.categories))
        case None =>
          StepResult([CategoriesRequest], Keep, [loading, ErrorScreen(SHOP_BROKEN, "main_menu")])
        case Some(keyboard) =>
          StepResult([CategoriesRequest], Keep, [loading, EditScreen(SHOP_TITLE, Markdown(Some(keyboard)))])
  }

  /** `deposit`: the currency keyboard after the repair pass. */
  function DepositStep(username: string, reply: CurrenciesReply): (s: StepResult)
    ensures s.write == Keep
    ensures username == "" ==> s == NO_USERNAME_STEP
    ensures username != "" ==> s.requests == [CurrenciesRequest] && |s.screens| == 2
  {
    if username == "" then NO_USERNAME_STEP
    else
      var loading := LoadingScreen(LOADING_CURRENCIES);
      match reply
      case CurrenciesFailed(error) =>
        StepResult([CurrenciesRequest], Keep, [loading, ErrorScreen(CURRENCIES_ERROR + error, "main_menu")])
      case CurrenciesOk(payload) =>
        match FixMarkup(CryptoKeyboard(payload))
        case None =>
          StepResult([CurrenciesRequest], Keep, [loading, ErrorScreen(DEPOSIT_BROKEN, "main_menu")])
        case Some(keyboard) =>
          StepResult([CurrenciesRequest], Keep, [loading, EditScreen(DEPOSIT_TITLE, Markdown(Some(keyboard)))])
  }

  /** `crypto_<code>`: the amount keyboard for the code, no request. */
  function CryptoStep(code: string): (s: StepResult)
    ensures s.requests == [] && s.write == Keep && |s.screens| == 1
  {
    match FixMarkup(AmountKeyboard(code))
    case None => StepResult([], Keep, [ErrorScreen(SOMETHING_WRONG, "main_menu")])
    case Some(keyboard) =>
      StepResult([], Keep, [EditScreen(CRYPTO_TITLE + ToUpper(code) + SELECT_AMOUNT, Markdown(Some(keyboard)))])
  }

  const DEPOSIT_CREATED_MARKUP: Markup := Markup([
    [CallbackButton(CHECK_WALLET_LABEL, "wallet")],
    [CallbackButton(MAIN_MENU_LABEL, "main_menu")]])

  function PaymentText(p: Payment, transactionId: string, status: string): string {
    var currency := ToUpper(p.payCurrency);
    PAYMENT_TITLE
    + PAYMENT_USD + p.priceAmount + "\n"
    + PAYMENT_CRYPTO + currency + "\n"
    + PAYMENT_NETWORK + ToUpper(p.network) + "\n"
    + PAYMENT_STATUS + status + "\n"
    + PAYMENT_ORDER + p.orderId + "\n"
    + PAYMENT_TRANSACTION + transactionId + "\n\n"
    + PAYMENT_ADDRESS + p.payAddress + "`\n\n"
    + PAYMENT_AMOUNT + p.payAmount + " " + currency + "`\n\n"
    + PAYMENT_IMPORTANT + p.payAmount + " " + currency + PAYMENT_TO_ADDRESS
    + PAYMENT_NOTES
  }

  /** `processDeposit`: a deposit of the tapped amount in the tapped currency
      for the user (the amount is passed on as text, `undefined` included). */
  function DepositFlow(username: string, amount: Option<string>, code: string, reply: DepositReply): (s: StepResult)
    ensures s.write == Keep
    ensures s.requests == [DepositRequest(amount, code, username, DEPOSIT_DESCRIPTION + amount.GetOr("undefined"))]
    ensures |s.screens| == 2 && s.screens[0] == LoadingScreen(CREATING_DEPOSIT)
  {
    var request := DepositRequest(amount, code, username, DEPOSIT_DESCRIPTION + amount.GetOr("undefined"));
    var loading := LoadingScreen(CREATING_DEPOSIT);
    match reply
    case DepositFailed(error) =>
      StepResult([request], Keep, [loading, EditScreen(DEPOSIT_FAILED + error, Markdown(Some(BACK_TO_MAIN)))])
    case DepositCreated(payment, transactionId, status) =>
      StepResult([request], Keep, [loading, EditScreen(PaymentText(payment, transactionId, status), Markdown(Some(DEPOSIT_CREATED_MARKUP)))])
  }

  // ---------------------------------------------------------------------
  // Dispatch
  // ---------------------------------------------------------------------

  /** The triggers whose branch reads the session before acting. */
  predicate ReadsSession(t: Trigger) {
    t.YearRangeTap? || t.SkipYearTap? || t.StateTap? || t.SkipStateTap? || t.CheckoutTap?
  }

  /** The filters of the session, when there is one with filters. */
  function SessionFilters(session: Option<Session>): Option<Filters> {
    if session.Some? then session.value.filters else None
  }

  /** The step of a decoded tap, given the session read for it. Only the
      category, year, state and checkout taps write the session, only the
      checkout clears it, and the session-reading taps do nothing but show
      the expired notice when the field they need is absent. */
  function TapStep(t: Trigger, username: string, session: Option<Session>, replies: Replies): (s: StepResult)
    ensures s.write != Keep ==> t.CategoryTap? || ReadsSession(t)
    ensures s.write.Clear? ==> t.CheckoutTap?
    ensures (t.StateTap? || t.SkipStateTap? || t.CheckoutTap?) && SessionFilters(session).None? ==> s == EXPIRED
    ensures (t.YearRangeTap? || t.SkipYearTap?) && !(session.Some? && TruthyOpt(session.value.baseId)) ==> s == EXPIRED
  {
    match t
    case MainMenuTap => StepResult([], Keep, [MainMenuScreen])
    case HelpTap => StepResult([], Keep, [HelpScreen(username)])
    case HowItWorksTap => StepResult([], Keep, [HowItWorksScreen])
    case WalletTap => WalletStep(username, replies.wallet)
    case ShopTap => ShopStep(username, replies.categories)
    case DepositTap => DepositStep(username, replies.currencies)
    case CryptoTap(code) => CryptoStep(code)
    case AmountTap(code, amount) => DepositFlow(username, amount, code, replies.deposit)
    case CategoryTap(index) => CategoryStep(index, replies.categories)
    case YearRangeTap(yearFrom, yearTo) => YearStep(session, Some((yearFrom, yearTo)))
    case SkipYearTap => YearStep(session, None)
    case StateTap(state) =>
      var f := SessionFilters(session);
      if f.None? then EXPIRED else ProductSearch(username, WithState(f.value, state), replies.products)
    case SkipStateTap =>
      var f := SessionFilters(session);
      if f.None? then EXPIRED else ProductSearch(username, f.value, replies.products)
    case CheckoutTap(quantity) =>
      var f := SessionFilters(session);
      if f.None? then EXPIRED else CheckoutStep(username, quantity, f.value, replies.checkout)
    case UnknownTap => StepResult([], Keep, [AnswerText(COMING_SOON)])
  }

  /** The session's `step` is never consulted: only the presence of the
      fields each branch needs. */
  lemma StepIsNotConsulted(t: Trigger, username: string, s: Session, step: Option<Step>, replies: Replies)
    ensures TapStep(t, username, Some(s), replies) == TapStep(t, username, Some(s.(step := step)), replies)
  {
  }

  /** What the misread of handlers/callbacks.js:205 does to the conversation:
      tapping the `USDT (TRC20)` button opens the amount keyboard of plain
      `usdt`, whereas the corrected decoder opens the one of `usdt_trc20`. */
  lemma Trc20TapOffersUsdtAmounts(username: string, session: Option<Session>, replies: Replies)
    ensures TapStep(Decode(CryptoData(USDT_TRC20_CODE)), username, session, replies) == CryptoStep("usdt")
    ensures TapStep(DecodeCorrected(CryptoData(USDT_TRC20_CODE)), username, session, replies) == CryptoStep(USDT_TRC20_CODE)
  {
    UsdtTrc20CryptoMisread();
    CryptoDataShort(USDT_TRC20_CODE);
    PrefixOf("crypto_", USDT_TRC20_CODE);
  }

  /** A state tap adds the state to the session's filters and searches with them. */
  lemma StateTapSearches(state: string, username: string, s: Session, replies: Replies)
    requires s.filters.Some?
    ensures TapStep(StateTap(state), username, Some(s), replies) == ProductSearch(username, WithState(s.filters.value, state), replies.products)
    ensures TapStep(StateTap(state), username, Some(s), replies).requests == [ProductsRequest(username, WithState(s.filters.value, state))]
  {
  }

  // ---------------------------------------------------------------------
  // The lock key of a tap
  // ---------------------------------------------------------------------

  /** `${userId}_${data}_${messageId}`. */
  function CallbackKey(userId: int, data: string, messageId: int): string {
    IntToString(userId) + "_" + data + "_" + IntToString(messageId)
  }

  /** A tap's lock key has at least two `_` and an edit's exactly one, so
      holding a tap's key never blocks the edits the tap itself makes. */
  lemma CallbackKeyIsNotEditKey(userId: int, data: string, messageId: int, chatId: int, editedId: int)
    ensures Count(CallbackKey(userId, data, messageId), '_') >= 2
    ensures Count(EditKey(chatId, editedId), '_') == 1
    ensures CallbackKey(userId, data, messageId) != EditKey(chatId, editedId)
  {
    var u, m := IntToString(userId), IntToString(messageId);
    IntToStringOmits(userId, '_');
    IntToStringOmits(messageId, '_');
    IntToStringOmits(chatId, '_');
    IntToStringOmits(editedId, '_');
    CountConcat(u, "_", '_');
    CountConcat(u + "_", data, '_');
    CountConcat(u + "_" + data, "_", '_');
    CountConcat(u + "_" + data + "_", m, '_');
    CountConcat(IntToString(chatId), "_", '_');
    CountConcat(IntToString(chatId) + "_", IntToString(editedId), '_');
  }

  // ---------------------------------------------------------------------
  // The handler
  // ---------------------------------------------------------------------

  /** The fields of a `callback_query` the handler uses (`""` for a missing username). */
  datatype Tap = Tap(queryId: string, chatId: int, messageId: int, data: string, username: string, userId: int)

  datatype TapOutcome =
    | RateLimited(answer: Call)
    | AlreadyProcessing(answer: Call)
    | Handled(answer: Call, trigger: Trigger, result: StepResult)

  const TAP_LIMIT: int := 20
  const TAP_WINDOW: int := 60000
  const SLOW_DOWN: string := "⚠️ Please slow down and try again in a minute"

  /** The store's maps after the read a branch makes, if it makes one. */
  function StatesAfterRead(states: map<int, Session>, stamps: map<int, int>, userId: int, now: int, readsSession: bool): map<int, Session> {
    if readsSession && ExpiresOnRead(stamps, userId, now) then states - {userId} else states
  }

  function StampsAfterRead(stamps: map<int, int>, userId: int, now: int, readsSession: bool): map<int, int> {
    if readsSession && ExpiresOnRead(stamps, userId, now) then stamps - {userId} else stamps
  }

  /** The store's maps after a step's write. */
  function StatesAfterWrite(states: map<int, Session>, userId: int, w: Write): map<int, Session> {
    match w
    case Keep => states
    case Replace(s) => if userId != 0 then states[userId := s] else states
    case Clear => states - {userId}
  }

  function StampsAfterWrite(stamps: map<int, int>, userId: int, now: int, w: Write): map<int, int> {
    match w
    case Keep => stamps
    case Replace(_) => if userId != 0 then stamps[userId := now] else stamps
    case Clear => stamps - {userId}
  }

  /** The part of the handler that runs under the lock: decode the tap,
      read the session when the branch needs it, run the step and apply
      its write to the store. */
  method Dispatch(store: SessionStore, tap: Tap, now: int, replies: Replies) returns (trigger: Trigger, result: StepResult)
    requires store.Valid()
    modifies store
    ensures store.Valid()
    ensures trigger == Decode(tap.data)
    ensures var readsSession := ReadsSession(trigger);
            var session := if readsSession then ReadResult(old(store.userStates), old(store.stateTimestamps), tap.userId, now) else None;
            var states := StatesAfterRead(old(store.userStates), old(store.stateTimestamps), tap.userId, now, readsSession);
            var stamps := StampsAfterRead(old(store.stateTimestamps), tap.userId, now, readsSession);
            && result == TapStep(trigger, tap.username, session, replies)
            && store.userStates == StatesAfterWrite(states, tap.userId, result.write)
            && store.stateTimestamps == StampsAfterWrite(stamps, tap.userId, now, result.write)
  {
    trigger := Decode(tap.data);
    var session: Option<Session> := None;
    if ReadsSession(trigger) {
      session := store.GetUserState(tap.userId, now);
    }
    result := TapStep(trigger, tap.username, session, replies);
    match result.write
    case Keep =>
    case Replace(s) =>
      var _ := store.SetUserState(tap.userId, s, now);
    case Clear =>
      var _ := store.ClearUserState(tap.userId);
  }

  /** The `callback_query` handler. The tap limit is checked first and a
      refused tap touches neither the pending set nor the session. A tap
      whose key is pending is answered and dropped. Otherwise the key is held
      while the tap is answered and dispatched, and released afterwards. */
  method HandleCallback(limiter: RateLimiter, guard: MessageHandler, store: SessionStore, tap: Tap, now: int, replies: Replies)
    returns (outcome: TapOutcome)
    requires limiter.Valid() && guard.Valid() && store.Valid()
    modifies limiter, guard, store
    ensures limiter.Valid() && guard.Valid() && store.Valid()
    ensures var a := Admit(CallbackWindow(old(limiter.userCallbacks), UserKey(tap.userId)), now, TAP_LIMIT, TAP_WINDOW);
            && (outcome.RateLimited? <==> a.limited)
            && limiter.userCallbacks == old(limiter.userCallbacks)[UserKey(tap.userId) := a.window]
            && limiter.userRequests == old(limiter.userRequests)
    ensures outcome.RateLimited? ==> outcome.answer == AnswerCallback(tap.queryId, Some(SLOW_DOWN))
    ensures !outcome.RateLimited? ==>
              (outcome.AlreadyProcessing? <==> CallbackKey(tap.userId, tap.data, tap.messageId) in old(guard.pendingEdits))
    ensures !outcome.RateLimited? ==> outcome.answer == AnswerCallback(tap.queryId, None)
    ensures guard.pendingEdits == old(guard.pendingEdits) && guard.messageCache == old(guard.messageCache)
    ensures !outcome.Handled? ==>
              store.userStates == old(store.userStates) && store.stateTimestamps == old(store.stateTimestamps)
    ensures outcome.Handled? ==>
              var readsSession := ReadsSession(outcome.trigger);
              var session := if readsSession then ReadResult(old(store.userStates), old(store.stateTimestamps), tap.userId, now) else None;
              var states := StatesAfterRead(old(store.userStates), old(store.stateTimestamps), tap.userId, now, readsSession);
              var stamps := StampsAfterRead(old(store.stateTimestamps), tap.userId, now, readsSession);
              && outcome.trigger == Decode(tap.data)
              && outcome.result == TapStep(outcome.trigger, tap.username, session, replies)
              && store.userStates == StatesAfterWrite(states, tap.userId, outcome.result.write)
              && store.stateTimestamps == StampsAfterWrite(stamps, tap.userId, now, outcome.result.write)
  {
    var limited := limiter.IsCallbackRateLimited(now, tap.userId, TAP_LIMIT, TAP_WINDOW);
    if limited {
      outcome := RateLimited(AnswerCallback(tap.queryId, Some(SLOW_DOWN)));
      return;
    }
    var callbackKey := CallbackKey(tap.userId, tap.data, tap.messageId);
    if callbackKey in guard.pendingEdits {
      outcome := AlreadyProcessing(AnswerCallback(tap.queryId, None));
      return;
    }
    ghost var pending := guard.pendingEdits;
    guard.pendingEdits := guard.pendingEdits + {callbackKey};
    var answer := AnswerCallback(tap.queryId, None);
    var trigger, result := Dispatch(store, tap, now, replies);
    guard.pendingEdits := guard.pendingEdits - {callbackKey};
    assert guard.pendingEdits == pending;
    outcome := Handled(answer, trigger, result);
  }
}
