/**
 * The text-message handler of handlers/messages.js: commands and empty
 * messages are skipped, the rest pass the message rate limit and the
 * duplicate cooldown, and the session's step decides whether the text is
 * a quantity, a custom deposit amount, or neither.
 *
 * `parseFloat` is not part of this model: the number a custom amount text
 * parses to, and the way JavaScript renders that number, arrive with the
 * message.
 */
module Messages {
  import opened Js
  import opened Text
  import opened Sessions
  import opened Keyboards
  import opened RateLimiting
  import opened SharedState
  import opened MessageHandling
  import opened Validation
  import opened CallbackData
  import opened Callbacks

  /** What is shown: a new message, or an edit of the loading message. */
  datatype Output = Send(text: string, options: Options) | EditLoading(text: string, options: Options)

  datatype MessageResult = MessageResult(requests: seq<Request>, write: Write, outputs: seq<Output>)

  const BACK_TO_SHOP_OPTIONS: Options := Options(None, Some(BACK_TO_SHOP))
  const BACK_TO_DEPOSIT: Markup := Markup([[CallbackButton("⬅️ Back to Deposit", "deposit")]])
  const BACK_TO_DEPOSIT_OPTIONS: Options := Options(None, Some(BACK_TO_DEPOSIT))

  // ---------------------------------------------------------------------
  // Quantity input
  // ---------------------------------------------------------------------

  const INVALID_QUANTITY: string := "❌ Please enter a valid number (e.g., 5)"

  // The texts of the replies, as handlers/messages.js writes them.
  const UNDEFINED: string := "undefined"
  const ONLY: string := "❌ Only "
  const SMALLER_NUMBER: string := " items available. Please enter a smaller number."
  const SUMMARY_QUANTITY: string := "🛒 **Order Summary**\n\n**Quantity:** "
  const SUMMARY_AVAILABLE: string := " items\n**Available:** "
  const SUMMARY_CONFIRM: string := " items\n\nConfirm your purchase?"
  const LOADING_CRYPTO: string := "⏳ Loading cryptocurrencies..."
  const CUSTOM_DEPOSIT: string := "💰 **Deposit $"
  const SELECT_CRYPTO: string := "**\n\nSelect cryptocurrency:"

  /** `${availableQuantity}`, which reads `undefined` when the field is absent. */
  function AvailableText(available: Option<int>): string {
    if available.Some? then IntToString(available.value) else UNDEFINED
  }

  function TooManyText(available: Option<int>): string {
    ONLY + AvailableText(available) + SMALLER_NUMBER
  }

  function OrderSummary(quantity: int, available: Option<int>): string {
    SUMMARY_QUANTITY + IntToString(quantity) + SUMMARY_AVAILABLE
    + AvailableText(available) + SUMMARY_CONFIRM
  }

  /** The checkout keyboard carries callback buttons only, so the repair
      pass never fails on it. */
  lemma CheckoutKeyboardRepairs(quantity: int)
    ensures FixMarkup(CheckoutKeyboard(quantity)).Some?
  {
    var rows: seq<seq<Button>> := CheckoutKeyboard(quantity).inlineKeyboard;
    assert rows[0][1].action.Callback?;
    assert AllCallbacks(rows);
  }

  /** The accepted quantities: a number above zero and, when the session
      records one, no more than the available count. */
  predicate AcceptsQuantity(quantity: IntOrNaN, session: Session) {
    && quantity.Int? && quantity.value > 0
    && (session.availableQuantity.None? || quantity.value <= session.availableQuantity.value)
  }

  /** `handleQuantityInput`. An accepted quantity moves the session to the
      checkout confirmation, keeping its filters and available count, and
      sends the summary with the checkout keyboard; anything else sends the
      matching notice and keeps the session. A text that is not a number, or
      not above zero, is refused before the count is consulted. */
  function QuantityStep(text: string, session: Session): (r: MessageResult)
    ensures r.requests == [] && |r.outputs| == 1
    ensures r.write != Keep <==> AcceptsQuantity(ParseInt(text), session)
    ensures r.write == Keep && !(ParseInt(text).Int? && ParseInt(text).value > 0) ==>
              r.outputs == [Send(INVALID_QUANTITY, BACK_TO_SHOP_OPTIONS)]
    ensures r.write == Keep && ParseInt(text).Int? && ParseInt(text).value > 0 ==>
              r.outputs == [Send(TooManyText(session.availableQuantity), BACK_TO_SHOP_OPTIONS)]
    ensures r.write != Keep ==>
              var q := ParseInt(text).value;
              && r.write == Replace(Session(Some(ConfirmingCheckout), None, None, session.filters, session.availableQuantity, Some(q), None))
              && r.outputs == [Send(OrderSummary(q, session.availableQuantity), Markdown(FixMarkup(CheckoutKeyboard(q))))]
  {
    var quantity := ParseInt(text);
    if quantity.NaN? || quantity.value <= 0 then
      MessageResult([], Keep, [Send(INVALID_QUANTITY, BACK_TO_SHOP_OPTIONS)])
    else if session.availableQuantity.Some? && quantity.value > session.availableQuantity.value then
      MessageResult([], Keep, [Send(TooManyText(session.availableQuantity), BACK_TO_SHOP_OPTIONS)])
    else
      var q := quantity.value;
      CheckoutKeyboardRepairs(q);
      MessageResult([], Replace(Session(Some(ConfirmingCheckout), None, None, session.filters, session.availableQuantity, Some(q), None)),
                    [Send(OrderSummary(q, session.availableQuantity), Markdown(FixMarkup(CheckoutKeyboard(q))))])
  }

  /** For an accepted quantity whose confirm data fits the 64-byte limit
      (at most 47 digits), the keyboard sent is present and its confirm
      button decodes back to a checkout of that very quantity, under either
      decoder. */
  lemma QuantityConfirmsSameQuantity(text: string, session: Session)
    requires AcceptsQuantity(ParseInt(text), session)
    requires Utf8Length(ConfirmCheckoutData(ParseInt(text).value)) <= MAX_CALLBACK_BYTES
    ensures var q := ParseInt(text).value;
            var options := QuantityStep(text, session).outputs[0].options;
            && options.markup.Some?
            && |options.markup.value.inlineKeyboard| == 1 && |options.markup.value.inlineKeyboard[0]| == 2
            && var b := options.markup.value.inlineKeyboard[0][0];
            && b.action.Callback?
            && Decode(b.action.data) == CheckoutTap(Int(q))
            && DecodeCorrected(b.action.data) == CheckoutTap(Int(q))
  {
    var q := ParseInt(text).value;
    RepairedConfirmButton(q);
    ConfirmCheckoutRoundTrip(q);
    ConfirmCheckoutDecodesCorrected(q);
  }

  lemma RepairedConfirmButton(q: int)
    requires Utf8Length(ConfirmCheckoutData(q)) <= MAX_CALLBACK_BYTES
    ensures var kb := FixMarkup(CheckoutKeyboard(q));
            && kb.Some? && |kb.value.inlineKeyboard| == 1 && |kb.value.inlineKeyboard[0]| == 2
            && kb.value.inlineKeyboard[0][0].action == Callback(ConfirmCheckoutData(q))
  {
    CheckoutKeyboardRepairs(q);
    var raw := CheckoutKeyboard(q);
    FixMarkupShape(raw);
    FixDataShort(ConfirmCheckoutData(q));
  }

  // ---------------------------------------------------------------------
  // Custom amount input
  // ---------------------------------------------------------------------

  const INVALID_AMOUNT: string := "❌ Please enter a valid amount (e.g., 25.50)"
  const BELOW_MIN_AMOUNT: string := "❌ Minimum deposit amount is $10"
  const ABOVE_MAX_AMOUNT: string := "❌ Maximum deposit amount is $10,000"
  const MIN_CUSTOM_AMOUNT: real := 10.0
  const MAX_CUSTOM_AMOUNT: real := 10000.0

  predicate AcceptsAmount(amount: RealOrNaN) {
    amount.Real? && MIN_CUSTOM_AMOUNT <= amount.value <= MAX_CUSTOM_AMOUNT
  }

  /** `handleCustomAmountInput`. An amount from 10 to 10000 is stored in a
      fresh session at the currency step, before the currencies are
      fetched; the currency keyboard then replaces a loading message. Any
      other amount sends the notice of the first check it fails. */
  function AmountStep(amount: RealOrNaN, amountText: string, reply: CurrenciesReply): (r: MessageResult)
    ensures r.write != Keep <==> AcceptsAmount(amount)
    ensures r.write == Keep ==>
              && r.requests == []
              && r.outputs == [Send(if amount.RealNaN? || amount.value <= 0.0 then INVALID_AMOUNT
                                    else if amount.value < MIN_CUSTOM_AMOUNT then BELOW_MIN_AMOUNT
                                    else ABOVE_MAX_AMOUNT, BACK_TO_DEPOSIT_OPTIONS)]
    ensures r.write != Keep ==>
              && r.write == Replace(Session(Some(SelectingCryptoCustom), None, None, None, None, None, Some(amount.value)))
              && r.requests == [CurrenciesRequest]
              && |r.outputs| == 2 && r.outputs[0] == Send(LOADING_CRYPTO, NO_OPTIONS)
              && r.outputs[1].EditLoading?
    ensures r.write != Keep && reply.CurrenciesFailed? ==>
              r.outputs[1] == EditLoading(CURRENCIES_ERROR + reply.error, Markdown(Some(BACK_TO_DEPOSIT)))
    ensures r.write != Keep && reply.CurrenciesOk? ==>
              var keyboard := FixMarkup(CryptoKeyboard(reply.currencies));
              r.outputs[1] == if keyboard.Some? then EditLoading(CUSTOM_DEPOSIT + amountText + SELECT_CRYPTO, Markdown(keyboard))
                              else EditLoading(SOMETHING_WRONG, BACK_TO_DEPOSIT_OPTIONS)
  {
    if amount.RealNaN? || amount.value <= 0.0 then MessageResult([], Keep, [Send(INVALID_AMOUNT, BACK_TO_DEPOSIT_OPTIONS)])
    else if amount.value < MIN_CUSTOM_AMOUNT then MessageResult([], Keep, [Send(BELOW_MIN_AMOUNT, BACK_TO_DEPOSIT_OPTIONS)])
    else if amount.value > MAX_CUSTOM_AMOUNT then MessageResult([], Keep, [Send(ABOVE_MAX_AMOUNT, BACK_TO_DEPOSIT_OPTIONS)])
    else
      var write := Replace(Session(Some(SelectingCryptoCustom), None, None, None, None, None, Some(amount.value)));
      var loading := Send(LOADING_CRYPTO, NO_OPTIONS);
      var shown :=
        match reply
        case CurrenciesFailed(error) =>
          EditLoading(CURRENCIES_ERROR + error, Markdown(Some(BACK_TO_DEPOSIT)))
        case CurrenciesOk(payload) =>
          var keyboard := FixMarkup(CryptoKeyboard(payload));
          if keyboard.None? then EditLoading(SOMETHING_WRONG, BACK_TO_DEPOSIT_OPTIONS)
          else EditLoading(CUSTOM_DEPOSIT + amountText + SELECT_CRYPTO, Markdown(keyboard));
      MessageResult([CurrenciesRequest], write, [loading, shown])
  }

  /** Once the currencies arrive, an accepted amount always reaches the
      currency screen: the repair cannot fail on the currency keyboard, so
      the error screen is never shown for it. The screen names the typed
      amount and offers one button per currency, with its label kept and
      its data repaired, above the row back to the main menu; with no
      currency it shows the notice that there is none. */
  lemma CustomAmountOffersCurrencies(amount: RealOrNaN, amountText: string, p: CurrencyPayload)
    requires AcceptsAmount(amount)
    ensures var shown := AmountStep(amount, amountText, CurrenciesOk(p)).outputs[1];
            && shown.text == CUSTOM_DEPOSIT + amountText + SELECT_CRYPTO
            && shown.options == Markdown(FixMarkup(CryptoKeyboard(p)))
            && CurrencyRows(FixMarkup(CryptoKeyboard(p)), CurrencyList(p))
  {
    CryptoKeyboardRepairs(p);
  }

  /** The typed amount is held to a stricter minimum than the deposit
      validator's: whatever is accepted here passes it, but so does 5,
      which is refused here. */
  lemma CustomAmountStricterThanValidator(amount: RealOrNaN)
    ensures AcceptsAmount(amount) ==> ValidateDepositAmount(amount).DepositValid?
    ensures ValidateDepositAmount(Real(5.0)).DepositValid? && !AcceptsAmount(Real(5.0))
  {
  }

  // ---------------------------------------------------------------------
  // Routing and the handler
  // ---------------------------------------------------------------------

  const MENU_HINT: string := "Please use the menu buttons to navigate! 😊\n\nUse /start to get the main menu."

  /** The step of the session decides: a quantity, a custom amount, or a
      hint to use the menu. */
  function Route(session: Option<Session>, text: string, amount: RealOrNaN, amountText: string, replies: Replies): (r: MessageResult)
    ensures session.Some? && session.value.step == Some(EnteringQuantity) ==> r == QuantityStep(text, session.value)
    ensures session.Some? && session.value.step == Some(EnteringCustomAmount) ==> r == AmountStep(amount, amountText, replies.currencies)
    ensures !(session.Some? && session.value.step in {Some(EnteringQuantity), Some(EnteringCustomAmount)}) ==>
              r == MessageResult([], Keep, [Send(MENU_HINT, Options(None, Some(MAIN_MENU)))])
  {
    if session.Some? && session.value.step == Some(EnteringQuantity) then QuantityStep(text, session.value)
    else if session.Some? && session.value.step == Some(EnteringCustomAmount) then AmountStep(amount, amountText, replies.currencies)
    else MessageResult([], Keep, [Send(MENU_HINT, Options(None, Some(MAIN_MENU)))])
  }

  /** Only a session at one of the two input steps is ever rewritten by a message. */
  lemma OnlyInputStepsWrite(session: Option<Session>, text: string, amount: RealOrNaN, amountText: string, replies: Replies)
    ensures Route(session, text, amount, amountText, replies).write != Keep ==>
              session.Some? && session.value.step in {Some(EnteringQuantity), Some(EnteringCustomAmount)}
    ensures !Route(session, text, amount, amountText, replies).write.Clear?
  {
  }

  /** The fields of a `message` the handler uses; `amount` and `amountText`
      are `parseFloat` of the trimmed text and its rendering. */
  datatype Message = Message(text: Option<string>, chatId: int, userId: int, amount: RealOrNaN, amountText: string)

  datatype MessageOutcome =
    | Ignored
    | SlowedDown(output: Output)
    | Duplicate
    | Answered(result: MessageResult)

  const MESSAGE_LIMIT: int := 15
  const MESSAGE_WINDOW: int := 60000
  const MESSAGE_COOLDOWN: int := 2000
  const MESSAGE_KIND: string := "message"

  /** A command (recognised before trimming) or a missing or empty text. */
  predicate Skipped(text: Option<string>) {
    text.None? || text.value == [] || StartsWith(text.value, "/")
  }

  /** The request map after the message rate check. */
  function AfterRateCheck(requests: map<string, Slot>, userId: int, now: int): map<string, Slot> {
    requests[UserKey(userId) := Window(Admit(StoredWindow(requests, UserKey(userId)), now, MESSAGE_LIMIT, MESSAGE_WINDOW).window)]
  }

  /** Read the session, route the text and apply the route's write. */
  method Respond(store: SessionStore, msg: Message, text: string, now: int, replies: Replies) returns (result: MessageResult)
    requires store.Valid()
    modifies store
    ensures store.Valid()
    ensures var session := ReadResult(old(store.userStates), old(store.stateTimestamps), msg.userId, now);
            var states := StatesAfterRead(old(store.userStates), old(store.stateTimestamps), msg.userId, now, true);
            var stamps := StampsAfterRead(old(store.stateTimestamps), msg.userId, now, true);
            && result == Route(session, text, msg.amount, msg.amountText, replies)
            && store.userStates == StatesAfterWrite(states, msg.userId, result.write)
            && store.stateTimestamps == StampsAfterWrite(stamps, msg.userId, now, result.write)
  {
    var session := store.GetUserState(msg.userId, now);
    result := Route(session, text, msg.amount, msg.amountText, replies);
    if result.write.Replace? {
      var _ := store.SetUserState(msg.userId, result.write.session, now);
    }
  }

  /** Skipped messages change nothing. The rest pass the rate limit, then
      the cooldown; a message that passes both reads the session, is routed
      by its trimmed text, and the route's write is applied. */
  method HandleMessage(limiter: RateLimiter, store: SessionStore, msg: Message, now: int, replies: Replies)
    returns (outcome: MessageOutcome)
    requires limiter.Valid() && store.Valid()
    modifies limiter, store
    ensures limiter.Valid() && store.Valid()
    ensures outcome.Ignored? <==> Skipped(msg.text)
    ensures limiter.userCallbacks == old(limiter.userCallbacks)
    ensures outcome.Ignored? ==> limiter.userRequests == old(limiter.userRequests)
    ensures !outcome.Ignored? ==>
              (outcome.SlowedDown? <==> Admit(StoredWindow(old(limiter.userRequests), UserKey(msg.userId)), now, MESSAGE_LIMIT, MESSAGE_WINDOW).limited)
    ensures outcome.SlowedDown? ==>
              outcome.output == Send(SLOW_DOWN, NO_OPTIONS) && limiter.userRequests == AfterRateCheck(old(limiter.userRequests), msg.userId, now)
    ensures outcome.Duplicate? || outcome.Answered? ==>
              var checked := AfterRateCheck(old(limiter.userRequests), msg.userId, now);
              var key := DupKey(msg.userId, MESSAGE_KIND);
              var last := LastStamp(checked, key);
              && (outcome.Duplicate? <==> last != 0 && now - last < MESSAGE_COOLDOWN)
              && limiter.userRequests == (if outcome.Duplicate? then checked else checked[key := Last(now)])
    ensures !outcome.Answered? ==>
              store.userStates == old(store.userStates) && store.stateTimestamps == old(store.stateTimestamps)
    ensures outcome.Answered? ==>
              var session := ReadResult(old(store.userStates), old(store.stateTimestamps), msg.userId, now);
              var states := StatesAfterRead(old(store.userStates), old(store.stateTimestamps), msg.userId, now, true);
              var stamps := StampsAfterRead(old(store.stateTimestamps), msg.userId, now, true);
              && outcome.result == Route(session, Trim(msg.text.value), msg.amount, msg.amountText, replies)
              && store.userStates == StatesAfterWrite(states, msg.userId, outcome.result.write)
              && store.stateTimestamps == StampsAfterWrite(stamps, msg.userId, now, outcome.result.write)
  {
    if Skipped(msg.text) {
      return Ignored;
    }
    var text := Trim(msg.text.value);
    var limited := limiter.IsRateLimited(now, msg.userId, MESSAGE_LIMIT, MESSAGE_WINDOW);
    if limited {
      return SlowedDown(Send(SLOW_DOWN, NO_OPTIONS));
    }
    var duplicate := limiter.IsDuplicateRequest(now, msg.userId, MESSAGE_KIND, MESSAGE_COOLDOWN);
    if duplicate {
      return Duplicate;
    }
    var result := Respond(store, msg, text, now, replies);
    outcome := Answered(result);
  }
}
