/**
 * The purchase conversation end to end: the category, year and state
 * buttons, the typed quantity and the confirm button, each step fed the
 * session the previous one wrote. The buttons' own callback data is
 * decoded, so the lemmas also cover the encodings in utils/keyboards.js.
 */
module Workflow {
  import opened Js
  import opened Text
  import opened Sessions
  import opened Keyboards
  import opened ShopService
  import opened CallbackData
  import opened Callbacks
  import opened Messages

  /** The button data of the purchase flow is read alike by both decoders. */
  lemma CategoryButtonDecodes(index: nat)
    ensures Decode(CategoryData(index)) == CategoryTap(Int(index))
    ensures DecodeCorrected(CategoryData(index)) == CategoryTap(Int(index))
  {
    var data := CategoryData(index);
    assert !StartsWith(data, "crypto_") && !StartsWith(data, "amount_") by {
      PrefixOf("category_", IntToString(index));
      Differs(data, "category_", "crypto_", 1);
      Differs(data, "category_", "amount_", 0);
    }
    assert DecodeCorrected(data) == Decode(data);
    CategoryRoundTrip(index);
  }

  lemma YearButtonDecodes(year: int)
    ensures YearButton(year).action.Callback?
    ensures Decode(YearButton(year).action.data) == YearRangeTap(Int(year), Int(EndYear(year)))
    ensures DecodeCorrected(YearButton(year).action.data) == YearRangeTap(Int(year), Int(EndYear(year)))
  {
    var data := YearRangeData(year, EndYear(year));
    var rest := IntToString(year) + "_" + IntToString(EndYear(year));
    assert !StartsWith(data, "crypto_") && !StartsWith(data, "amount_") by {
      assert data == "year_range_" + rest;
      PrefixOf("year_range_", rest);
      Differs(data, "year_range_", "crypto_", 0);
      Differs(data, "year_range_", "amount_", 0);
    }
    assert DecodeCorrected(data) == Decode(data);
    YearButtonRoundTrip(year);
  }

  lemma StateButtonDecodes(state: string)
    requires '_' !in state
    ensures Decode(StateData(state)) == StateTap(state)
    ensures DecodeCorrected(StateData(state)) == StateTap(state)
  {
    var data := StateData(state);
    assert !StartsWith(data, "crypto_") && !StartsWith(data, "amount_") by {
      PrefixOf("state_", state);
      Differs(data, "state_", "crypto_", 0);
      Differs(data, "state_", "amount_", 0);
    }
    assert DecodeCorrected(data) == Decode(data);
    StateRoundTrip(state);
  }

  /** The session after tapping the category at `index` of a listed reply. */
  function AfterCategory(c: Category, index: nat): Session {
    Session(Some(SelectingYear), Some(c.id), Some(index), None, None, None, None)
  }

  /** The session after tapping the year button starting at `year`. */
  function AfterYear(base: string, year: int): Session {
    Session(Some(SelectingState), Some(base), None, Some(YearFilters(base, Int(year), Int(EndYear(year)))), None, None, None)
  }

  /** The filters after tapping the year button, then a state button. */
  function ChosenFilters(base: string, year: int, state: string): Filters {
    WithState(YearFilters(base, Int(year), Int(EndYear(year))), state)
  }

  lemma CategoryButtonWrites(username: string, cats: seq<Category>, index: nat, replies: Replies)
    requires index < |cats| && replies.categories == Response(Some(cats))
    ensures TapStep(Decode(CategoryData(index)), username, None, replies).write == Replace(AfterCategory(cats[index], index))
  {
    CategoryButtonDecodes(index);
    assert TapStep(CategoryTap(Int(index)), username, None, replies) == CategoryStep(Int(index), replies.categories);
    assert ValidIndex(Int(index), cats);
  }

  lemma YearButtonWrites(username: string, c: Category, index: nat, year: int, replies: Replies)
    requires c.id != []
    ensures TapStep(Decode(YearButton(year).action.data), username, Some(AfterCategory(c, index)), replies).write
              == Replace(AfterYear(c.id, year))
  {
    YearButtonDecodes(year);
    var session := Some(AfterCategory(c, index));
    assert TapStep(YearRangeTap(Int(year), Int(EndYear(year))), username, session, replies)
        == YearStep(session, Some((Int(year), Int(EndYear(year)))));
  }

  lemma StateButtonSearches(username: string, base: string, year: int, state: string, count: int, replies: Replies)
    requires '_' !in state
    requires replies.products == Response(ProductsData(Some(count), None, None)) && count != 0
    ensures var s := TapStep(Decode(StateData(state)), username, Some(AfterYear(base, year)), replies);
            && s.requests == [ProductsRequest(username, ChosenFilters(base, year, state))]
            && s.write == Replace(Session(Some(EnteringQuantity), None, None, Some(ChosenFilters(base, year, state)), Some(count), None, None))
  {
    StateButtonDecodes(state);
    StateTapSearches(state, username, AfterYear(base, year), replies);
  }

  /** Tapping a category button, then a year button, then a state button
      leaves the session at the quantity step with the category's base, the
      year range of the button and the state, and the count the search found.
      Every code of the state keyboard qualifies (`StateCodePlain`). */
  lemma FiltersAccumulate(username: string, cats: seq<Category>, index: nat, year: int, state: string, count: int, replies: Replies)
    requires index < |cats| && cats[index].id != []
    requires '_' !in state
    requires replies.categories == Response(Some(cats))
    requires replies.products == Response(ProductsData(Some(count), None, None)) && count != 0
    ensures var c := cats[index];
            var s1 := TapStep(Decode(CategoryData(index)), username, None, replies);
            && s1.write == Replace(AfterCategory(c, index))
            && var s2 := TapStep(Decode(YearButton(year).action.data), username, Some(s1.write.session), replies);
            && s2.write == Replace(AfterYear(c.id, year))
            && var s3 := TapStep(Decode(StateData(state)), username, Some(s2.write.session), replies);
            && s3.requests == [ProductsRequest(username, ChosenFilters(c.id, year, state))]
            && s3.write == Replace(Session(Some(EnteringQuantity), None, None, Some(ChosenFilters(c.id, year, state)), Some(count), None, None))
  {
    CategoryButtonWrites(username, cats, index, replies);
    YearButtonWrites(username, cats[index], index, year, replies);
    StateButtonSearches(username, cats[index].id, year, state, count, replies);
  }

  /** The confirm tap on a session at the checkout step checks out the
      session's filters with the tapped quantity. */
  lemma ConfirmTapChecksOut(username: string, filters: Filters, count: int, q: int, replies: Replies)
    ensures var session := Session(Some(ConfirmingCheckout), None, None, Some(filters), Some(count), Some(q), None);
            var tapped := TapStep(CheckoutTap(Int(q)), username, Some(session), replies);
            && tapped.requests == [CheckoutRequest(CheckoutBody(username, Int(q), filters))]
            && (tapped.write == Clear <==> Checkout(replies.checkout).success)
  {
    var session := Session(Some(ConfirmingCheckout), None, None, Some(filters), Some(count), Some(q), None);
    assert TapStep(CheckoutTap(Int(q)), username, Some(session), replies) == CheckoutStep(username, Int(q), filters, replies.checkout);
  }

  /** After the search, a typed quantity within the count is confirmed with a
      button whose tap checks out exactly that quantity with the filters the
      session collected. */
  lemma QuantityThenCheckout(username: string, filters: Filters, count: int, text: string, replies: Replies)
    requires AcceptsQuantity(ParseInt(text), Session(Some(EnteringQuantity), None, None, Some(filters), Some(count), None, None))
    requires Utf8Length(ConfirmCheckoutData(ParseInt(text).value)) <= MAX_CALLBACK_BYTES
    ensures var session := Session(Some(EnteringQuantity), None, None, Some(filters), Some(count), None, None);
            var q := ParseInt(text).value;
            var typed := QuantityStep(text, session);
            && typed.write == Replace(Session(Some(ConfirmingCheckout), None, None, Some(filters), Some(count), Some(q), None))
            && typed.outputs[0].options.markup.Some?
            && var keyboard := typed.outputs[0].options.markup.value.inlineKeyboard;
            && |keyboard| == 1 && |keyboard[0]| == 2 && keyboard[0][0].action.Callback?
            && var tapped := TapStep(Decode(keyboard[0][0].action.data), username, Some(typed.write.session), replies);
            && tapped.requests == [CheckoutRequest(CheckoutBody(username, Int(q), filters))]
            && (tapped.write == Clear <==> Checkout(replies.checkout).success)
  {
    var session := Session(Some(EnteringQuantity), None, None, Some(filters), Some(count), None, None);
    var q := ParseInt(text).value;
    QuantityConfirmsSameQuantity(text, session);
    var typed := QuantityStep(text, session);
    assert typed.write.session == Session(Some(ConfirmingCheckout), None, None, Some(filters), Some(count), Some(q), None);
    assert Decode(typed.outputs[0].options.markup.value.inlineKeyboard[0][0].action.data) == CheckoutTap(Int(q));
    ConfirmTapChecksOut(username, filters, count, q, replies);
  }

  /** A session without filters, such as the one the category step writes,
      cannot check out: the confirm tap only shows the expired notice. */
  lemma CheckoutNeedsFilters(username: string, c: Category, index: nat, quantity: IntOrNaN, replies: Replies)
    ensures TapStep(CheckoutTap(quantity), username, Some(AfterCategory(c, index)), replies) == EXPIRED
  {
  }
}
