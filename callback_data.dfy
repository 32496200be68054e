/**
 * The decoding of button callback data in handlers/callbacks.js: the exact
 * menu names, then the `startsWith` chain with `split('_')` and `parseInt`,
 * into a closed set of triggers. The round-trip lemmas check the decoder
 * against the encoders of utils/keyboards.js.
 */
module CallbackData {
  import opened Js
  import opened Text
  import opened Keyboards

  /** What a tap asks for. Fields are what the handler extracts; a missing
      `split` part is `None` (JavaScript's `undefined`). */
  datatype Trigger =
    | MainMenuTap
    | HelpTap
    | HowItWorksTap
    | WalletTap
    | ShopTap
    | DepositTap
    | CryptoTap(code: string)
    | AmountTap(code: string, amount: Option<string>)
    | CategoryTap(index: IntOrNaN)
    | YearRangeTap(yearFrom: IntOrNaN, yearTo: IntOrNaN)
    | SkipYearTap
    | StateTap(state: string)
    | SkipStateTap
    | CheckoutTap(quantity: IntOrNaN)
    | UnknownTap

  // ---------------------------------------------------------------------
  // Splitting a prefixed string
  // ---------------------------------------------------------------------

  /** A string that starts with `head_` splits into `head` and the parts of the rest. */
  lemma HeadSplit(data: string, head: string)
    requires StartsWith(data, head + "_") && '_' !in head
    ensures Split(data, '_') == [head] + Split(data[|head| + 1..], '_')
  {
    assert data == head + ['_'] + data[|head| + 1..] by {
      assert data == data[..|head| + 1] + data[|head| + 1..];
    }
    SplitCons(head, '_', data[|head| + 1..]);
  }

  /** A string that starts with `p + q` starts with `p`, and its rest after `p` with `q`. */
  lemma PrefixSplit(s: string, p: string, q: string)
    requires StartsWith(s, p + q)
    ensures StartsWith(s, p) && StartsWith(s[|p|..], q)
  {
    assert s[..|p|] == (p + q)[..|p|];
    assert s[|p|..][..|q|] == (p + q)[|p|..];
  }

  /** The same for two separator-free heads, `first_second_`. */
  lemma HeadSplit2(data: string, first: string, second: string)
    requires StartsWith(data, first + "_" + second + "_") && '_' !in first && '_' !in second
    ensures Split(data, '_') == [first, second] + Split(data[|first| + |second| + 2..], '_')
  {
    var rest := data[|first| + 1..];
    assert first + "_" + second + "_" == (first + "_") + (second + "_");
    PrefixSplit(data, first + "_", second + "_");
    HeadSplit(data, first);
    HeadSplit(rest, second);
    assert rest[|second| + 1..] == data[|first| + |second| + 2..];
  }

  // ---------------------------------------------------------------------
  // The decoder as written
  // ---------------------------------------------------------------------

  /** The `switch` on the exact menu names, then the `startsWith` chain of
      the default branch in its source order. */
  function Decode(data: string): Trigger {
    if data == "main_menu" then MainMenuTap
    else if data == "help_support" then HelpTap
    else if data == "how_it_works" then HowItWorksTap
    else if data == "wallet" then WalletTap
    else if data == "shop" then ShopTap
    else if data == "deposit" then DepositTap
    else DecodeDefault(data)
  }

  /** The `default` branch: the first half of its `startsWith` chain. */
  function DecodeDefault(data: string): Trigger {
    if StartsWith(data, "crypto_") then
      HeadSplit(data, "crypto");
      CryptoTap(Split(data, '_')[1])
    else if StartsWith(data, "amount_") then
      HeadSplit(data, "amount");
      var parts := Split(data, '_');
      AmountTap(parts[1], PartAt(parts, 2))
    else if StartsWith(data, "category_") then
      HeadSplit(data, "category");
      CategoryTap(ParseInt(Split(data, '_')[1]))
    else if StartsWith(data, "year_range_") then
      HeadSplit2(data, "year", "range");
      var parts := Split(data, '_');
      YearRangeTap(ParseInt(parts[2]), ParseIntOpt(PartAt(parts, 3)))
    else DecodeLater(data)
  }

  /** The rest of the chain, from `skip_year` on. */
  function DecodeLater(data: string): Trigger {
    if data == "skip_year" then SkipYearTap
    else if StartsWith(data, "state_") then
      HeadSplit(data, "state");
      StateTap(Split(data, '_')[1])
    else if data == "skip_state" then SkipStateTap
    else if StartsWith(data, "confirm_checkout_") then
      HeadSplit2(data, "confirm", "checkout");
      CheckoutTap(ParseInt(Split(data, '_')[2]))
    else if StartsWith(data, "checkout_") then
      HeadSplit(data, "checkout");
      CheckoutTap(ParseInt(Split(data, '_')[1]))
    else UnknownTap
  }

  /** The decoder with the currency code read in full: everything after
      `crypto_`, and for `amount_` everything between the prefix and the last
      part. All other data decode as before. */
  function DecodeCorrected(data: string): Trigger {
    if StartsWith(data, "crypto_") then CryptoTap(data[7..])
    else if StartsWith(data, "amount_") then
      HeadSplit(data, "amount");
      var parts := Split(data, '_');
      if |parts| >= 3 then AmountTap(Join(parts[1..|parts| - 1], '_'), Some(parts[|parts| - 1]))
      else AmountTap(parts[1], None)
    else Decode(data)
  }

  // ---------------------------------------------------------------------
  // Telling the branches apart
  // ---------------------------------------------------------------------

  /** A string starting with `p` is neither `q` nor starts with `q` when `p`
      and `q` differ at a position both have. */
  lemma Differs(s: string, p: string, q: string, i: nat)
    requires StartsWith(s, p) && i < |p| && i < |q| && p[i] != q[i]
    ensures s != q && !StartsWith(s, q)
  {
    assert s[..|p|][i] == s[i];
  }

  /** None of the exact menu names starts with `p`, told apart at its first character. */
  lemma NotMenuName(s: string, p: string)
    requires StartsWith(s, p) && |p| > 0 && p[0] !in "mhwsd"
    ensures s != "main_menu" && s != "help_support" && s != "how_it_works"
    ensures s != "wallet" && s != "shop" && s != "deposit"
  {
    Differs(s, p, "main_menu", 0);
    Differs(s, p, "help_support", 0);
    Differs(s, p, "how_it_works", 0);
    Differs(s, p, "wallet", 0);
    Differs(s, p, "shop", 0);
    Differs(s, p, "deposit", 0);
  }

  lemma DecodeCryptoPrefix(data: string)
    requires StartsWith(data, "crypto_")
    ensures Decode(data) == CryptoTap(Split(data[7..], '_')[0])
  {
    NotMenuName(data, "crypto_");
    HeadSplit(data, "crypto");
  }

  lemma DecodeAmountPrefix(data: string)
    requires StartsWith(data, "amount_")
    ensures Decode(data) == AmountTap(Split(data[7..], '_')[0], PartAt(Split(data[7..], '_'), 1))
  {
    NotMenuName(data, "amount_");
    Differs(data, "amount_", "crypto_", 0);
    HeadSplit(data, "amount");
  }

  lemma DecodeCategoryPrefix(data: string)
    requires StartsWith(data, "category_")
    ensures Decode(data) == CategoryTap(ParseInt(Split(data[9..], '_')[0]))
  {
    NotMenuName(data, "category_");
    Differs(data, "category_", "crypto_", 1);
    Differs(data, "category_", "amount_", 0);
    HeadSplit(data, "category");
    assert Split(data, '_')[1] == Split(data[9..], '_')[0];
  }

  lemma DecodeYearRangePrefix(data: string)
    requires StartsWith(data, "year_range_")
    ensures Decode(data) == YearRangeTap(ParseInt(Split(data[11..], '_')[0]), ParseIntOpt(PartAt(Split(data[11..], '_'), 1)))
  {
    NotMenuName(data, "year_range_");
    Differs(data, "year_range_", "crypto_", 0);
    Differs(data, "year_range_", "amount_", 0);
    Differs(data, "year_range_", "category_", 0);
    HeadSplit2(data, "year", "range");
    var parts, rest := Split(data, '_'), Split(data[11..], '_');
    assert parts[2] == rest[0] && PartAt(parts, 3) == PartAt(rest, 1);
  }

  lemma DecodeStatePrefix(data: string)
    requires StartsWith(data, "state_")
    ensures Decode(data) == StateTap(Split(data[6..], '_')[0])
  {
    Differs(data, "state_", "main_menu", 0);
    Differs(data, "state_", "help_support", 0);
    Differs(data, "state_", "how_it_works", 0);
    Differs(data, "state_", "wallet", 0);
    Differs(data, "state_", "shop", 1);
    Differs(data, "state_", "deposit", 0);
    Differs(data, "state_", "crypto_", 0);
    Differs(data, "state_", "amount_", 0);
    Differs(data, "state_", "category_", 0);
    Differs(data, "state_", "year_range_", 0);
    Differs(data, "state_", "skip_year", 1);
    HeadSplit(data, "state");
    assert Split(data, '_')[1] == Split(data[6..], '_')[0];
  }

  /** The checkout prefixes: `confirm_checkout_` is matched first. */
  lemma DecodeConfirmCheckoutPrefix(data: string)
    requires StartsWith(data, "confirm_checkout_")
    ensures Decode(data) == CheckoutTap(ParseInt(Split(data[17..], '_')[0]))
  {
    NotMenuName(data, "confirm_checkout_");
    Differs(data, "confirm_checkout_", "crypto_", 1);
    Differs(data, "confirm_checkout_", "amount_", 0);
    Differs(data, "confirm_checkout_", "category_", 1);
    Differs(data, "confirm_checkout_", "year_range_", 0);
    Differs(data, "confirm_checkout_", "skip_year", 0);
    Differs(data, "confirm_checkout_", "state_", 0);
    Differs(data, "confirm_checkout_", "skip_state", 0);
    HeadSplit2(data, "confirm", "checkout");
    assert Split(data, '_')[2] == Split(data[17..], '_')[0];
  }

  lemma DecodeCheckoutPrefix(data: string)
    requires StartsWith(data, "checkout_")
    ensures Decode(data) == CheckoutTap(ParseInt(Split(data[9..], '_')[0]))
  {
    NotMenuName(data, "checkout_");
    Differs(data, "checkout_", "crypto_", 1);
    Differs(data, "checkout_", "amount_", 0);
    Differs(data, "checkout_", "category_", 1);
    Differs(data, "checkout_", "year_range_", 0);
    Differs(data, "checkout_", "skip_year", 0);
    Differs(data, "checkout_", "state_", 0);
    Differs(data, "checkout_", "skip_state", 0);
    Differs(data, "checkout_", "confirm_checkout_", 1);
    HeadSplit(data, "checkout");
    assert Split(data, '_')[1] == Split(data[9..], '_')[0];
  }

  // ---------------------------------------------------------------------
  // Round trips through the keyboard encoders
  // ---------------------------------------------------------------------

  /** `p + s` starts with `p`, and what follows is `s`. */
  lemma PrefixOf(p: string, s: string)
    ensures StartsWith(p + s, p) && (p + s)[|p|..] == s
  {
    assert (p + s)[..|p|] == p;
  }

  /** A formatted integer is a single part that parses back to itself. */
  lemma FormattedPart(n: int)
    ensures Split(IntToString(n), '_') == [IntToString(n)]
    ensures ParseInt(IntToString(n)) == Int(n)
  {
    IntToStringOmits(n, '_');
    SplitNoSep(IntToString(n), '_');
    ParseIntToString(n);
  }

  /** A category button decodes to its index. */
  lemma CategoryRoundTrip(index: nat)
    ensures Decode(CategoryData(index)) == CategoryTap(Int(index))
  {
    PrefixOf("category_", IntToString(index));
    DecodeCategoryPrefix(CategoryData(index));
    FormattedPart(index);
  }

  /** A year-range button decodes to both of its years. */
  lemma YearRangeRoundTrip(year: int, endYear: int)
    ensures Decode(YearRangeData(year, endYear)) == YearRangeTap(Int(year), Int(endYear))
  {
    var y, e := IntToString(year), IntToString(endYear);
    var rest := y + "_" + e;
    assert YearRangeData(year, endYear) == "year_range_" + rest;
    PrefixOf("year_range_", rest);
    DecodeYearRangePrefix("year_range_" + rest);
    IntToStringOmits(year, '_');
    IntToStringOmits(endYear, '_');
    SplitTwo(y, e, '_');
    FormattedPart(year);
    FormattedPart(endYear);
  }

  /** Every year button of the keyboard decodes to the range it shows. */
  lemma YearButtonRoundTrip(year: int)
    ensures YearButton(year).action.Callback?
    ensures Decode(YearButton(year).action.data) == YearRangeTap(Int(year), Int(EndYear(year)))
  {
    YearRangeRoundTrip(year, EndYear(year));
  }

  /** A state button decodes to its code when the code has no `_`. */
  lemma StateRoundTrip(state: string)
    requires '_' !in state
    ensures Decode(StateData(state)) == StateTap(state)
  {
    PrefixOf("state_", state);
    DecodeStatePrefix(StateData(state));
    SplitNoSep(state, '_');
  }

  /** No listed state code contains `_`. */
  lemma StateCodePlain(state: string)
    requires state in STATES
    ensures '_' !in state
  {
  }

  /** So every listed state round-trips. */
  lemma StatesRoundTrip(i: nat)
    requires i < |STATES|
    ensures Decode(StateData(STATES[i])) == StateTap(STATES[i])
  {
    StateCodePlain(STATES[i]);
    StateRoundTrip(STATES[i]);
  }

  lemma ConfirmCheckoutRoundTrip(quantity: int)
    ensures Decode(ConfirmCheckoutData(quantity)) == CheckoutTap(Int(quantity))
  {
    var data := ConfirmCheckoutData(quantity);
    PrefixOf("confirm_checkout_", IntToString(quantity));
    DecodeConfirmCheckoutPrefix(data);
    FormattedPart(quantity);
  }

  /** The corrected decoder reads the confirm data as the original does. */
  lemma ConfirmCheckoutDecodesCorrected(quantity: int)
    ensures DecodeCorrected(ConfirmCheckoutData(quantity)) == CheckoutTap(Int(quantity))
  {
    var data := ConfirmCheckoutData(quantity);
    assert !StartsWith(data, "crypto_") && !StartsWith(data, "amount_") by {
      PrefixOf("confirm_checkout_", IntToString(quantity));
      Differs(data, "confirm_checkout_", "crypto_", 1);
      Differs(data, "confirm_checkout_", "amount_", 0);
    }
    assert DecodeCorrected(data) == Decode(data);
    ConfirmCheckoutRoundTrip(quantity);
  }

  lemma CheckoutRoundTrip(quantity: int)
    ensures Decode(CheckoutData(quantity)) == CheckoutTap(Int(quantity))
  {
    PrefixOf("checkout_", IntToString(quantity));
    DecodeCheckoutPrefix(CheckoutData(quantity));
    FormattedPart(quantity);
  }

  /** Whichever form the confirm button takes, it decodes to the quantity it was built for. */
  lemma CheckoutButtonRoundTrip(quantity: int)
    ensures var b := CheckoutKeyboard(quantity).inlineKeyboard[0][0];
            b.action.Callback? && Decode(b.action.data) == CheckoutTap(Int(quantity))
  {
    ConfirmCheckoutRoundTrip(quantity);
    CheckoutRoundTrip(quantity);
  }

  /** Crypto data at most 60 characters long is never cut. */
  lemma CryptoDataShort(code: string)
    requires |code| <= 53
    ensures CryptoData(code) == "crypto_" + code
  {
  }

  /** A crypto button whose code has no `_` and fits decodes to its code. */
  lemma CryptoRoundTrip(code: string)
    requires '_' !in code && Utf8Length("crypto_" + code) <= MAX_CALLBACK_BYTES
    ensures Decode(CryptoData(code)) == CryptoTap(code)
  {
    PrefixOf("crypto_", code);
    DecodeCryptoPrefix(CryptoData(code));
    SplitNoSep(code, '_');
  }

  /** An amount button whose code has no `_` decodes to its code and amount. */
  lemma AmountRoundTrip(code: string, amount: int)
    requires '_' !in code
    ensures Decode(AmountData(code, amount)) == AmountTap(code, Some(IntToString(amount)))
  {
    var a := IntToString(amount);
    var data := AmountData(code, amount);
    assert data == "amount_" + (code + "_" + a);
    PrefixOf("amount_", code + "_" + a);
    DecodeAmountPrefix(data);
    IntToStringOmits(amount, '_');
    SplitTwo(code, a, '_');
  }

  /** The as-written decoder keeps only the text up to the code's first
      `_`: a button for the code `a_b` decodes to the code `a`. */
  lemma CryptoMisreadsUnderscore(a: string, b: string)
    requires '_' !in a && '_' !in b && |a| + |b| <= 52
    ensures Decode(CryptoData(a + "_" + b)) == CryptoTap(a)
  {
    var code := a + "_" + b;
    CryptoDataShort(code);
    PrefixOf("crypto_", code);
    DecodeCryptoPrefix("crypto_" + code);
    SplitTwo(a, b, '_');
  }

  /** So the button `crypto_usdt_trc20` decodes to the code `usdt`. */
  lemma UsdtTrc20CryptoMisread()
    ensures Decode(CryptoData(USDT_TRC20_CODE)) == CryptoTap("usdt")
  {
    assert USDT_TRC20_CODE == "usdt" + "_" + "trc20";
    CryptoMisreadsUnderscore("usdt", "trc20");
  }

  /** ... and an amount button for it decodes to the code `usdt` with the
      amount `trc20`. */
  lemma UsdtTrc20AmountMisread(amount: int)
    ensures Decode(AmountData(USDT_TRC20_CODE, amount)) == AmountTap("usdt", Some("trc20"))
  {
    var a := IntToString(amount);
    var data := AmountData(USDT_TRC20_CODE, amount);
    assert data == "amount_" + ("usdt" + "_" + ("trc20" + "_" + a));
    PrefixOf("amount_", "usdt" + "_" + ("trc20" + "_" + a));
    DecodeAmountPrefix(data);
    IntToStringOmits(amount, '_');
    assert "usdt" + "_" + ("trc20" + "_" + a) == "usdt" + ['_'] + "trc20" + ['_'] + a;
    SplitThree("usdt", "trc20", a, '_');
  }

  /** The corrected decoder recovers every crypto code whose button fits the limit. */
  lemma CryptoRoundTripCorrected(code: string)
    requires Utf8Length("crypto_" + code) <= MAX_CALLBACK_BYTES
    ensures DecodeCorrected(CryptoData(code)) == CryptoTap(code)
  {
    PrefixOf("crypto_", code);
  }

  /** The corrected decoder recovers every code and amount of an amount button. */
  lemma AmountRoundTripCorrected(code: string, amount: int)
    ensures DecodeCorrected(AmountData(code, amount)) == AmountTap(code, Some(IntToString(amount)))
  {
    var a := IntToString(amount);
    var data := AmountData(code, amount);
    assert data == "amount_" + (code + "_" + a);
    PrefixOf("amount_", code + "_" + a);
    Differs(data, "amount_", "crypto_", 0);
    HeadSplit(data, "amount");
    assert data[7..] == code + ['_'] + a;
    SplitAppend(code, '_', a);
    IntToStringOmits(amount, '_');
    SplitNoSep(a, '_');
    var parts := Split(data, '_');
    var codeParts := Split(code, '_');
    assert parts == ["amount"] + codeParts + [a];
    assert parts[1..|parts| - 1] == codeParts;
    JoinSplit(code, '_');
  }

  /** Where the code has no `_`, the two decoders agree on crypto buttons. */
  lemma CorrectedAgreesOnPlainCrypto(code: string)
    requires '_' !in code && Utf8Length("crypto_" + code) <= MAX_CALLBACK_BYTES
    ensures DecodeCorrected(CryptoData(code)) == Decode(CryptoData(code))
  {
    CryptoRoundTrip(code);
    CryptoRoundTripCorrected(code);
  }

  /** Where the code has no `_`, the two decoders agree on amount buttons too. */
  lemma CorrectedAgreesOnPlainAmount(code: string, amount: int)
    requires '_' !in code
    ensures DecodeCorrected(AmountData(code, amount)) == Decode(AmountData(code, amount))
  {
    AmountRoundTrip(code, amount);
    AmountRoundTripCorrected(code, amount);
  }
}
