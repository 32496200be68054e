/**
 * The inline keyboards of utils/keyboards.js. Each button carries either
 * callback data (the string the dispatcher decodes when the button is
 * tapped) or a URL. The builders are functions of their arguments; the two
 * that the source writes as loops are methods proved equal to their layout.
 */
module Keyboards {
  import opened Js
  import opened Text

  datatype Action = Callback(data: string) | Url(url: Option<string>)

  datatype Button = Button(text: string, action: Action)

  /** The `reply_markup` of a keyboard: rows of buttons. */
  datatype Markup = Markup(inlineKeyboard: seq<seq<Button>>)

  function CallbackButton(text: string, data: string): Button {
    Button(text, Callback(data))
  }

  /** Telegram's limit on callback data, in UTF-8 bytes. */
  const MAX_CALLBACK_BYTES: nat := 64

  // ---------------------------------------------------------------------
  // Static menus
  // ---------------------------------------------------------------------

  const MAIN_MENU: Markup := Markup([
    [CallbackButton("🛒 Shop", "shop"), CallbackButton("💰 Wallet", "wallet"), CallbackButton("💸 Deposit", "deposit")],
    [CallbackButton("📞 Help & Support", "help_support")]])

  /** The help menu; the two links come from the process environment and may be unset. */
  function HelpMenu(supportContact: Option<string>, channelLink: Option<string>): (m: Markup)
    ensures |m.inlineKeyboard| == 3 && m.inlineKeyboard[2] == [BACK_TO_MAIN_BUTTON]
    ensures |m.inlineKeyboard[0]| == 1 && m.inlineKeyboard[0][0].action == Url(supportContact)
    ensures |m.inlineKeyboard[1]| == 1 && m.inlineKeyboard[1][0].action == Url(channelLink)
  {
    Markup([
      [Button("💬 Contact Support", Url(supportContact))],
      [Button("📢 Join Channel", Url(channelLink))],
      [BACK_TO_MAIN_BUTTON]])
  }

  const BACK_TO_MAIN_BUTTON: Button := CallbackButton("⬅️ Back to Main", "main_menu")
  const BACK_TO_SHOP_BUTTON: Button := CallbackButton("⬅️ Back to Shop", "shop")
  const NO_ACTION_TEXT_CATEGORIES: string := "❌ No categories available"

  const BACK_TO_MAIN: Markup := Markup([[BACK_TO_MAIN_BUTTON]])
  const BACK_TO_SHOP: Markup := Markup([[BACK_TO_SHOP_BUTTON]])
  const BACK_TO_HELP: Markup := Markup([[CallbackButton("⬅️ Back to Help", "help_support")]])

  // ---------------------------------------------------------------------
  // validateAndFixKeyboard
  // ---------------------------------------------------------------------

  /** Callback data over 64 UTF-8 bytes becomes its first 60 characters plus `_trunc`. */
  function FixData(data: string): string {
    if Utf8Length(data) > MAX_CALLBACK_BYTES then Prefix(data, 60) + "_trunc" else data
  }

  /** Data within the limit is left alone. */
  lemma FixDataShort(data: string)
    requires Utf8Length(data) <= MAX_CALLBACK_BYTES
    ensures FixData(data) == data
  {
  }

  /** Over-long ASCII data becomes exactly 66 characters (and 66 bytes): the
      repair does not bring it under the limit. */
  lemma FixDataLongAscii(data: string)
    requires IsAscii(data) && |data| > MAX_CALLBACK_BYTES
    ensures FixData(data) == data[..60] + "_trunc"
    ensures |FixData(data)| == 66 && Utf8Length(FixData(data)) == 66
  {
    AsciiUtf8Length(data);
    var r := data[..60] + "_trunc";
    assert IsAscii(r) by {
      forall i | 0 <= i < |r| ensures r[i] as int < 128 {
        if i < 60 { assert r[i] == data[i]; }
      }
    }
    AsciiUtf8Length(r);
  }

  /** Repairing twice is repairing once, for data of 60 characters or more. */
  lemma FixDataIdempotent(data: string)
    requires Utf8Length(data) <= MAX_CALLBACK_BYTES || |data| >= 60
    ensures FixData(FixData(data)) == FixData(data)
  {
    if Utf8Length(data) > MAX_CALLBACK_BYTES {
      var r := data[..60] + "_trunc";
      assert |r| == 66;
      assert Utf8Length(r) >= 66;
      assert r[..60] == data[..60];
    }
  }

  /** A button after the repair; URL buttons are returned as they are. */
  function FixButton(b: Button): Button {
    match b.action
    case Callback(d) => Button(b.text, Callback(FixData(d)))
    case Url(_) => b
  }

  /** Every button carries callback data (a URL button has none, and the
      source fails on it when measuring its length). */
  predicate AllCallbacks(rows: seq<seq<Button>>) {
    forall r, c :: 0 <= r < |rows| && 0 <= c < |rows[r]| ==> rows[r][c].action.Callback?
  }

  function FixRows(rows: seq<seq<Button>>): seq<seq<Button>> {
    seq(|rows|, r requires 0 <= r < |rows| => seq(|rows[r]|, c requires 0 <= c < |rows[r]| => FixButton(rows[r][c])))
  }

  /** `validateAndFixKeyboard`: `None` stands for the exception raised on a URL button. */
  function FixMarkup(m: Markup): Option<Markup> {
    if AllCallbacks(m.inlineKeyboard) then Some(Markup(FixRows(m.inlineKeyboard))) else None
  }

  /** The repair keeps every row, every button and every label; only
      over-long callback data changes. */
  lemma FixMarkupShape(m: Markup)
    requires AllCallbacks(m.inlineKeyboard)
    ensures FixMarkup(m).Some?
    ensures var rows, fixed := m.inlineKeyboard, FixMarkup(m).value.inlineKeyboard;
            && |fixed| == |rows|
            && (forall r :: 0 <= r < |rows| ==> |fixed[r]| == |rows[r]|)
            && (forall r, c :: 0 <= r < |rows| && 0 <= c < |rows[r]| ==>
                  fixed[r][c].text == rows[r][c].text
                  && fixed[r][c].action == Callback(FixData(rows[r][c].action.data)))
  {
  }

  /** `validateAndFixKeyboard`, walking rows and buttons. */
  method ValidateAndFixKeyboard(keyboard: Markup) returns (fixed: Option<Markup>)
    ensures fixed == FixMarkup(keyboard)
  {
    var rows := keyboard.inlineKeyboard;
    var done: seq<seq<Button>> := [];
    var r := 0;
    while r < |rows|
      invariant 0 <= r <= |rows|
      invariant |done| == r
      invariant forall i :: 0 <= i < r ==> done[i] == FixRows(rows)[i]
      invariant forall i, c :: 0 <= i < r && 0 <= c < |rows[i]| ==> rows[i][c].action.Callback?
    {
      var row := rows[r];
      var newRow: seq<Button> := [];
      var c := 0;
      while c < |row|
        invariant 0 <= c <= |row|
        invariant |newRow| == c
        invariant forall j :: 0 <= j < c ==> newRow[j] == FixButton(row[j])
        invariant forall j :: 0 <= j < c ==> row[j].action.Callback?
      {
        var button := row[c];
        if button.action.Url? {
          assert !AllCallbacks(rows) by { assert rows[r][c] == button; }
          return None;
        }
        var callbackData := button.action.data;
        var length := Utf8Length(callbackData);
        if length > MAX_CALLBACK_BYTES {
          newRow := newRow + [Button(button.text, Callback(Prefix(callbackData, 60) + "_trunc"))];
        } else {
          newRow := newRow + [button];
        }
        c := c + 1;
      }
      assert newRow == FixRows(rows)[r];
      done := done + [newRow];
      r := r + 1;
    }
    assert done == FixRows(rows);
    fixed := Some(Markup(done));
  }

  // ---------------------------------------------------------------------
  // Categories
  // ---------------------------------------------------------------------

  /** A product category as the backend lists it (`price` is shown as text). */
  datatype Category = Category(id: string, base: string, price: string)

  function CategoryData(index: nat): string {
    "category_" + IntToString(index)
  }

  function CategoryButton(c: Category, index: nat): Button {
    CallbackButton(c.base + " - " + c.price, CategoryData(index))
  }

  /** `createCategoriesKeyboard`. */
  function CategoriesKeyboard(categories: Option<seq<Category>>): (m: Markup)
    ensures categories.None? || categories.value == [] ==>
              m.inlineKeyboard == [[CallbackButton(NO_ACTION_TEXT_CATEGORIES, "no_action")], [BACK_TO_MAIN_BUTTON]]
    ensures categories.Some? && categories.value != [] ==>
              var cats := categories.value;
              && |m.inlineKeyboard| == |cats| + 1
              && (forall i :: 0 <= i < |cats| ==> m.inlineKeyboard[i] == [CategoryButton(cats[i], i)])
              && m.inlineKeyboard[|cats|] == [BACK_TO_MAIN_BUTTON]
  {
    if categories.None? || categories.value == [] then
      Markup([[CallbackButton(NO_ACTION_TEXT_CATEGORIES, "no_action")], [BACK_TO_MAIN_BUTTON]])
    else
      var cats := categories.value;
      Markup(seq(|cats|, i requires 0 <= i < |cats| => [CategoryButton(cats[i], i)]) + [[BACK_TO_MAIN_BUTTON]])
  }

  // ---------------------------------------------------------------------
  // States
  // ---------------------------------------------------------------------

  const STATES: seq<string> :=
    ["AL", "AK", "AZ", "AR", "CA", "CO", "CT", "DE", "FL", "GA"] +
    ["HI", "ID", "IL", "IN", "IA", "KS", "KY", "LA", "ME", "MD"] +
    ["MA", "MI", "MN", "MS", "MO", "MT", "NE", "NV", "NH", "NJ"] +
    ["NM", "NY", "NC", "ND", "OH", "OK", "OR", "PA", "RI", "SC"] +
    ["SD", "TN", "TX", "UT", "VT", "VA", "WA", "WV", "WI", "WY"]

  function StateData(state: string): string {
    "state_" + state
  }

  function StateButton(state: string): Button {
    CallbackButton(state, StateData(state))
  }

  const SKIP_STATE_BUTTON: Button := CallbackButton("⏭️ Skip State Filter", "skip_state")

  /** `createStateFilterKeyboard`: the 50 states in ten rows of five, then
      the skip row and the back-to-shop row. */
  method CreateStateFilterKeyboard() returns (m: Markup)
    ensures |m.inlineKeyboard| == 12
    ensures forall r :: 0 <= r < 10 ==> |m.inlineKeyboard[r]| == 5
    ensures forall r, c :: 0 <= r < 10 && 0 <= c < 5 ==> m.inlineKeyboard[r][c] == StateButton(STATES[5 * r + c])
    ensures m.inlineKeyboard[10] == [SKIP_STATE_BUTTON] && m.inlineKeyboard[11] == [BACK_TO_SHOP_BUTTON]
  {
    var states := STATES;
    assert |states| == 50;
    var keyboard := StateRows(states);
    keyboard := keyboard + [[SKIP_STATE_BUTTON]];
    keyboard := keyboard + [[BACK_TO_SHOP_BUTTON]];
    m := Markup(keyboard);
  }

  /** The loop of `createStateFilterKeyboard`: the states sliced five at a
      time, the last row holding what is left. */
  method StateRows(states: seq<string>) returns (rows: seq<seq<Button>>)
    ensures |rows| == (|states| + 4) / 5
    ensures forall r :: 0 <= r < |rows| ==>
              |rows[r]| == Min(5, |states| - 5 * r)
              && forall c :: 0 <= c < |rows[r]| ==> rows[r][c] == StateButton(states[5 * r + c])
  {
    rows := [];
    var i := 0;
    while i < |states|
      invariant 0 <= i && i % 5 == 0 && (i <= |states| || i < |states| + 5)
      invariant i == 5 * |rows|
      invariant forall r :: 0 <= r < |rows| ==>
                  |rows[r]| == Min(5, |states| - 5 * r)
                  && forall c :: 0 <= c < |rows[r]| ==> rows[r][c] == StateButton(states[5 * r + c])
      decreases |states| - i
    {
      var slice := states[i..Min(i + 5, |states|)];
      var row := seq(|slice|, k requires 0 <= k < |slice| => StateButton(slice[k]));
      rows := rows + [row];
      i := i + 5;
    }
  }

  // ---------------------------------------------------------------------
  // Year ranges
  // ---------------------------------------------------------------------

  const FIRST_YEAR: int := 1965
  const LAST_YEAR: int := 2011

  /** The end of the range starting at `year`, clipped to 2011. */
  function EndYear(year: int): int {
    Min(year + 4, LAST_YEAR)
  }

  function YearRangeData(year: int, endYear: int): string {
    "year_range_" + IntToString(year) + "_" + IntToString(endYear)
  }

  function YearButton(year: int): Button {
    CallbackButton(IntToString(year) + "-" + IntToString(EndYear(year)), YearRangeData(year, EndYear(year)))
  }

  const SKIP_YEAR_BUTTON: Button := CallbackButton("⏭️ Skip Year Filter", "skip_year")
  const BACK_TO_CATEGORIES_BUTTON: Button := CallbackButton("⬅️ Back to Categories", "shop")

  /** The first loop of `createYearRangeKeyboard`: a button for every fifth
      year from `first` while the year is at most `last`. */
  method YearRanges(first: int, last: int) returns (buttons: seq<Button>)
    ensures forall k :: 0 <= k < |buttons| ==> buttons[k] == YearButton(first + 5 * k)
    ensures |buttons| > 0 ==> first + 5 * (|buttons| - 1) <= last
    ensures last < first + 5 * |buttons|
  {
    buttons := [];
    var year := first;
    while year <= last
      invariant year == first + 5 * |buttons|
      invariant |buttons| > 0 ==> first + 5 * (|buttons| - 1) <= last
      invariant forall k :: 0 <= k < |buttons| ==> buttons[k] == YearButton(first + 5 * k)
      decreases last - year
    {
      ghost var before := buttons;
      buttons := buttons + [YearButton(year)];
      forall k | 0 <= k < |buttons| ensures buttons[k] == YearButton(first + 5 * k) {
        if k < |before| {
          assert buttons[k] == before[k];
        } else {
          assert k == |before| && first + 5 * k == year;
        }
      }
      year := year + 5;
    }
  }

  /** The second loop: the buttons in rows of two, the last row alone when
      the count is odd. */
  method RowsOfTwo(buttons: seq<Button>) returns (rows: seq<seq<Button>>)
    ensures |rows| == (|buttons| + 1) / 2
    ensures forall r :: 0 <= r < |rows| && 2 * r + 1 < |buttons| ==> rows[r] == [buttons[2 * r], buttons[2 * r + 1]]
    ensures forall r :: 0 <= r < |rows| && 2 * r + 1 == |buttons| ==> rows[r] == [buttons[2 * r]]
  {
    rows := [];
    var i := 0;
    while i < |buttons|
      invariant 0 <= i <= |buttons| + 1 && i % 2 == 0
      invariant |rows| == i / 2
      invariant forall r :: 0 <= r < |rows| && 2 * r + 1 < |buttons| ==> rows[r] == [buttons[2 * r], buttons[2 * r + 1]]
      invariant forall r :: 0 <= r < |rows| && 2 * r + 1 == |buttons| ==> rows[r] == [buttons[2 * r]]
    {
      var row := [buttons[i]];
      if i + 1 < |buttons| {
        row := row + [buttons[i + 1]];
      }
      rows := rows + [row];
      i := i + 2;
    }
  }

  /** `createYearRangeKeyboard`: ranges starting 1965, 1970, ..., 2010 in rows
      of two, then the skip row and the back row. `baseId` is not used. */
  method CreateYearRangeKeyboard(baseId: string) returns (m: Markup)
    ensures |m.inlineKeyboard| == 7
    ensures forall r :: 0 <= r < 5 ==>
              m.inlineKeyboard[r] == [YearButton(FIRST_YEAR + 10 * r), YearButton(FIRST_YEAR + 10 * r + 5)]
    ensures m.inlineKeyboard[5] == [SKIP_YEAR_BUTTON] && m.inlineKeyboard[6] == [BACK_TO_CATEGORIES_BUTTON]
  {
    var yearRanges := YearRanges(FIRST_YEAR, LAST_YEAR);
    assert |yearRanges| == 10;
    var keyboard := RowsOfTwo(yearRanges);
    forall r | 0 <= r < 5
      ensures keyboard[r] == [YearButton(FIRST_YEAR + 10 * r), YearButton(FIRST_YEAR + 10 * r + 5)]
    {
      assert keyboard[r] == [yearRanges[2 * r], yearRanges[2 * r + 1]];
      assert yearRanges[2 * r] == YearButton(FIRST_YEAR + 10 * r);
      assert yearRanges[2 * r + 1] == YearButton(FIRST_YEAR + 10 * r + 5);
    }
    keyboard := keyboard + [[SKIP_YEAR_BUTTON]];
    keyboard := keyboard + [[BACK_TO_CATEGORIES_BUTTON]];
    m := Markup(keyboard);
  }

  /** The ten ranges tile 1965-2011: consecutive, each at most five years,
      the last one clipped to 2011. */
  lemma YearRangesTile(k: nat)
    requires k < 10
    ensures var y := FIRST_YEAR + 5 * k;
            && y <= EndYear(y) <= y + 4
            && (k < 9 ==> EndYear(y) + 1 == y + 5)
            && (k == 9 ==> EndYear(y) == LAST_YEAR)
  {
  }

  // ---------------------------------------------------------------------
  // Quantity and checkout
  // ---------------------------------------------------------------------

  const AVAILABLE_LABEL: string := "📦 Available: "

  /** `createQuantityKeyboard`; `filters` is not used. The caption shows the
      available quantity. */
  function QuantityKeyboard(availableQuantity: int): (m: Markup)
    ensures |m.inlineKeyboard| == 2 && m.inlineKeyboard[1] == [BACK_TO_SHOP_BUTTON]
    ensures |m.inlineKeyboard[0]| == 1 && m.inlineKeyboard[0][0].action == Callback("no_action")
    ensures m.inlineKeyboard[0][0].text == AVAILABLE_LABEL + IntToString(availableQuantity)
  {
    Markup([
      [CallbackButton(AVAILABLE_LABEL + IntToString(availableQuantity), "no_action")],
      [BACK_TO_SHOP_BUTTON]])
  }

  /** The caption of the quantity keyboard starts with its label, and the
      rest parses back to the available quantity it was built from. */
  lemma QuantityCaptionReadsBack(availableQuantity: int)
    ensures var caption := QuantityKeyboard(availableQuantity).inlineKeyboard[0][0].text;
            && |AVAILABLE_LABEL| <= |caption| && caption[..|AVAILABLE_LABEL|] == AVAILABLE_LABEL
            && ParseInt(caption[|AVAILABLE_LABEL|..]) == Int(availableQuantity)
  {
    var caption := AVAILABLE_LABEL + IntToString(availableQuantity);
    assert caption[|AVAILABLE_LABEL|..] == IntToString(availableQuantity);
    ParseIntToString(availableQuantity);
  }

  function ConfirmCheckoutData(quantity: int): string {
    "confirm_checkout_" + IntToString(quantity)
  }

  function CheckoutData(quantity: int): string {
    "checkout_" + IntToString(quantity)
  }

  const CANCEL_BUTTON: Button := CallbackButton("❌ Cancel", "shop")

  /** `createCheckoutKeyboard`: one row, confirm then cancel. */
  function CheckoutKeyboard(quantity: int): (m: Markup)
    ensures |m.inlineKeyboard| == 1 && |m.inlineKeyboard[0]| == 2
    ensures m.inlineKeyboard[0][1] == CANCEL_BUTTON
    ensures m.inlineKeyboard[0][0].action ==
              if Utf8Length(ConfirmCheckoutData(quantity)) <= MAX_CALLBACK_BYTES
              then Callback(ConfirmCheckoutData(quantity)) else Callback(CheckoutData(quantity))
  {
    var callbackData := ConfirmCheckoutData(quantity);
    if Utf8Length(callbackData) > MAX_CALLBACK_BYTES then
      Markup([[CallbackButton("✅ Confirm Purchase", CheckoutData(quantity)), CANCEL_BUTTON]])
    else
      Markup([[CallbackButton("✅ Confirm Purchase", callbackData), CANCEL_BUTTON]])
  }

  // ---------------------------------------------------------------------
  // Currencies
  // ---------------------------------------------------------------------

  /** One entry of a currency list: a bare code such as `"LTC"`, an object
      (`""` for a falsy field), or any other value by its `String()` form. */
  datatype CurrencyItem =
    | Code(s: string)
    | Coin(code: string, symbol: string, name: string)
    | Other(repr: string)

  /** The shapes the payment backend may answer with: nothing, a bare array,
      or an object that may have `data.selectedCurrencies` and/or
      `selectedCurrencies` (an array, even an empty one, is truthy). */
  datatype CurrencyPayload =
    | NoPayload
    | List(items: seq<CurrencyItem>)
    | Object(dataSelected: Option<seq<CurrencyItem>>, selected: Option<seq<CurrencyItem>>)

  /** The list the keyboard is built from, taking the first shape present. */
  function CurrencyList(p: CurrencyPayload): (items: seq<CurrencyItem>)
    ensures p.Object? && p.dataSelected.Some? ==> items == p.dataSelected.value
    ensures p.Object? && p.dataSelected.None? ==> items == p.selected.GetOr([])
    ensures p.List? ==> items == p.items
    ensures p.NoPayload? ==> items == []
  {
    match p
    case NoPayload => []
    case List(items) => items
    case Object(dataSelected, selected) =>
      if dataSelected.Some? then dataSelected.value
      else if selected.Some? then selected.value
      else []
  }

  const USDT_TRC20_CODE: string := "usdt_trc20"

  /** The label and the currency code a list entry is shown with. */
  function CurrencyLabel(item: CurrencyItem): (string, string) {
    match item
    case Code(s) =>
      if ToLower(s) == "usdttrc20" then ("USDT (TRC20)", USDT_TRC20_CODE)
      else (ToUpper(s), ToLower(s))
    case Coin(code, symbol, name) =>
      if code != "" || symbol != "" then
        var c := if code != "" then code else symbol;
        var n := if name != "" then name else c;
        (ToUpper(c) + " - " + n, ToLower(c))
      else ("[OBJECT OBJECT]", "[object object]")
    case Other(repr) => (ToUpper(repr), ToLower(repr))
  }

  function CryptoData(code: string): string {
    var data := "crypto_" + code;
    if Utf8Length(data) > MAX_CALLBACK_BYTES then Prefix(data, 60) else data
  }

  function CryptoButton(item: CurrencyItem): Button {
    var labelled := CurrencyLabel(item);
    CallbackButton(labelled.0, CryptoData(labelled.1))
  }

  const NO_CURRENCIES: string := "❌ No currencies available"

  /** `createCryptoKeyboard`. */
  function CryptoKeyboard(p: CurrencyPayload): (m: Markup)
    ensures CurrencyList(p) == [] ==>
              m.inlineKeyboard == [[CallbackButton(NO_CURRENCIES, "no_action")], [BACK_TO_MAIN_BUTTON]]
    ensures CurrencyList(p) != [] ==>
              var items := CurrencyList(p);
              && |m.inlineKeyboard| == |items| + 1
              && (forall i :: 0 <= i < |items| ==> m.inlineKeyboard[i] == [CryptoButton(items[i])])
              && m.inlineKeyboard[|items|] == [BACK_TO_MAIN_BUTTON]
  {
    var items := CurrencyList(p);
    if items == [] then
      Markup([[CallbackButton(NO_CURRENCIES, "no_action")], [BACK_TO_MAIN_BUTTON]])
    else
      Markup(seq(|items|, i requires 0 <= i < |items| => [CryptoButton(items[i])]) + [[BACK_TO_MAIN_BUTTON]])
  }

  /** What the repaired currency keyboard shows: with no currency, the
      notice that there is none; otherwise one button per currency, its
      label kept and its data repaired, above one more row. */
  predicate CurrencyRows(keyboard: Option<Markup>, items: seq<CurrencyItem>) {
    && keyboard.Some?
    && var rows := keyboard.value.inlineKeyboard;
    && (items == [] ==> |rows| == 2 && |rows[0]| == 1 && rows[0][0].text == NO_CURRENCIES)
    && (items != [] ==>
          && |rows| == |items| + 1
          && (forall i :: 0 <= i < |items| ==>
                && |rows[i]| == 1
                && rows[i][0].text == CurrencyLabel(items[i]).0
                && rows[i][0].action == Callback(FixData(CryptoData(CurrencyLabel(items[i]).1)))))
  }

  /** The repair cannot fail on the currency keyboard, and keeps its rows. */
  lemma CryptoKeyboardRepairs(p: CurrencyPayload)
    ensures CurrencyRows(FixMarkup(CryptoKeyboard(p)), CurrencyList(p))
  {
    var raw := CryptoKeyboard(p);
    var items := CurrencyList(p);
    assert AllCallbacks(raw.inlineKeyboard) by {
      forall r, c | 0 <= r < |raw.inlineKeyboard| && 0 <= c < |raw.inlineKeyboard[r]|
        ensures raw.inlineKeyboard[r][c].action.Callback?
      {
        if items != [] && r < |items| {
          assert raw.inlineKeyboard[r] == [CryptoButton(items[r])];
        }
      }
    }
    FixMarkupShape(raw);
  }

  /** Callback data of the crypto buttons never exceeds the limit for ASCII codes. */
  lemma CryptoDataWithinLimit(code: string)
    requires IsAscii(code)
    ensures Utf8Length(CryptoData(code)) <= MAX_CALLBACK_BYTES
  {
    var data := "crypto_" + code;
    assert IsAscii(data) by {
      forall i | 0 <= i < |data| ensures data[i] as int < 128 {
        if i >= 7 { assert data[i] == code[i - 7]; }
      }
    }
    AsciiUtf8Length(data);
    if |data| > MAX_CALLBACK_BYTES {
      var p := Prefix(data, 60);
      assert IsAscii(p) by {
        forall i | 0 <= i < |p| ensures p[i] as int < 128 {
          assert p[i] == data[i];
        }
      }
      AsciiUtf8Length(p);
    }
  }

  /** TRC20 tether, in any letter case, gets the special label and a code with an underscore. */
  lemma UsdtTrc20Button(s: string)
    requires ToLower(s) == "usdttrc20"
    ensures CryptoButton(Code(s)) == CallbackButton("USDT (TRC20)", "crypto_usdt_trc20")
  {
    assert CurrencyLabel(Code(s)) == ("USDT (TRC20)", USDT_TRC20_CODE);
    UsdtTrc20Data();
  }

  lemma UsdtTrc20Data()
    ensures CryptoData(USDT_TRC20_CODE) == "crypto_usdt_trc20"
  {
    CryptoDataWithinLimit(USDT_TRC20_CODE);
    assert "crypto_" + USDT_TRC20_CODE == "crypto_usdt_trc20";
  }

  // ---------------------------------------------------------------------
  // Deposit amounts and products
  // ---------------------------------------------------------------------

  const AMOUNTS: seq<int> := [20, 30, 40, 50, 60, 70, 80, 90, 100, 150, 200, 300, 400, 500]

  function AmountData(cryptoCode: string, amount: int): string {
    "amount_" + cryptoCode + "_" + IntToString(amount)
  }

  function AmountButton(cryptoCode: string, amount: int): Button {
    CallbackButton("$" + IntToString(amount), AmountData(cryptoCode, amount))
  }

  /** The buttons of some rows, row by row. */
  function Flatten(rows: seq<seq<Button>>): seq<Button> {
    if rows == [] then [] else Flatten(rows[..|rows| - 1]) + rows[|rows| - 1]
  }

  /** `createAmountKeyboard`: four rows of three amounts, one row of
      two, then the back-to-deposit row. */
  function AmountKeyboard(cryptoCode: string): (m: Markup)
    ensures |m.inlineKeyboard| == 6
    ensures m.inlineKeyboard[5] == [CallbackButton("⬅️ Back to Crypto", "deposit")]
    ensures forall r :: 0 <= r < 4 ==> |m.inlineKeyboard[r]| == 3
    ensures |m.inlineKeyboard[4]| == 2
  {
    var b := (amount: int) => AmountButton(cryptoCode, amount);
    Markup([
      [b(20), b(30), b(40)],
      [b(50), b(60), b(70)],
      [b(80), b(90), b(100)],
      [b(150), b(200), b(300)],
      [b(400), b(500)],
      [CallbackButton("⬅️ Back to Crypto", "deposit")]])
  }

  /** Read row by row, the first five rows are the fourteen amounts in order. */
  lemma AmountKeyboardButtons(cryptoCode: string)
    ensures var rows := AmountKeyboard(cryptoCode).inlineKeyboard;
            Flatten(rows[..5]) == seq(|AMOUNTS|, i requires 0 <= i < |AMOUNTS| => AmountButton(cryptoCode, AMOUNTS[i]))
  {
    var rows := AmountKeyboard(cryptoCode).inlineKeyboard;
    FlattenFive(rows);
    var flat := rows[0] + rows[1] + rows[2] + rows[3] + rows[4];
    var want := seq(|AMOUNTS|, i requires 0 <= i < |AMOUNTS| => AmountButton(cryptoCode, AMOUNTS[i]));
    assert |flat| == |want| == 14;
    forall i | 0 <= i < 14 ensures flat[i] == want[i] {
      if i < 3 {
        assert flat[i] == rows[0][i];
      } else if i < 6 {
        assert flat[i] == rows[1][i - 3];
      } else if i < 9 {
        assert flat[i] == rows[2][i - 6];
      } else if i < 12 {
        assert flat[i] == rows[3][i - 9];
      } else {
        assert flat[i] == rows[4][i - 12];
      }
    }
  }

  lemma FlattenFive(rows: seq<seq<Button>>)
    requires |rows| >= 5
    ensures Flatten(rows[..5]) == rows[0] + rows[1] + rows[2] + rows[3] + rows[4]
  {
    assert rows[..0] == [];
    FlattenSnoc(rows, 0);
    FlattenSnoc(rows, 1);
    FlattenSnoc(rows, 2);
    FlattenSnoc(rows, 3);
    FlattenSnoc(rows, 4);
  }

  lemma FlattenSnoc(rows: seq<seq<Button>>, k: nat)
    requires k < |rows|
    ensures Flatten(rows[..k + 1]) == Flatten(rows[..k]) + rows[k]
  {
    assert rows[..k + 1][..k] == rows[..k];
  }

  /** A product as the backend lists it. */
  datatype Product = Product(id: string, name: string, price: string)

  /** `createProductList`: at most ten products, then the back-to-shop row. */
  function ProductList(products: Option<seq<Product>>): (m: Markup)
    ensures products.None? || products.value == [] ==>
              m.inlineKeyboard == [[CallbackButton("❌ No products found", "no_action")], [BACK_TO_SHOP_BUTTON]]
    ensures products.Some? && products.value != [] ==>
              var shown := Min(|products.value|, 10);
              && |m.inlineKeyboard| == shown + 1
              && (forall i :: 0 <= i < shown ==>
                    m.inlineKeyboard[i] == [CallbackButton(products.value[i].name + " - $" + products.value[i].price,
                                                           "product_" + products.value[i].id)])
              && m.inlineKeyboard[shown] == [BACK_TO_SHOP_BUTTON]
  {
    if products.None? || products.value == [] then
      Markup([[CallbackButton("❌ No products found", "no_action")], [BACK_TO_SHOP_BUTTON]])
    else
      var shown := products.value[..Min(|products.value|, 10)];
      Markup(seq(|shown|, i requires 0 <= i < |shown| =>
               [CallbackButton(shown[i].name + " - $" + shown[i].price, "product_" + shown[i].id)])
             + [[BACK_TO_SHOP_BUTTON]])
  }
}
