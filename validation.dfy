/**
 * The input validators of utils/validation.js. Each is a chain of early
 * returns; the limits come from utils/constants.js. Amounts arrive already
 * parsed (`parseFloat` is not part of this model).
 */
module Validation {
  import opened Js
  import opened Text
  import opened Helpers

  const MIN_DEPOSIT: int := 1
  const MAX_DEPOSIT: int := 10000
  const MAX_SEARCH_LENGTH: nat := 100

  // ---------------------------------------------------------------------
  // validateDepositAmount
  // ---------------------------------------------------------------------

  datatype DepositCheck = DepositValid(amount: real) | DepositInvalid(error: string)

  const NOT_A_NUMBER: string := "Please enter a valid number"
  const BELOW_MIN_DEPOSIT: string := "Minimum deposit is $" + IntToString(MIN_DEPOSIT)
  const ABOVE_MAX_DEPOSIT: string := "Maximum deposit is $" + IntToString(MAX_DEPOSIT)

  /** NaN first, then the minimum, then the maximum. */
  function ValidateDepositAmount(num: RealOrNaN): (r: DepositCheck)
    ensures r.DepositValid? <==> num.Real? && MIN_DEPOSIT as real <= num.value <= MAX_DEPOSIT as real
    ensures r.DepositValid? ==> r.amount == num.value
    ensures num.RealNaN? ==> r == DepositInvalid(NOT_A_NUMBER)
    ensures num.Real? && num.value < MIN_DEPOSIT as real ==> r == DepositInvalid(BELOW_MIN_DEPOSIT)
    ensures num.Real? && num.value > MAX_DEPOSIT as real ==> r == DepositInvalid(ABOVE_MAX_DEPOSIT)
  {
    match num
    case RealNaN => DepositInvalid(NOT_A_NUMBER)
    case Real(n) =>
      if n < MIN_DEPOSIT as real then DepositInvalid(BELOW_MIN_DEPOSIT)
      else if n > MAX_DEPOSIT as real then DepositInvalid(ABOVE_MAX_DEPOSIT)
      else DepositValid(n)
  }

  /** The error texts render the constants. */
  lemma DepositMessages()
    ensures BELOW_MIN_DEPOSIT == "Minimum deposit is $1"
    ensures ABOVE_MAX_DEPOSIT == "Maximum deposit is $10000"
  {
    assert IntToString(MAX_DEPOSIT) == "10000" by {
      assert NatToString(10000) == NatToString(1000) + "0";
      assert NatToString(1000) == NatToString(100) + "0";
      assert NatToString(100) == NatToString(10) + "0";
      assert NatToString(10) == "10";
    }
  }

  /** The deposit check and `validateAmount` agree except between 0 and 1,
      where only the latter accepts. */
  lemma DepositAgreesWithValidateAmount(num: RealOrNaN)
    ensures ValidateDepositAmount(num).DepositValid? <==> ValidateAmount(num) && num.value >= 1.0
    ensures ValidateAmount(num) && !ValidateDepositAmount(num).DepositValid? ==> num.value < 1.0
  {
  }

  // ---------------------------------------------------------------------
  // validateSearchQuery
  // ---------------------------------------------------------------------

  datatype SearchCheck = SearchValid(query: string) | SearchInvalid(error: string)

  const EMPTY_QUERY: string := "Search query cannot be empty"
  const LONG_QUERY: string := "Search query too long (max " + IntToString(MAX_SEARCH_LENGTH) + " characters)"

  /** `s.replace(/[<>]/g, '')`. */
  function RemoveAngles(s: string): (r: string)
    ensures '<' !in r && '>' !in r
    ensures |r| <= |s|
    ensures forall c :: c in r ==> c in s
    ensures '<' !in s && '>' !in s ==> r == s
  {
    if s == [] then []
    else if s[0] == '<' || s[0] == '>' then RemoveAngles(s[1..])
    else
      var rest := RemoveAngles(s[1..]);
      assert s == [s[0]] + s[1..];
      [s[0]] + rest
  }

  /** The removal works character by character: cleaning a concatenation is
      concatenating the cleaned parts, so the kept characters stay in order. */
  lemma {:induction false} RemoveAnglesConcat(a: string, b: string)
    ensures RemoveAngles(a + b) == RemoveAngles(a) + RemoveAngles(b)
  {
    if a == [] {
      assert a + b == b;
    } else {
      var ab := a + b;
      assert ab[1..] == a[1..] + b && ab[0] == a[0];
      RemoveAnglesConcat(a[1..], b);
      if a[0] == '<' || a[0] == '>' {
        assert RemoveAngles(ab) == RemoveAngles(a[1..] + b);
      } else {
        assert RemoveAngles(ab) == [a[0]] + RemoveAngles(a[1..] + b);
        assert RemoveAngles(a) == [a[0]] + RemoveAngles(a[1..]);
      }
    }
  }

  /** Every character other than a bracket is kept as often as it occurs. */
  lemma {:induction false} RemoveAnglesCounts(s: string)
    ensures forall c :: multiset(RemoveAngles(s))[c] == if c == '<' || c == '>' then 0 else multiset(s)[c]
  {
    if s != [] {
      RemoveAnglesCounts(s[1..]);
      assert s == [s[0]] + s[1..];
    }
  }

  /** One character is dropped iff it is an angle bracket. */
  lemma RemoveAnglesSingle(c: char)
    ensures RemoveAngles([c]) == if c == '<' || c == '>' then [] else [c]
  {
    assert [c][1..] == [];
  }

  /** An absent, empty or all-white-space query is refused, then one longer
      than 100 characters before any cleaning; otherwise the query with its
      angle brackets removed and trimmed. */
  function ValidateSearchQuery(query: Option<string>): (r: SearchCheck)
    ensures r.SearchValid? <==> query.Some? && Trim(query.value) != [] && |query.value| <= MAX_SEARCH_LENGTH
    ensures (query.None? || Trim(query.value) == []) ==> r == SearchInvalid(EMPTY_QUERY)
    ensures query.Some? && Trim(query.value) != [] && |query.value| > MAX_SEARCH_LENGTH ==> r == SearchInvalid(LONG_QUERY)
    ensures r.SearchValid? ==> r.query == Trim(RemoveAngles(query.value))
    ensures r.SearchValid? ==> '<' !in r.query && '>' !in r.query && |r.query| <= |query.value|
    ensures r.SearchValid? && r.query != [] ==> !IsSpace(r.query[0]) && !IsSpace(r.query[|r.query| - 1])
  {
    if query.None? || query.value == [] || |Trim(query.value)| == 0 then SearchInvalid(EMPTY_QUERY)
    else if |query.value| > MAX_SEARCH_LENGTH then SearchInvalid(LONG_QUERY)
    else
      CleanedQuery(query.value);
      SearchValid(Trim(RemoveAngles(query.value)))
  }

  /** What cleaning leaves of a query: no bracket, no more characters than
      before, and no white space at either end. */
  lemma CleanedQuery(query: string)
    ensures var r := Trim(RemoveAngles(query));
            && '<' !in r && '>' !in r && |r| <= |query|
            && (r == [] || (!IsSpace(r[0]) && !IsSpace(r[|r| - 1])))
  {
    var cleaned := RemoveAngles(query);
    var r, i := Trim(cleaned), |cleaned| - |TrimStart(cleaned)|;
    TrimSlice(cleaned);
    forall k | 0 <= k < |r|
      ensures r[k] != '<' && r[k] != '>'
    {
      assert r[k] == cleaned[i + k];
    }
    TrimEdges(cleaned);
  }

  /** A query of angle brackets only passes the emptiness test, which runs
      before cleaning, and comes back empty. */
  lemma AngleOnlyQueryBecomesEmpty(query: string)
    requires query != [] && |query| <= MAX_SEARCH_LENGTH
    requires forall i :: 0 <= i < |query| ==> query[i] == '<' || query[i] == '>'
    ensures ValidateSearchQuery(Some(query)) == SearchValid("")
  {
    assert !IsSpace(query[0]);
    TrimUnspacedKeepsSome(query);
    AnglesOnlyRemoved(query);
  }

  lemma {:induction false} AnglesOnlyRemoved(s: string)
    requires forall i :: 0 <= i < |s| ==> s[i] == '<' || s[i] == '>'
    ensures RemoveAngles(s) == []
  {
    if s != [] {
      AnglesOnlyRemoved(s[1..]);
    }
  }

  // ---------------------------------------------------------------------
  // validateCallbackData
  // ---------------------------------------------------------------------

  datatype CallbackCheck = CallbackValid(action: string, params: seq<string>) | CallbackInvalid(error: string)

  const INVALID_CALLBACK: string := "Invalid callback data"
  const EMPTY_CALLBACK: string := "Empty callback data"

  /** `data` is `None` when it is not a string. */
  function ValidateCallbackData(data: Option<string>): CallbackCheck {
    if data.None? || data.value == [] then CallbackInvalid(INVALID_CALLBACK)
    else
      var parts := Split(data.value, '_');
      if |parts| == 0 then CallbackInvalid(EMPTY_CALLBACK)
      else CallbackValid(parts[0], parts[1..])
  }

  /** Exactly the non-empty strings are accepted, the "Empty callback data"
      branch is never taken, and action and params re-joined with `_` give
      the data back. */
  lemma CallbackDataRoundTrip(data: Option<string>)
    ensures var r := ValidateCallbackData(data);
            && (r.CallbackValid? <==> data.Some? && data.value != [])
            && r != CallbackInvalid(EMPTY_CALLBACK)
            && (r.CallbackValid? ==> Join([r.action] + r.params, '_') == data.value && '_' !in r.action)
  {
    if data.Some? && data.value != [] {
      var parts := Split(data.value, '_');
      JoinSplit(data.value, '_');
      assert [parts[0]] + parts[1..] == parts;
    }
  }

  // ---------------------------------------------------------------------
  // validateUserId and validateProductId
  // ---------------------------------------------------------------------

  /** A value that may or may not be a number: `None` for any other type. */
  type MaybeNumber = Option<RealOrNaN>

  /** Truthy, of type number, and positive. */
  predicate ValidateUserId(userId: MaybeNumber) {
    userId.Some? && userId.value.Real? && userId.value.value != 0.0 && userId.value.value > 0.0
  }

  /** The truthiness test adds nothing: a number id is valid iff it is positive. */
  lemma UserIdPositive(userId: MaybeNumber)
    ensures ValidateUserId(userId) <==> userId.Some? && userId.value.Real? && userId.value.value > 0.0
    ensures ValidateUserId(userId) ==> userId != Some(RealNaN)
  {
  }

  /** `parseInt` gives a positive number. */
  predicate ValidateProductId(productId: string) {
    var id := ParseInt(productId);
    id.Int? && id.value > 0
  }

  /** A rendered integer is a valid product id iff it is positive. */
  lemma ProductIdOfRendered(n: int)
    ensures ValidateProductId(IntToString(n)) <==> n > 0
  {
    ParseIntToString(n);
  }

  /** Trailing text after the digits does not matter, as with `parseInt`. */
  lemma ProductIdIgnoresSuffix(n: nat, suffix: string)
    requires suffix == [] || !IsDigit(suffix[0])
    ensures ValidateProductId(NatToString(n) + suffix) <==> n > 0
  {
    ParseIntDigitsPrefix(NatToString(n), suffix);
    NatToStringValue(n);
  }
}
