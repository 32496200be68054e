/**
 * The pure helpers of utils/helpers.js: splitting callback data into an
 * action and a value, pagination arithmetic, Markdown escaping and the
 * amount range check.
 */
module Helpers {
  import opened Js
  import opened Text

  // ---------------------------------------------------------------------
  // parseCallbackData
  // ---------------------------------------------------------------------

  datatype Parsed = Parsed(action: string, value: string)

  /** The text before the first `_`, and everything after it re-joined with `_`. */
  function ParseCallbackData(callbackData: string): Parsed {
    var parts := Split(callbackData, '_');
    Parsed(parts[0], if |parts| > 1 then Join(parts[1..], '_') else "")
  }

  /** The action never holds `_`; with a `_` in the input, action and value
      re-joined give the input back, and without one the value is empty. */
  lemma ParseCallbackDataParts(callbackData: string)
    ensures var p := ParseCallbackData(callbackData);
            && '_' !in p.action
            && ('_' in callbackData ==> p.action + "_" + p.value == callbackData)
            && ('_' !in callbackData ==> p.action == callbackData && p.value == "")
  {
    var parts := Split(callbackData, '_');
    JoinSplit(callbackData, '_');
    if '_' !in callbackData {
      SplitNoSep(callbackData, '_');
    }
  }

  // ---------------------------------------------------------------------
  // getPaginationInfo
  // ---------------------------------------------------------------------

  datatype Pagination = Pagination(totalPages: int, hasNext: bool, hasPrev: bool, start: int, end: int)

  /** `Math.ceil(a / b)` for a positive divisor. */
  function CeilDiv(a: int, b: int): (q: int)
    requires b > 0
    ensures (q - 1) * b < a <= q * b
  {
    if a % b == 0 then a / b else a / b + 1
  }

  function GetPaginationInfo(totalItems: int, currentPage: int, itemsPerPage: int): Pagination
    requires itemsPerPage > 0
  {
    var totalPages := CeilDiv(totalItems, itemsPerPage);
    Pagination(totalPages, currentPage < totalPages - 1, currentPage > 0,
               currentPage * itemsPerPage, Min((currentPage + 1) * itemsPerPage, totalItems))
  }

  /** `totalPages` is the fewest pages that hold every item; a page spans at
      most `itemsPerPage` items from `start`; there is a previous page iff
      this is not the first, and a next one iff this is before the last. */
  lemma PaginationBounds(totalItems: int, currentPage: int, itemsPerPage: int)
    requires itemsPerPage > 0
    ensures var p := GetPaginationInfo(totalItems, currentPage, itemsPerPage);
            && (p.totalPages - 1) * itemsPerPage < totalItems <= p.totalPages * itemsPerPage
            && p.start == currentPage * itemsPerPage
            && p.end - p.start <= itemsPerPage
            && p.end <= totalItems
            && (0 <= currentPage && currentPage * itemsPerPage < totalItems ==> p.start < p.end)
            && (p.hasPrev <==> currentPage > 0)
            && (p.hasNext <==> currentPage + 1 < p.totalPages)
  {
    var p := GetPaginationInfo(totalItems, currentPage, itemsPerPage);
    assert (currentPage + 1) * itemsPerPage == currentPage * itemsPerPage + itemsPerPage;
  }

  /** The last page is the one that holds the last item. */
  lemma LastPageHoldsLastItem(totalItems: int, itemsPerPage: int)
    requires itemsPerPage > 0 && totalItems > 0
    ensures var total := CeilDiv(totalItems, itemsPerPage);
            var p := GetPaginationInfo(totalItems, total - 1, itemsPerPage);
            && !p.hasNext && p.end == totalItems && p.start < totalItems
  {
    var total := CeilDiv(totalItems, itemsPerPage);
    assert (total - 1 + 1) * itemsPerPage == total * itemsPerPage;
  }

  // ---------------------------------------------------------------------
  // escapeMarkdown
  // ---------------------------------------------------------------------

  /** The characters the escape regex matches. */
  predicate IsSpecial(c: char) {
    c in "_*[]()~`>#+=|{}.!-"
  }

  function SpecialCount(s: string): (n: nat)
    ensures n <= |s|
  {
    if s == [] then 0 else (if IsSpecial(s[0]) then 1 else 0) + SpecialCount(s[1..])
  }

  /** Each special character gets a backslash in front; the output never
      starts with a special character. */
  function EscapeMarkdown(text: string): (r: string)
    ensures r == [] <==> text == []
    ensures r != [] ==> !IsSpecial(r[0])
  {
    if text == [] then []
    else if IsSpecial(text[0]) then "\\" + [text[0]] + EscapeMarkdown(text[1..])
    else [text[0]] + EscapeMarkdown(text[1..])
  }

  /** The reverse reading: a backslash before a special character is dropped. */
  function UnescapeMarkdown(s: string): string
    decreases |s|
  {
    if s == [] then []
    else if |s| >= 2 && s[0] == '\\' && IsSpecial(s[1]) then [s[1]] + UnescapeMarkdown(s[2..])
    else [s[0]] + UnescapeMarkdown(s[1..])
  }

  /** Escaping loses nothing: it is undone by dropping the inserted backslashes. */
  lemma {:induction false} EscapeRoundTrip(text: string)
    ensures UnescapeMarkdown(EscapeMarkdown(text)) == text
  {
    if text != [] {
      var rest := EscapeMarkdown(text[1..]);
      EscapeRoundTrip(text[1..]);
      var e := EscapeMarkdown(text);
      if IsSpecial(text[0]) {
        assert e[2..] == rest;
      } else {
        assert e[1..] == rest;
      }
    }
  }

  /** The output is one character longer per special character. */
  lemma {:induction false} EscapeLength(text: string)
    ensures |EscapeMarkdown(text)| == |text| + SpecialCount(text)
  {
    if text != [] {
      EscapeLength(text[1..]);
    }
  }

  /** Text without special characters is unchanged. */
  lemma {:induction false} EscapePlain(text: string)
    requires SpecialCount(text) == 0
    ensures EscapeMarkdown(text) == text
  {
    if text != [] {
      EscapePlain(text[1..]);
      assert [text[0]] + text[1..] == text;
    }
  }

  // ---------------------------------------------------------------------
  // validateAmount
  // ---------------------------------------------------------------------

  /** A parsed number, positive and at most 10000. */
  predicate ValidateAmount(amount: RealOrNaN) {
    amount.Real? && 0.0 < amount.value <= 10000.0
  }
}
