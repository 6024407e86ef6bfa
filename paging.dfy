/**
 * The `page` and `limit` options handed to `aggregatePaginate`. Only the
 * options are modelled; how the paginator cuts pages is not.
 */
module Paging {
  import opened Common
  import opened JsText

  /** `{ page: parseInt(...), limit: parseInt(...) }`; `None` is `NaN`. */
  datatype PageOptions = PageOptions(page: Option<int>, limit: Option<int>)

  /** A query-string value with a destructuring default: the default
      replaces only a missing value, not an empty one. */
  function ParamOr(value: Option<string>, default: string): (r: string)
    ensures value.Some? ==> r == value.value
    ensures value.None? ==> r == default
  {
    if value.None? then default else value.value
  }

  /** The options the comment and video listings pass: `page` defaults to 1
      and `limit` to 10 before `parseInt(_, 10)` reads them, so without
      `page` and `limit` in the query the paginator is asked for page 1 of
      10. */
  function OptionsOf(page: Option<string>, limit: Option<string>): (r: PageOptions)
    ensures page.None? ==> r.page == Some(1)
    ensures limit.None? ==> r.limit == Some(10)
  {
    ParseDecimal(1);
    ParseDecimal(10);
    assert DecimalString(1) == "1";
    assert DecimalString(10) == "10";
    PageOptions(ParseInt(ParamOr(page, "1")), ParseInt(ParamOr(limit, "10")))
  }

  /** `String(n)` as written by a client reads back as `n`. */
  lemma {:induction false} ParseDecimal(n: nat)
    ensures ParseInt(DecimalString(n)) == Some(n)
  {
    var d := DecimalString(n);
    assert !IsJsWhitespace(d[0]);
    assert TrimStart(d) == d;
    assert d + [] == d;
    DigitPrefixOfDigits(d, []);
    DecimalStringValue(n);
    ParseIntUnsigned(d, d);
  }

  /** A decimal `page` or `limit`, with leading white space or trailing
      non-digits, is read as its number. */
  lemma OptionsReadDecimals(pad: string, page: nat, limit: nat, rest: string)
    requires AllWhitespace(pad)
    requires rest == [] || !IsDigit(rest[0])
    ensures OptionsOf(Some(pad + DecimalString(page) + rest), Some(pad + DecimalString(limit) + rest))
            == PageOptions(Some(page), Some(limit))
  {
    ParseIntReadsDecimal(pad, false, page, rest);
    ParseIntReadsDecimal(pad, false, limit, rest);
    assert pad + "" == pad;
  }
}
