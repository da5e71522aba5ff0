// The query string of `searchProperties` as Express hands it over: every value is
// a string. The schema as written applies `z.number()` to those strings; the
// coercing schema it evidently means first converts each numeric value with
// JavaScript's `Number(...)`.

module QueryString {

  import opened Wrappers
  import opened Validation
  import Text
  import opened Properties

  /** `req.query` for the search route; an absent key is `None`. */
  datatype RawSearchQuery = RawSearchQuery(
    city: Option<string>, state: Option<string>, ptype: Option<string>,
    minRent: Option<string>, maxRent: Option<string>, bedrooms: Option<string>, bathrooms: Option<string>,
    status: Option<string>, page: Option<string>, limit: Option<string>)

  /** Zod's message when `z.number()` is given a string. */
  const StringForNumber := "Expected number, received string"
  /** Zod's message when a coerced number is NaN. */
  const NaNForNumber := "Expected number, received nan"

  predicate IsDigit(c: char)
  {
    '0' <= c <= '9'
  }

  predicate AllDigits(s: string)
  {
    forall i :: 0 <= i < |s| ==> IsDigit(s[i])
  }

  /** The value of a string of decimal digits. */
  function DigitsValue(s: string): nat
    requires AllDigits(s)
  {
    if s == [] then 0 else DigitsValue(s[..|s| - 1]) * 10 + (s[|s| - 1] as int - '0' as int)
  }

  function Pow10(n: nat): (r: nat)
    ensures r >= 1
  {
    if n == 0 then 1 else 10 * Pow10(n - 1)
  }

  /** The index of the first '.', or -1 when there is none. */
  function DotIndex(t: string): (k: int)
    ensures -1 <= k < |t|
    ensures k >= 0 ==> t[k] == '.' && forall i :: 0 <= i < k ==> t[i] != '.'
    ensures k == -1 ==> forall i :: 0 <= i < |t| ==> t[i] != '.'
  {
    if t == [] then -1
    else if t[0] == '.' then 0
    else
      var k := DotIndex(t[1..]);
      if k == -1 then -1 else k + 1
  }

  /** An unsigned decimal: digits with at most one '.', and at least one digit. */
  function UnsignedDecimal(t: string): Option<real>
  {
    var k := DotIndex(t);
    if k == -1 then
      if t != [] && AllDigits(t) then Some(DigitsValue(t) as real) else None
    else
      var whole, frac := t[..k], t[k + 1..];
      if |whole| + |frac| >= 1 && AllDigits(whole) && AllDigits(frac) then
        Some(DigitsValue(whole) as real + DigitsValue(frac) as real / Pow10(|frac|) as real)
      else None
  }

  /** `Number(s)` on the decimal forms a query carries: the empty string is 0, an
      optional '-' then an unsigned decimal is its value, anything else is NaN (`None`). */
  function JsNumber(s: string): Option<real>
  {
    if s == "" then Some(0.0)
    else if s[0] == '-' then
      match UnsignedDecimal(s[1..])
      case Some(x) => Some(-x)
      case None => None
    else UnsignedDecimal(s)
  }

  /** `Number(String(n)) === n` for a natural number. */
  lemma {:induction false} DigitsOfNat(n: nat)
    ensures AllDigits(Text.NatToString(n)) && DigitsValue(Text.NatToString(n)) == n
  {
    var s := Text.NatToString(n);
    if n >= 10 {
      DigitsOfNat(n / 10);
      var prefix := Text.NatToString(n / 10);
      assert s == prefix + [Text.DigitChar(n % 10)];
      assert s[..|s| - 1] == prefix;
    }
  }

  lemma NumberOfNat(n: nat)
    ensures JsNumber(Text.NatToString(n)) == Some(n as real)
  {
    var s := Text.NatToString(n);
    DigitsOfNat(n);
    assert DotIndex(s) == -1 by {
      assert forall i :: 0 <= i < |s| ==> s[i] != '.';
    }
    assert s[0] != '-';
  }

  /** One numeric key under `z.number()` as written: any value present is a string. */
  function NumberAsWritten(field: string, v: Option<string>): (r: seq<Issue>)
    ensures r == [] <==> v.None?
  {
    if v.Some? then [At(field, StringForNumber)] else []
  }

  /** Every violated rule of the search schema as written, in field order. */
  function SearchIssuesAsWritten(raw: RawSearchQuery): seq<Issue>
  {
    EnumRule("type", raw.ptype, false, TypeNames)
    + NumberAsWritten("minRent", raw.minRent)
    + NumberAsWritten("maxRent", raw.maxRent)
    + NumberAsWritten("bedrooms", raw.bedrooms)
    + NumberAsWritten("bathrooms", raw.bathrooms)
    + EnumRule("status", raw.status, false, StatusNames)
    + NumberAsWritten("page", raw.page)
    + NumberAsWritten("limit", raw.limit)
  }

  /** The numeric keys of a query. */
  predicate HasNumber(raw: RawSearchQuery)
  {
    || raw.minRent.Some? || raw.maxRent.Some? || raw.bedrooms.Some? || raw.bathrooms.Some?
    || raw.page.Some? || raw.limit.Some?
  }

  /** `searchPropertiesSchema.parse(req.query)` as written: a query passes only when
      it carries no numeric key at all, and then has page 1 and limit 10. */
  function ValidateRawAsWritten(raw: RawSearchQuery): (r: Result<SearchParams, seq<Issue>>)
    ensures r.Ok? <==> !HasNumber(raw) && (raw.ptype.Some? ==> raw.ptype.value in TypeNames)
                       && (raw.status.Some? ==> raw.status.value in StatusNames)
    ensures r.Ok? ==> r.value.page == 1 && r.value.limit == 10
  {
    var issues := SearchIssuesAsWritten(raw);
    if issues != [] then Err(issues)
    else
      ValidateSearch(SearchQuery(raw.city, raw.state, raw.ptype, None, None, None, None, raw.status, None, None))
  }

  /** Asking for the second page is refused with 400 by the schema as written. */
  lemma SecondPageRefused()
    ensures var raw := RawSearchQuery(None, None, None, None, None, None, None, None, Some("2"), None);
            ValidateRawAsWritten(raw) == Err([At("page", StringForNumber)])
  {
    var raw := RawSearchQuery(None, None, None, None, None, None, None, None, Some("2"), None);
    var issue := At("page", StringForNumber);
    assert SearchIssuesAsWritten(raw) == [] + [] + [] + [] + [] + [] + [issue] + [];
    assert [] + [] + [] + [] + [] + [] + [issue] + [] == [issue];
    assert ValidateRawAsWritten(raw) == Err(SearchIssuesAsWritten(raw));
  }

  /** An absent value, or one that `Number(...)` converts to a number. */
  predicate Numeric(v: Option<string>)
  {
    v.None? || JsNumber(v.value).Some?
  }

  /** One numeric key under `z.coerce.number()`: the NaN issue, if the value is not a number. */
  function NaNIssue(field: string, v: Option<string>): (e: seq<Issue>)
    ensures e == [] <==> Numeric(v)
    ensures e != [] ==> e == [At(field, NaNForNumber)]
  {
    if v.Some? && JsNumber(v.value).None? then [At(field, NaNForNumber)] else []
  }

  /** The number a present, numeric value is converted to. */
  function Coerced(v: Option<string>): (x: Option<real>)
    ensures v.None? ==> x.None?
    ensures v.Some? ==> x == JsNumber(v.value)
  {
    if v.Some? then JsNumber(v.value) else None
  }

  /** No issue but NaN ones. */
  ghost predicate OnlyNaN(issues: seq<Issue>)
  {
    forall i :: i in issues ==> i.message == NaNForNumber
  }

  /** The query with its numeric values converted by `Number(...)`: refused with one NaN
      issue per value that is not a number, in field order. */
  function CoerceQuery(raw: RawSearchQuery): (r: Result<SearchQuery, seq<Issue>>)
    ensures r.Ok? <==> && Numeric(raw.minRent) && Numeric(raw.maxRent) && Numeric(raw.bedrooms)
                       && Numeric(raw.bathrooms) && Numeric(raw.page) && Numeric(raw.limit)
    ensures r.Err? ==> r.error != [] && OnlyNaN(r.error)
    ensures r.Ok? ==> r.value.city == raw.city && r.value.state == raw.state
                      && r.value.page == Coerced(raw.page) && r.value.limit == Coerced(raw.limit)
  {
    var first := NaNIssue("minRent", raw.minRent) + NaNIssue("maxRent", raw.maxRent) + NaNIssue("bedrooms", raw.bedrooms);
    var second := NaNIssue("bathrooms", raw.bathrooms) + NaNIssue("page", raw.page) + NaNIssue("limit", raw.limit);
    assert OnlyNaN(first) && OnlyNaN(second);
    var nans := first + second;
    if nans != [] then Err(nans)
    else Ok(SearchQuery(raw.city, raw.state, raw.ptype, Coerced(raw.minRent), Coerced(raw.maxRent),
                        Coerced(raw.bedrooms), Coerced(raw.bathrooms), raw.status, Coerced(raw.page),
                        Coerced(raw.limit)))
  }

  /** The coercing schema: values that are not numbers are refused as NaN; the others
      are checked by the schema's number rules. */
  function ValidateRawSearch(raw: RawSearchQuery): (r: Result<SearchParams, seq<Issue>>)
    ensures CoerceQuery(raw).Err? ==> r.Err? && r.error != [] && OnlyNaN(r.error)
    ensures r.Err? ==> r.error != []
    ensures r.Ok? ==> 1 <= r.value.page && 1 <= r.value.limit <= 100
                      && r.value.city == raw.city && r.value.state == raw.state
  {
    match CoerceQuery(raw)
    case Err(nans) => Err(nans)
    case Ok(q) => ValidateSearch(q)
  }

  /** The query string a client builds from a page number and a page size. */
  function PageQuery(page: nat, limit: nat): RawSearchQuery
  {
    RawSearchQuery(None, None, None, None, None, None, None, None,
                   Some(Text.NatToString(page)), Some(Text.NatToString(limit)))
  }

  /** The query a page query coerces to. */
  function PageSearch(page: nat, limit: nat): SearchQuery
  {
    SearchQuery(None, None, None, None, None, None, None, None, Some(page as real), Some(limit as real))
  }

  /** Coercion turns the page query's two values back into the numbers. */
  lemma CoercePageQuery(page: nat, limit: nat)
    ensures CoerceQuery(PageQuery(page, limit)) == Ok(PageSearch(page, limit))
  {
    NumberOfNat(page);
    NumberOfNat(limit);
  }

  /** The schema's rules on a page and a limit that are natural numbers. */
  lemma ValidatePageSearch(page: nat, limit: nat)
    ensures ValidateSearch(PageSearch(page, limit)).Ok? <==> 1 <= page && 1 <= limit <= 100
    ensures ValidateSearch(PageSearch(page, limit)).Ok? ==>
              ValidateSearch(PageSearch(page, limit)).value.page == page
              && ValidateSearch(PageSearch(page, limit)).value.limit == limit
  {
    assert IsInteger(page as real) && IsInteger(limit as real);
  }

  /** With coercion, `?page=P&limit=L` yields exactly page P and limit L when they are in
      range, and is refused otherwise. */
  lemma CoercedPagesAccepted(page: nat, limit: nat)
    ensures ValidateRawSearch(PageQuery(page, limit)).Ok? <==> 1 <= page && 1 <= limit <= 100
    ensures ValidateRawSearch(PageQuery(page, limit)).Ok? ==>
              ValidateRawSearch(PageQuery(page, limit)).value.page == page
              && ValidateRawSearch(PageQuery(page, limit)).value.limit == limit
  {
    CoercePageQuery(page, limit);
    ValidatePageSearch(page, limit);
    assert ValidateRawSearch(PageQuery(page, limit)) == ValidateSearch(PageSearch(page, limit));
  }

  /** Whereas as written the same query is always refused. */
  lemma PagesRefusedAsWritten(page: nat, limit: nat)
    ensures ValidateRawAsWritten(PageQuery(page, limit)).Err?
  {
  }
}
