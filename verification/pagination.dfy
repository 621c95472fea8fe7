/** How a paginated list view turns the page requested in a URL into a page
    of results or a not-found error. The paginator itself is a parameter:
    the model only knows its page count and which page numbers it accepts. */
module Pagination {
  import opened Options
  import opened Strings
  import opened Numbers

  /** `PaginatedListView.paginate_by`. */
  const PageSize: nat := 50

  /** The token naming the page to show: a text from the request, or the
      integer 1 when the request names none. */
  datatype PageToken = Given(text: string) | FirstPage

  /** Why a request for a page is answered with "not found". */
  datatype NotFound =
    | NotAPageNumber(token: string)
    | InvalidPage(pageNumber: int)

  /** A value counts as given only when it is present and not empty. */
  predicate Given?(v: Option<string>) {
    v.Some? && v.value != ""
  }

  /** The page named by the URL keyword `p` wins over the query parameter
      `p` (`PaginatedListView.page_kwarg`); with neither, the first page is
      meant. The caller looks both up under that name. */
  function SelectToken(kwarg: Option<string>, query: Option<string>): (t: PageToken)
    ensures t.FirstPage? <==> !Given?(kwarg) && !Given?(query)
    ensures t.Given? ==> t.text != "" && (Some(t.text) == kwarg || Some(t.text) == query)
    ensures Given?(kwarg) ==> t == Given(kwarg.value)
  {
    if Given?(kwarg) then Given(kwarg.value)
    else if Given?(query) then Given(query.value)
    else FirstPage
  }

  /** The text after an optional sign. */
  function Unsigned(t: string): string {
    if |t| > 0 && (t[0] == '+' || t[0] == '-') then t[1..] else t
  }

  /** The white space `int()` ignores around its digits: the ASCII space,
      tab, line feed, vertical tab, form feed and carriage return, and every
      non-ASCII character that `str.isspace()` accepts. The ASCII separators
      U+001C to U+001F are white space to `strip()` but not to `int()`. */
  predicate IsIntSpace(c: char) {
    IsSpace(c) && !(0x1C <= c as int <= 0x1F)
  }

  /** CPython's default `sys.get_int_max_str_digits()`: `int()` refuses a
      decimal text with more digits than this. */
  const MaxStrDigits: nat := 4300

  /** Python's `int()` on a text, for ASCII decimal digits: surrounding
      white space is ignored, one sign is allowed, and between one and
      `MaxStrDigits` digits must follow. */
  function ParseInt(s: string): (r: Option<int>)
    ensures r.Some? <==>
      var ds := Unsigned(Strip(IsIntSpace, s));
      0 < |ds| <= MaxStrDigits && AllDigits(ds)
    ensures r.Some? && Strip(IsIntSpace, s)[0] == '-' ==> r.value == 0 - Value(Unsigned(Strip(IsIntSpace, s)))
    ensures r.Some? && Strip(IsIntSpace, s)[0] != '-' ==>
      r.value == Value(Unsigned(Strip(IsIntSpace, s))) && r.value >= 0
  {
    var t := Strip(IsIntSpace, s);
    var ds := Unsigned(t);
    if 0 < |ds| <= MaxStrDigits && AllDigits(ds) then
      var v: int := Value(ds);
      if t[0] == '-' then Some(-v) else Some(v)
    else None
  }

  /** The decimal text of an integer, as `str()` writes it. */
  function FormatInt(n: int): (r: string)
    ensures |r| > 0
  {
    if n < 0 then "-" + Decimal(-n) else Decimal(n)
  }

  /** Number of digits in the text of `n`, its sign not counted. */
  function DigitCount(n: int): nat {
    |Decimal(if n < 0 then -n else n)|
  }

  /** Reading back the text of an integer gives the integer, as long as it
      has at most `MaxStrDigits` digits; a longer text is refused. */
  lemma ParseFormat(n: int)
    ensures ParseInt(FormatInt(n)) == if DigitCount(n) <= MaxStrDigits then Some(n) else None
  {
    var r := FormatInt(n);
    var d := if n < 0 then -n else n;
    ValueOfDecimal(d);
    assert r[|r| - 1] == Decimal(d)[|Decimal(d)| - 1];
    StripUnpadded(IsIntSpace, r);
    if n < 0 {
      assert Unsigned(r) == Decimal(d);
    } else {
      assert Unsigned(r) == Decimal(d);
    }
  }

  /** A run of more than `MaxStrDigits` digits is not an integer, whatever
      its value. */
  lemma ParseIntTooLong(ds: string)
    requires |ds| > MaxStrDigits && AllDigits(ds)
    ensures ParseInt(ds).None?
  {
    assert IsDigit(ds[0]) && IsDigit(ds[|ds| - 1]);
    StripUnpadded(IsIntSpace, ds);
  }

  /** The same holds after a sign. */
  lemma ParseIntSignedTooLong(sign: char, ds: string)
    requires sign == '-' || sign == '+'
    requires |ds| > MaxStrDigits && AllDigits(ds)
    ensures ParseInt([sign] + ds).None?
  {
    var s := [sign] + ds;
    assert s[|s| - 1] == ds[|ds| - 1] && IsDigit(ds[|ds| - 1]);
    StripUnpadded(IsIntSpace, s);
    assert Unsigned(s) == ds;
  }

  /** White space around a page token is ignored by `int()`. */
  lemma ParseIntIgnoresPadding(pre: string, s: string, post: string)
    requires AllSpace(IsIntSpace, pre) && AllSpace(IsIntSpace, post)
    ensures ParseInt(pre + s + post) == ParseInt(s)
  {
    StripIgnoresPadding(IsIntSpace, pre, s, post);
  }

  /** A token made only of `int()` white space is not an integer. */
  lemma ParseIntBlank(s: string)
    requires AllSpace(IsIntSpace, s)
    ensures ParseInt(s).None?
  {
    StripBlank(IsIntSpace, s);
  }

  /** An information separator (U+001C to U+001F) in front of the digits
      makes the token unreadable, although `strip()` would remove it. */
  lemma ParseIntSeparator(sep: char, ds: string)
    requires 0x1C <= sep as int <= 0x1F
    requires |ds| > 0 && AllDigits(ds)
    ensures IsSpace(sep)
    ensures ParseInt([sep] + ds).None?
  {
    var s := [sep] + ds;
    assert s[|s| - 1] == ds[|ds| - 1];
    assert IsDigit(ds[|ds| - 1]);
    StripUnpadded(IsIntSpace, s);
  }

  /** The word "last" is not an integer, so it reaches its own branch. */
  lemma ParseIntLast()
    ensures ParseInt("last").None?
  {
    StripUnpadded(IsIntSpace, "last");
    assert Unsigned("last") == "last";
    assert !IsDigit("last"[0]);
  }

  /** The page number a token names: an integer, the last page, or none. */
  function ResolvePageNumber(token: PageToken, numPages: int): (r: Result<int, NotFound>)
    ensures token.FirstPage? ==> r == Success(1)
    ensures token.Given? && ParseInt(token.text).Some? ==> r == Success(ParseInt(token.text).value)
    ensures token.Given? && ParseInt(token.text).None? ==>
      r == (if token.text == "last" then Success(numPages) else Failure(NotAPageNumber(token.text)))
  {
    match token
    case FirstPage => Success(1)
    case Given(text) =>
      match ParseInt(text)
      case Some(n) => Success(n)
      case None =>
        if text == "last" then Success(numPages)
        else Failure(NotAPageNumber(text))
  }

  /** `PaginatedListView.paginate_queryset`, up to the page it asks the
      paginator for. `valid` says which page numbers the paginator accepts;
      the page is requested without a soft limit, so an invalid number is
      never replaced by a nearby valid one. */
  function PaginateQueryset(kwarg: Option<string>, query: Option<string>, numPages: int,
                            valid: int -> bool): (r: Result<int, NotFound>)
    ensures r.Success? ==> valid(r.value)
    ensures r.Failure? && r.error.InvalidPage? ==> !valid(r.error.pageNumber)
    ensures r.Failure? && r.error.NotAPageNumber? ==>
      SelectToken(kwarg, query) == Given(r.error.token) && r.error.token != "last"
  {
    match ResolvePageNumber(SelectToken(kwarg, query), numPages)
    case Failure(e) => Failure(e)
    case Success(n) => if valid(n) then Success(n) else Failure(InvalidPage(n))
  }

  /** The outcome of asking the paginator for page `n`. */
  function PageOrNotFound(n: int, valid: int -> bool): Result<int, NotFound> {
    if valid(n) then Success(n) else Failure(InvalidPage(n))
  }

  /** With no page in the URL or the query, the first page is asked for. */
  lemma PaginateDefaultsToFirstPage(kwarg: Option<string>, query: Option<string>,
                                    numPages: int, valid: int -> bool)
    requires !Given?(kwarg) && !Given?(query)
    ensures PaginateQueryset(kwarg, query, numPages, valid) == PageOrNotFound(1, valid)
  {
  }

  /** A page named in the URL overrides the query parameter. */
  lemma PaginateKwargFirst(kwarg: string, query: Option<string>, numPages: int,
                           valid: int -> bool)
    requires kwarg != ""
    ensures PaginateQueryset(Some(kwarg), query, numPages, valid)
      == PaginateQueryset(Some(kwarg), None, numPages, valid)
  {
  }

  /** An empty page in the URL falls back to the query parameter. */
  lemma PaginateEmptyKwarg(query: Option<string>, numPages: int, valid: int -> bool)
    ensures PaginateQueryset(Some(""), query, numPages, valid)
      == PaginateQueryset(None, query, numPages, valid)
  {
  }

  /** The text of an integer of at most `MaxStrDigits` digits asks for that
      page, whatever the sign; a longer one is not a page number at all. */
  lemma PaginateInteger(n: int, query: Option<string>, numPages: int, valid: int -> bool)
    ensures PaginateQueryset(Some(FormatInt(n)), query, numPages, valid)
      == if DigitCount(n) <= MaxStrDigits then PageOrNotFound(n, valid)
         else Failure(NotAPageNumber(FormatInt(n)))
  {
    ParseFormat(n);
    if DigitCount(n) > MaxStrDigits {
      var d := if n < 0 then -n else n;
      assert FormatInt(n)[|FormatInt(n)| - 1] == Decimal(d)[|Decimal(d)| - 1];
      assert FormatInt(n) != "last";
    }
  }

  /** "last" asks for the paginator's last page. */
  lemma PaginateLast(query: Option<string>, numPages: int, valid: int -> bool)
    ensures PaginateQueryset(Some("last"), query, numPages, valid)
      == PageOrNotFound(numPages, valid)
  {
    ParseIntLast();
  }

  /** Any other token is not found, before the paginator is consulted. */
  lemma PaginateOtherToken(token: string, query: Option<string>, numPages: int,
                           valid: int -> bool)
    requires token != "" && token != "last" && ParseInt(token).None?
    ensures PaginateQueryset(Some(token), query, numPages, valid)
      == Failure(NotAPageNumber(token))
  {
  }

  /** The page number is never adjusted: a page is returned only under the
      number the token resolved to, and a resolved number the paginator
      rejects (a page past the end, say) is not found under that same
      number instead of being replaced by the last page. */
  lemma PaginateNoClamping(kwarg: Option<string>, query: Option<string>, numPages: int,
                           valid: int -> bool, n: int)
    requires ResolvePageNumber(SelectToken(kwarg, query), numPages) == Success(n)
    ensures PaginateQueryset(kwarg, query, numPages, valid).Success? <==> valid(n)
    ensures PaginateQueryset(kwarg, query, numPages, valid).Success? ==>
      PaginateQueryset(kwarg, query, numPages, valid).value == n
    ensures !valid(n) ==> PaginateQueryset(kwarg, query, numPages, valid) == Failure(InvalidPage(n))
  {
  }
}
