/** The two entry points built on the paginating walk (`get_people`,
    `get_person_results`) and the query URL the second one formats. */
module Queries {
  import opened Common
  import opened Pagination

  /** A person record; only its `cristin_person_id` is read. */
  datatype Person = Person(cristinPersonId: string)

  const PeopleSeed: Url := "https://api.cristin.no/v2/persons?institution=dmmh"
  const ResultsEndpoint: Url := "https://api.cristin.no/v2/results"
  /** Both bounds of the publication-year window default to this year. */
  const DefaultYear: int := 2018

  predicate IsDigit(c: char)
  {
    '0' <= c <= '9'
  }

  predicate AllDigits(s: string)
  {
    forall i :: 0 <= i < |s| ==> IsDigit(s[i])
  }

  function DigitChar(d: nat): (c: char)
    requires d < 10
    ensures IsDigit(c)
  {
    "0123456789"[d]
  }

  function DigitValue(c: char): nat
    requires IsDigit(c)
  {
    (c as int - '0' as int) as nat
  }

  /** Python's `str` of a non-negative int: decimal digits, no leading zero. */
  function NatToDecimal(n: nat): (s: string)
    ensures |s| > 0 && AllDigits(s)
    decreases n
  {
    if n < 10 then [DigitChar(n)] else NatToDecimal(n / 10) + [DigitChar(n % 10)]
  }

  /** Python's `str` of any int: a minus sign before the digits of a negative number. */
  function IntToDecimal(n: int): (s: string)
    ensures '&' !in s
  {
    if n < 0 then "-" + NatToDecimal(-n) else NatToDecimal(n)
  }

  function DecimalToNat(s: string): nat
    requires AllDigits(s)
  {
    if s == [] then 0 else DecimalToNat(s[..|s| - 1]) * 10 + DigitValue(s[|s| - 1])
  }

  /** Reads back what IntToDecimal writes; None for anything else. */
  function ParseInt(s: string): Option<int>
  {
    if |s| > 1 && s[0] == '-' && AllDigits(s[1..]) then Some(-(DecimalToNat(s[1..]) as int))
    else if |s| > 0 && AllDigits(s) then Some(DecimalToNat(s))
    else None
  }

  lemma {:induction false} NatToDecimalRoundTrip(n: nat)
    ensures DecimalToNat(NatToDecimal(n)) == n
    decreases n
  {
    if n >= 10 {
      var s := NatToDecimal(n);
      NatToDecimalRoundTrip(n / 10);
      assert s[..|s| - 1] == NatToDecimal(n / 10);
    }
  }

  /** The year written into a URL reads back as the same year. */
  lemma IntToDecimalRoundTrip(n: int)
    ensures ParseInt(IntToDecimal(n)) == Some(n)
  {
    if n < 0 {
      NatToDecimalRoundTrip(-n);
      ParseNegative(NatToDecimal(-n));
    } else {
      NatToDecimalRoundTrip(n);
      ParseNonNegative(NatToDecimal(n));
    }
  }

  lemma ParseNegative(d: string)
    requires |d| > 0 && AllDigits(d)
    ensures ParseInt("-" + d) == Some(-(DecimalToNat(d) as int))
  {
    assert ("-" + d)[1..] == d;
  }

  lemma ParseNonNegative(d: string)
    requires |d| > 0 && AllDigits(d)
    ensures ParseInt(d) == Some(DecimalToNat(d))
  {
    assert IsDigit(d[0]);
  }

  const QueryPrefix: Url := ResultsEndpoint + "?contributor="
  const SinceParam: string := "published_since="
  const BeforeParam: string := "published_before="

  /** The parameters a results query carries. */
  datatype ResultsQueryParams = ResultsQueryParams(contributor: string, publishedSince: int, publishedBefore: int)

  /** The format string at net.py:30-32, filled with the results endpoint, the
      person id and the two year bounds. */
  function ResultsQuery(personId: string, since: int, before: int): Url
  {
    QueryPrefix + personId + "&" + YearWindow(since, before)
  }

  /** `published_since=<since>&published_before=<before>` */
  function YearWindow(since: int, before: int): string
  {
    SinceParam + IntToDecimal(since) + "&" + BeforeParam + IntToDecimal(before)
  }

  /** The text before the first `c` and, if there is one, the text after it. */
  function SplitAtFirst(s: string, c: char): (r: (string, Option<string>))
    ensures c !in r.0
    ensures r.1.None? ==> r.0 == s
    ensures r.1.Some? ==> s == r.0 + [c] + r.1.value
  {
    if s == [] then ("", None)
    else if s[0] == c then ("", Some(s[1..]))
    else
      var (pre, post) := SplitAtFirst(s[1..], c);
      ([s[0]] + pre, post)
  }

  /** `s` without its leading `prefix`; None when `s` does not start with it. */
  function StripPrefix(prefix: string, s: string): (r: Option<string>)
    ensures r.Some? <==> prefix <= s
    ensures r.Some? ==> s == prefix + r.value
  {
    if prefix <= s then Some(s[|prefix|..]) else None
  }

  lemma StripPrefixOfJoin(prefix: string, rest: string)
    ensures StripPrefix(prefix, prefix + rest) == Some(rest)
  {
    assert prefix <= prefix + rest;
    assert (prefix + rest)[|prefix|..] == rest;
  }

  /** Recovers the parameters of a results query URL; None for any other URL. */
  function ParseResultsQuery(url: Url): Option<ResultsQueryParams>
  {
    match StripPrefix(QueryPrefix, url)
    case None => None
    case Some(rest) =>
      var (id, afterId) := SplitAtFirst(rest, '&');
      match afterId
      case None => None
      case Some(window) =>
        match ParseWindow(window)
        case None => None
        case Some((since, before)) => Some(ResultsQueryParams(id, since, before))
  }

  /** The two year parameters that follow the person id. */
  function ParseWindow(text: string): Option<(int, int)>
  {
    match StripPrefix(SinceParam, text)
    case None => None
    case Some(rest) =>
      var (sinceText, afterSince) := SplitAtFirst(rest, '&');
      match afterSince
      case None => None
      case Some(tail) =>
        match StripPrefix(BeforeParam, tail)
        case None => None
        case Some(beforeText) =>
          match (ParseInt(sinceText), ParseInt(beforeText))
          case (Some(since), Some(before)) => Some((since, before))
          case _ => None
  }

  lemma {:induction false} SplitAtFirstOfJoin(x: string, c: char, y: string)
    requires c !in x
    ensures SplitAtFirst(x + [c] + y, c) == (x, Some(y))
  {
    var s := x + [c] + y;
    if x == [] {
      assert s == [c] + y;
      assert s[1..] == y;
    } else {
      assert s[0] == x[0];
      assert s[1..] == x[1..] + [c] + y;
      SplitAtFirstOfJoin(x[1..], c, y);
      assert [x[0]] + x[1..] == x;
    }
  }

  /** The query URL determines the person id and both years it was built from,
      as long as the id contains no `&` (the format does not escape it). */
  lemma ResultsQueryRoundTrip(personId: string, since: int, before: int)
    requires '&' !in personId
    ensures ParseResultsQuery(ResultsQuery(personId, since, before))
            == Some(ResultsQueryParams(personId, since, before))
  {
    var window := YearWindow(since, before);
    var rest := personId + "&" + window;
    assert ResultsQuery(personId, since, before) == QueryPrefix + rest;
    StripPrefixOfJoin(QueryPrefix, rest);
    SplitAtFirstOfJoin(personId, '&', window);
    WindowRoundTrip(since, before);
  }

  lemma WindowRoundTrip(since: int, before: int)
    ensures ParseWindow(YearWindow(since, before)) == Some((since, before))
  {
    var s, b := IntToDecimal(since), IntToDecimal(before);
    var tail := BeforeParam + b;
    assert YearWindow(since, before) == SinceParam + (s + "&" + tail);
    StripPrefixOfJoin(SinceParam, s + "&" + tail);
    SplitAtFirstOfJoin(s, '&', tail);
    StripPrefixOfJoin(BeforeParam, b);
    IntToDecimalRoundTrip(since);
    IntToDecimalRoundTrip(before);
  }

  /** `get_people`: every person the institution-scoped listing pages through. */
  function GetPeople(api: Api<Person>): seq<Person>
    requires Ranked(api)
  {
    Walk(api, PeopleSeed)
  }

  /** `get_person_results`: every result the person's query pages through,
      with the year window defaulting to 2018 on both sides. */
  function GetPersonResults<R>(api: Api<R>, person: Person, since: int := DefaultYear, before: int := DefaultYear): seq<R>
    requires Ranked(api)
  {
    Walk(api, ResultsQuery(person.cristinPersonId, since, before))
  }

  /** Without explicit bounds the query asks for the single year 2018:
      both year parameters read "2018". */
  lemma DefaultWindowIs2018<R>(api: Api<R>, person: Person)
    requires Ranked(api)
    ensures IntToDecimal(DefaultYear) == "2018"
    ensures GetPersonResults(api, person) == Walk(api, ResultsQuery(person.cristinPersonId, 2018, 2018))
  {
  }
}
