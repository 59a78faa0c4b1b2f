/**
 * `scrape_reviews(urlbase, numpages)`: fetch review pages 1 to `numpages` of one product,
 * append each page's reviewer names, raw dates and review bodies, rebuild the list of
 * formatted dates from every raw date so far, strip newlines off the bodies, and at the end
 * cut the names and formatted dates down to the number of bodies.
 *
 * Fetching and HTML parsing are outside the model: `fetch` gives, for a URL, either a
 * transport failure or the four things the parser extracts from the page. The conversion of
 * one raw date is a parameter `conv` of the specification functions and of the per-page
 * method; the script's conversion is `Dates.Normalize`, which `ScrapeReviews` passes in.
 */
module Scraper {
  import opened Outcomes
  import opened Text
  import opened Dates

  /** What the parser extracts from one page: the product-name heading (absent when the
      selector finds nothing), and the texts of the name, date and body elements in
      document order. */
  datatype Page = Page(heading: Option<string>, names: seq<string>, rawDates: seq<string>, bodies: seq<string>)
  /** The outcome of the HTTP request for one page. */
  datatype Fetch = TransportFailure | Fetched(page: Page)
  /** The four values `scrape_reviews` returns. */
  datatype Reviews = Reviews(productName: string, usernames: seq<string>, dates: seq<string>, contents: seq<string>)
  /** The local variables of `scrape_reviews` between two pages. */
  datatype Acc = Acc(productName: Option<string>, usernames: seq<string>, dates: seq<string>,
                     formatted: seq<string>, contents: seq<string>)

  const Newline: set<char> := {'\n'}

  /** `urlbase + str(i)`. */
  function PageUrl(urlbase: string, i: nat): string
  {
    urlbase + NatToString(i)
  }

  /** Different page numbers give different URLs. */
  lemma {:induction false} PageUrlInjective(urlbase: string, i: nat, j: nat)
    requires PageUrl(urlbase, i) == PageUrl(urlbase, j)
    ensures i == j
  {
    assert NatToString(i) == PageUrl(urlbase, i)[|urlbase|..];
    assert NatToString(j) == PageUrl(urlbase, j)[|urlbase|..];
    NatToStringInjective(i, j);
  }

  /** The loop `for date in dates: ... formatted_date_list.append(...)`: every raw date
      converted in order, or the failure of the first one that does not convert. */
  function ConvertAll(conv: string -> Result<string>, ds: seq<string>): Result<seq<string>>
  {
    if ds == [] then Ok([])
    else
      match conv(ds[0])
      case Err(e) => Err(e)
      case Ok(x) =>
        match ConvertAll(conv, ds[1..])
        case Err(e) => Err(e)
        case Ok(fs) => Ok([x] + fs)
  }

  /** The loop succeeds exactly when every date converts; it then yields one converted date
      per raw date, in order, and otherwise fails as the first failing date does. */
  lemma {:induction false} ConvertAllSpec(conv: string -> Result<string>, ds: seq<string>)
    ensures ConvertAll(conv, ds).Ok? <==> forall k :: 0 <= k < |ds| ==> conv(ds[k]).Ok?
    ensures ConvertAll(conv, ds).Ok? ==> var fs := ConvertAll(conv, ds).value;
      |fs| == |ds| && forall k :: 0 <= k < |ds| ==> conv(ds[k]) == Ok(fs[k])
    ensures ConvertAll(conv, ds).Err? ==>
      exists k :: 0 <= k < |ds| && conv(ds[k]) == Err(ConvertAll(conv, ds).error) &&
        (forall j :: 0 <= j < k ==> conv(ds[j]).Ok?)
  {
    if ds != [] && conv(ds[0]).Ok? {
      ConvertAllSpec(conv, ds[1..]);
      assert forall k :: 1 <= k < |ds| ==> ds[1..][k - 1] == ds[k];
    }
  }

  /** When every date before index `j` converts and the one at `j` does not, the loop fails
      with that date's failure. */
  lemma {:induction false} ConvertAllFirstError(conv: string -> Result<string>, ds: seq<string>, j: nat)
    requires j < |ds| && (forall k :: 0 <= k < j ==> conv(ds[k]).Ok?) && conv(ds[j]).Err?
    ensures ConvertAll(conv, ds) == Err(conv(ds[j]).error)
  {
    if j > 0 {
      assert forall k :: 0 <= k < j - 1 ==> ds[1..][k] == ds[k + 1];
      ConvertAllFirstError(conv, ds[1..], j - 1);
    }
  }

  /** Converting one more date extends the converted list by that date's conversion. */
  lemma {:induction false} ConvertAllAppend(conv: string -> Result<string>, ds: seq<string>, d: string)
    requires ConvertAll(conv, ds).Ok? && conv(d).Ok?
    ensures ConvertAll(conv, ds + [d]) == Ok(ConvertAll(conv, ds).value + [conv(d).value])
  {
    var e := ds + [d];
    ConvertAllSpec(conv, ds);
    ConvertAllSpec(conv, e);
    assert forall k :: 0 <= k < |ds| ==> e[k] == ds[k];
    assert e[|ds|] == d;
    var r := ConvertAll(conv, e);
    assert r.value == ConvertAll(conv, ds).value + [conv(d).value];
  }

  /** The two passes `review_content[:] = [r.lstrip('\n') ...]` and
      `review_content[:] = [r.rstrip('\n') ...]`: each body stripped of newlines at both ends. */
  function StripPasses(bodies: seq<string>): (r: seq<string>)
    ensures |r| == |bodies| && forall k :: 0 <= k < |r| ==> r[k] == Strip(bodies[k], Newline)
  {
    seq(|bodies|, k requires 0 <= k < |bodies| => Strip(bodies[k], Newline))
  }

  /** After the passes no body begins or ends with a newline, and each is the piece of the
      original body left between its leading and trailing newlines. */
  lemma {:induction false} StripPassesClean(bodies: seq<string>, k: nat)
    requires k < |bodies|
    ensures var b := StripPasses(bodies)[k];
      (b == [] || (b[0] != '\n' && b[|b| - 1] != '\n')) &&
      exists i :: 0 <= i <= |bodies[k]| && |b| <= |bodies[k][i..]| && b == bodies[k][i..][..|b|] &&
        (forall j :: 0 <= j < i ==> bodies[k][j] == '\n') &&
        (forall j :: i + |b| <= j < |bodies[k]| ==> bodies[k][j] == '\n')
  {
    var s := bodies[k];
    var b := StripPasses(bodies)[k];
    StripSpec(s, Newline);
    var i := |s| - |LStrip(s, Newline)|;
    assert s[i..][..|b|] == s[i..i + |b|];
    assert 0 <= i <= |s| && |b| <= |s[i..]| && b == s[i..][..|b|] &&
      (forall j :: 0 <= j < i ==> s[j] == '\n') &&
      (forall j :: i + |b| <= j < |s| ==> s[j] == '\n');
  }

  /** Running the passes again after later pages leaves the bodies of earlier pages as they
      were: stripping the whole list every page is stripping each body once. */
  lemma {:induction false} StripPassesAppend(earlier: seq<string>, added: seq<string>)
    ensures StripPasses(StripPasses(earlier) + added) == StripPasses(earlier + added)
  {
    var a := StripPasses(StripPasses(earlier) + added);
    var b := StripPasses(earlier + added);
    forall k | 0 <= k < |a| ensures a[k] == b[k] {
      if k < |earlier| {
        StripIdempotent(earlier[k], Newline);
      } else {
        assert (StripPasses(earlier) + added)[k] == (earlier + added)[k];
      }
    }
  }

  /** One iteration of the page loop, on the page fetched for it. */
  function Step(conv: string -> Result<string>, acc: Acc, f: Fetch): Result<Acc>
  {
    match f
    case TransportFailure => Err(TransportError)
    case Fetched(p) =>
      match p.heading
      case None => Err(HeadingMissing)
      case Some(name) =>
        var dates := acc.dates + p.rawDates;
        match ConvertAll(conv, dates)
        case Err(e) => Err(e)
        case Ok(formatted) =>
          Ok(Acc(Some(name), acc.usernames + p.names, dates, formatted, StripPasses(acc.contents + p.bodies)))
  }

  /** The state after pages 1 to `n`, or the failure that stopped the loop. */
  function Accumulate(conv: string -> Result<string>, urlbase: string, fetch: string -> Fetch, n: nat): Result<Acc>
  {
    if n == 0 then Ok(Acc(None, [], [], [], []))
    else
      match Accumulate(conv, urlbase, fetch, n - 1)
      case Err(e) => Err(e)
      case Ok(acc) => Step(conv, acc, fetch(PageUrl(urlbase, n)))
  }

  /** A failure on one page ends the scrape: later pages change nothing. */
  lemma {:induction false} AccumulateStops(conv: string -> Result<string>, urlbase: string, fetch: string -> Fetch, m: nat, n: nat)
    requires m <= n && Accumulate(conv, urlbase, fetch, m).Err?
    ensures Accumulate(conv, urlbase, fetch, n) == Accumulate(conv, urlbase, fetch, m)
    decreases n
  {
    if m < n {
      AccumulateStops(conv, urlbase, fetch, m, n - 1);
    }
  }

  /** The number of iterations of `range(1, numpages + 1)`. */
  function PageCount(numpages: int): nat
  {
    if numpages < 1 then 0 else numpages
  }

  /** `s[:n]`. */
  function Take(s: seq<string>, n: nat): (r: seq<string>)
    ensures |r| == if |s| <= n then |s| else n
    ensures r == s[..|r|]
  {
    if |s| <= n then s else s[..n]
  }

  /** What `scrape_reviews` returns, or the exception it raises. With no page processed,
      `formatted_date_list` and `product_name`, which only the page loop binds, are unbound. */
  function Scrape(conv: string -> Result<string>, urlbase: string, numpages: int, fetch: string -> Fetch): Result<Reviews>
  {
    match Accumulate(conv, urlbase, fetch, PageCount(numpages))
    case Err(e) => Err(e)
    case Ok(acc) =>
      match acc.productName
      case None => Err(UnboundLocal)
      case Some(name) =>
        var smallest := |acc.contents|;
        Ok(Reviews(name, Take(acc.usernames, smallest), Take(acc.formatted, smallest), acc.contents))
  }

  /** `for i in range(0, len(ys)): xs.append(ys[i])`. */
  method AppendAll(xs: seq<string>, ys: seq<string>) returns (r: seq<string>)
    ensures r == xs + ys
  {
    r := xs;
    var j := 0;
    while j < |ys|
      invariant 0 <= j <= |ys| && r == xs + ys[..j]
    {
      r := r + [ys[j]];
      j := j + 1;
    }
    assert ys[..j] == ys;
  }

  /** The date loop: a fresh `formatted_date_list` filled from every raw date so far. */
  method FormatDates(conv: string -> Result<string>, dates: seq<string>) returns (r: Result<seq<string>>)
    ensures r == ConvertAll(conv, dates)
  {
    var formattedDateList := [];
    var j := 0;
    while j < |dates|
      invariant 0 <= j <= |dates| && ConvertAll(conv, dates[..j]) == Ok(formattedDateList)
    {
      var formatted := conv(dates[j]);
      if formatted.Err? {
        ConvertAllSpec(conv, dates[..j]);
        assert forall k :: 0 <= k < j ==> dates[..j][k] == dates[k];
        ConvertAllFirstError(conv, dates, j);
        return Err(formatted.error);
      }
      ConvertAllAppend(conv, dates[..j], dates[j]);
      assert dates[..j] + [dates[j]] == dates[..j + 1];
      formattedDateList := formattedDateList + [formatted.value];
      j := j + 1;
    }
    assert dates[..j] == dates;
    return Ok(formattedDateList);
  }

  /** The two list comprehensions that strip newlines off the review bodies. */
  method StripNewlines(contents: seq<string>) returns (r: seq<string>)
    ensures r == StripPasses(contents)
  {
    r := seq(|contents|, k requires 0 <= k < |contents| => LStrip(contents[k], Newline));
    r := seq(|r|, k requires 0 <= k < |r| => RStrip(r[k], Newline));
  }

  /** The body of `for i in range(1, numpages + 1)`, given the page fetched for it. */
  method ScrapePage(conv: string -> Result<string>, acc: Acc, page: Fetch) returns (r: Result<Acc>)
    ensures r == Step(conv, acc, page)
  {
    if page.TransportFailure? {
      return Err(TransportError);
    }
    var p := page.page;
    if p.heading.None? {
      return Err(HeadingMissing);
    }
    var usernames := AppendAll(acc.usernames, p.names);
    var dates := AppendAll(acc.dates, p.rawDates);
    var formatted := FormatDates(conv, dates);
    if formatted.Err? {
      return Err(formatted.error);
    }
    var reviewContent := AppendAll(acc.contents, p.bodies);
    reviewContent := StripNewlines(reviewContent);
    return Ok(Acc(p.heading, usernames, dates, formatted.value, reviewContent));
  }

  /** `scrape_reviews(urlbase, numpages)`, with the script's own date conversion. */
  method ScrapeReviews(urlbase: string, numpages: int, fetch: string -> Fetch) returns (r: Result<Reviews>)
    ensures r == Scrape(Normalize, urlbase, numpages, fetch)
  {
    var acc := Acc(None, [], [], [], []);
    var i := 1;
    while i <= numpages
      invariant 1 <= i && i - 1 <= PageCount(numpages)
      invariant Accumulate(Normalize, urlbase, fetch, i - 1) == Ok(acc)
    {
      var page := fetch(PageUrl(urlbase, i));
      var next := ScrapePage(Normalize, acc, page);
      if next.Err? {
        AccumulateStops(Normalize, urlbase, fetch, i, PageCount(numpages));
        return Err(next.error);
      }
      acc := next.value;
      i := i + 1;
    }
    assert i - 1 == PageCount(numpages);
    if acc.productName.None? {
      return Err(UnboundLocal);
    }
    var smallestList := |acc.contents|;
    var usernames := Take(acc.usernames, smallestList);
    var formattedDateList := Take(acc.formatted, smallestList);
    return Ok(Reviews(acc.productName.value, usernames, formattedDateList, acc.contents));
  }

  // ---------------------------------------------------------------------------------------
  // What the accumulation amounts to

  /** The three collections a page contributes. */
  datatype Field = Names | RawDates | Bodies

  /** One extracted collection of a fetched page; nothing for a failed fetch. */
  function FieldOf(f: Fetch, field: Field): seq<string>
  {
    match f
    case TransportFailure => []
    case Fetched(p) =>
      match field
      case Names => p.names
      case RawDates => p.rawDates
      case Bodies => p.bodies
  }

  /** The collections of pages 1 to `n`, concatenated in page order. */
  function Collected(urlbase: string, fetch: string -> Fetch, n: nat, field: Field): seq<string>
  {
    if n == 0 then [] else Collected(urlbase, fetch, n - 1, field) + FieldOf(fetch(PageUrl(urlbase, n)), field)
  }

  /** The product-name heading of a fetched page. */
  function Heading(f: Fetch): Option<string>
  {
    if f.Fetched? then f.page.heading else None
  }

  /** A page the loop gets through: fetched, with a heading, and with every date converting. */
  predicate PageOk(conv: string -> Result<string>, f: Fetch)
  {
    f.Fetched? && f.page.heading.Some? &&
    forall k :: 0 <= k < |f.page.rawDates| ==> conv(f.page.rawDates[k]).Ok?
  }

  /** From a state whose dates all convert, one page succeeds exactly when it is fine, and
      then appends its collections, keeps one converted date per raw date and takes the
      page's heading as the product name. */
  lemma {:induction false} StepSpec(conv: string -> Result<string>, acc: Acc, f: Fetch)
    requires forall k :: 0 <= k < |acc.dates| ==> conv(acc.dates[k]).Ok?
    ensures Step(conv, acc, f).Ok? <==> PageOk(conv, f)
    ensures Step(conv, acc, f).Ok? ==>
      var next := Step(conv, acc, f).value;
      next.usernames == acc.usernames + FieldOf(f, Names) &&
      next.dates == acc.dates + FieldOf(f, RawDates) &&
      next.contents == StripPasses(acc.contents + FieldOf(f, Bodies)) &&
      |next.formatted| == |next.dates| &&
      (forall k :: 0 <= k < |next.dates| ==> conv(next.dates[k]) == Ok(next.formatted[k])) &&
      next.productName == Heading(f)
  {
    if f.Fetched? && f.page.heading.Some? {
      var all := acc.dates + f.page.rawDates;
      ConvertAllSpec(conv, all);
      if PageOk(conv, f) {
        forall k | 0 <= k < |all| ensures conv(all[k]).Ok? {
          if k >= |acc.dates| {
            assert all[k] == f.page.rawDates[k - |acc.dates|];
          }
        }
      } else {
        var k :| 0 <= k < |f.page.rawDates| && !conv(f.page.rawDates[k]).Ok?;
        assert all[|acc.dates| + k] == f.page.rawDates[k];
      }
    }
  }

  /** After `n` pages that the loop got through, the formatted list has one entry per raw
      date, converted from it. */
  lemma {:induction false} AccumulateConverted(conv: string -> Result<string>, urlbase: string, fetch: string -> Fetch, n: nat)
    requires Accumulate(conv, urlbase, fetch, n).Ok?
    ensures var acc := Accumulate(conv, urlbase, fetch, n).value;
      |acc.formatted| == |acc.dates| &&
      forall k :: 0 <= k < |acc.dates| ==> conv(acc.dates[k]) == Ok(acc.formatted[k])
  {
    if n > 0 {
      var prev := Accumulate(conv, urlbase, fetch, n - 1);
      assert prev.Ok?;
      var f := fetch(PageUrl(urlbase, n));
      assert Accumulate(conv, urlbase, fetch, n) == Step(conv, prev.value, f);
      AccumulateConverted(conv, urlbase, fetch, n - 1);
      StepSpec(conv, prev.value, f);
    }
  }

  /** After `n` pages that the loop got through, the names, raw dates and stripped bodies
      are those of pages 1 to `n` in page order, and the product name is the heading of
      page `n`. */
  lemma {:induction false} AccumulateState(conv: string -> Result<string>, urlbase: string, fetch: string -> Fetch, n: nat)
    requires Accumulate(conv, urlbase, fetch, n).Ok?
    ensures var acc := Accumulate(conv, urlbase, fetch, n).value;
      acc.usernames == Collected(urlbase, fetch, n, Names) &&
      acc.dates == Collected(urlbase, fetch, n, RawDates) &&
      acc.contents == StripPasses(Collected(urlbase, fetch, n, Bodies)) &&
      acc.productName == (if n == 0 then None else Heading(fetch(PageUrl(urlbase, n))))
  {
    if n > 0 {
      var prev := Accumulate(conv, urlbase, fetch, n - 1);
      assert prev.Ok?;
      var acc := prev.value;
      var f := fetch(PageUrl(urlbase, n));
      assert Accumulate(conv, urlbase, fetch, n) == Step(conv, acc, f);
      AccumulateConverted(conv, urlbase, fetch, n - 1);
      AccumulateState(conv, urlbase, fetch, n - 1);
      StepSpec(conv, acc, f);
      assert Collected(urlbase, fetch, n, Names) == Collected(urlbase, fetch, n - 1, Names) + FieldOf(f, Names);
      assert Collected(urlbase, fetch, n, RawDates) == Collected(urlbase, fetch, n - 1, RawDates) + FieldOf(f, RawDates);
      assert Collected(urlbase, fetch, n, Bodies) == Collected(urlbase, fetch, n - 1, Bodies) + FieldOf(f, Bodies);
      StripPassesAppend(Collected(urlbase, fetch, n - 1, Bodies), FieldOf(f, Bodies));
    }
  }

  /** After `n` pages the loop has succeeded exactly when every one of them was fine. */
  lemma {:induction false} AccumulateOk(conv: string -> Result<string>, urlbase: string, fetch: string -> Fetch, n: nat)
    ensures Accumulate(conv, urlbase, fetch, n).Ok? <==> forall i :: 1 <= i <= n ==> PageOk(conv, fetch(PageUrl(urlbase, i)))
  {
    if n > 0 {
      AccumulateOk(conv, urlbase, fetch, n - 1);
      var prev := Accumulate(conv, urlbase, fetch, n - 1);
      var f := fetch(PageUrl(urlbase, n));
      if prev.Ok? {
        assert Accumulate(conv, urlbase, fetch, n) == Step(conv, prev.value, f);
        AccumulateConverted(conv, urlbase, fetch, n - 1);
        StepSpec(conv, prev.value, f);
        if PageOk(conv, f) {
          forall i | 1 <= i <= n ensures PageOk(conv, fetch(PageUrl(urlbase, i))) {
            if i < n {
              assert 1 <= i <= n - 1;
            }
          }
        }
      } else {
        assert Accumulate(conv, urlbase, fetch, n) == prev;
        var i :| 1 <= i <= n - 1 && !PageOk(conv, fetch(PageUrl(urlbase, i)));
        assert 1 <= i <= n;
      }
    }
  }

  /** What `scrape_reviews` returns: with fewer than one page it raises; otherwise it succeeds
      exactly when every page is fine, the bodies are all the stripped bodies of pages 1 to
      `numpages`, the names and formatted dates are the leading entries of their collections,
      as many as there are bodies when there are enough, and the product name is the heading
      of the last page. */
  lemma {:induction false} ScrapeSpec(conv: string -> Result<string>, urlbase: string, numpages: int, fetch: string -> Fetch)
    ensures numpages < 1 ==> Scrape(conv, urlbase, numpages, fetch) == Err(UnboundLocal)
    ensures numpages >= 1 ==>
      (Scrape(conv, urlbase, numpages, fetch).Ok? <==> forall i :: 1 <= i <= numpages ==> PageOk(conv, fetch(PageUrl(urlbase, i))))
    ensures Scrape(conv, urlbase, numpages, fetch).Ok? ==>
      var r := Scrape(conv, urlbase, numpages, fetch).value;
      var n := PageCount(numpages);
      var names := Collected(urlbase, fetch, n, Names);
      var raw := Collected(urlbase, fetch, n, RawDates);
      r.contents == StripPasses(Collected(urlbase, fetch, n, Bodies)) &&
      Heading(fetch(PageUrl(urlbase, n))) == Some(r.productName) &&
      |r.usernames| == (if |names| <= |r.contents| then |names| else |r.contents|) &&
      r.usernames == names[..|r.usernames|] &&
      |r.dates| == (if |raw| <= |r.contents| then |raw| else |r.contents|) &&
      forall k :: 0 <= k < |r.dates| ==> conv(raw[k]) == Ok(r.dates[k])
  {
    var n := PageCount(numpages);
    AccumulateOk(conv, urlbase, fetch, n);
    if Accumulate(conv, urlbase, fetch, n).Ok? {
      AccumulateConverted(conv, urlbase, fetch, n);
      AccumulateState(conv, urlbase, fetch, n);
    }
  }

  /** Pages of equal size contribute `n` times that size. */
  lemma {:induction false} CollectedUniform(urlbase: string, fetch: string -> Fetch, n: nat, field: Field, size: nat)
    requires forall i :: 1 <= i <= n ==> |FieldOf(fetch(PageUrl(urlbase, i)), field)| == size
    ensures |Collected(urlbase, fetch, n, field)| == n * size
  {
    if n > 0 {
      CollectedUniform(urlbase, fetch, n - 1, field, size);
      assert (n - 1) * size + size == n * size;
    }
  }

  /** When each page is fine and yields the same number of names, dates and bodies, nothing
      is cut off: there are that many reviews per page, times the number of pages. */
  lemma {:induction false} UniformPages(conv: string -> Result<string>, urlbase: string, numpages: nat, fetch: string -> Fetch, perPage: nat)
    requires numpages >= 1
    requires forall i :: 1 <= i <= numpages ==>
      var f := fetch(PageUrl(urlbase, i));
      PageOk(conv, f) && |f.page.names| == perPage && |f.page.rawDates| == perPage && |f.page.bodies| == perPage
    ensures Scrape(conv, urlbase, numpages, fetch).Ok?
    ensures var r := Scrape(conv, urlbase, numpages, fetch).value;
      |r.usernames| == numpages * perPage && |r.dates| == numpages * perPage && |r.contents| == numpages * perPage
  {
    ScrapeSpec(conv, urlbase, numpages, fetch);
    CollectedUniform(urlbase, fetch, numpages, Names, perPage);
    CollectedUniform(urlbase, fetch, numpages, RawDates, perPage);
    CollectedUniform(urlbase, fetch, numpages, Bodies, perPage);
  }
}
