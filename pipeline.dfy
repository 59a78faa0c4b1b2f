/**
 * The top level of the script: the seed links read from the terms file, and for each link
 * the scrape of its first ten review pages, the zipped `final_list` of (user, date, message)
 * triples, and the rows `(product_id, user, date, message)` written for it.
 *
 * The database is outside the model: `idOf(k)` is the id the store assigns to the `k`-th
 * product inserted during the run, and nothing is modelled of the inserts themselves beyond
 * what they are given.
 */
module Pipeline {
  import opened Outcomes
  import opened Text
  import opened Dates
  import opened Scraper

  /** `num_pages`: how many review pages are scraped per product. */
  const NumPages: int := 10

  // ---------------------------------------------------------------------------------------
  // Seed links

  /** `for line in lines: links.append(line.strip())`: one link per line, in order, with
      surrounding whitespace removed; a blank line gives an empty link, which is kept. */
  method LoadLinks(lines: seq<string>) returns (links: seq<string>)
    ensures |links| == |lines|
    ensures forall k :: 0 <= k < |lines| ==> links[k] == Strip(lines[k], Whitespace)
  {
    links := [];
    var i := 0;
    while i < |lines|
      invariant 0 <= i <= |lines| && |links| == i
      invariant forall k :: 0 <= k < i ==> links[k] == Strip(lines[k], Whitespace)
    {
      var link := Strip(lines[i], Whitespace);
      links := links + [link];
      i := i + 1;
    }
  }

  // ---------------------------------------------------------------------------------------
  // final_list

  /** One entry of `final_list`. */
  datatype Review = Review(user: string, date: string, message: string)

  /** `for i in range(len(Messages)): final_list.append((Users[i], Dates[i], Messages[i]))`:
      the entries up to the number of messages, or the IndexError raised when `Users` or
      `Dates` runs out first. */
  function FinalList(users: seq<string>, dates: seq<string>, messages: seq<string>): (r: Result<seq<Review>>)
    ensures r.Ok? <==> |users| >= |messages| && |dates| >= |messages|
    ensures r.Err? ==> r.error == IndexOutOfRange
    ensures r.Ok? ==> |r.value| == |messages|
    ensures r.Ok? ==> forall k :: 0 <= k < |messages| ==> r.value[k] == Review(users[k], dates[k], messages[k])
  {
    if messages == [] then Ok([])
    else if users == [] || dates == [] then Err(IndexOutOfRange)
    else
      match FinalList(users[1..], dates[1..], messages[1..])
      case Err(e) => Err(e)
      case Ok(rest) => Ok([Review(users[0], dates[0], messages[0])] + rest)
  }

  function Users(fl: seq<Review>): (r: seq<string>)
    ensures |r| == |fl|
  {
    if fl == [] then [] else [fl[0].user] + Users(fl[1..])
  }

  function Messages(fl: seq<Review>): (r: seq<string>)
    ensures |r| == |fl|
  {
    if fl == [] then [] else [fl[0].message] + Messages(fl[1..])
  }

  /** Reading the users and messages back out of `final_list` gives the messages and the
      leading users, one per message. */
  lemma {:induction false} FinalListUnzip(users: seq<string>, dates: seq<string>, messages: seq<string>)
    requires FinalList(users, dates, messages).Ok?
    ensures Messages(FinalList(users, dates, messages).value) == messages
    ensures Users(FinalList(users, dates, messages).value) == users[..|messages|]
  {
    if messages != [] {
      FinalListUnzip(users[1..], dates[1..], messages[1..]);
      assert users[1..][..|messages| - 1] == users[1..|messages|];
      assert users[..|messages|] == [users[0]] + users[1..|messages|];
    }
  }

  /** The loop that builds `final_list`. */
  method BuildFinalList(users: seq<string>, dates: seq<string>, messages: seq<string>) returns (r: Result<seq<Review>>)
    ensures r == FinalList(users, dates, messages)
  {
    var finalList: seq<Review> := [];
    var i := 0;
    while i < |messages|
      invariant 0 <= i <= |messages| && i <= |users| && i <= |dates| && |finalList| == i
      invariant forall k :: 0 <= k < i ==> finalList[k] == Review(users[k], dates[k], messages[k])
    {
      if i >= |users| || i >= |dates| {
        return Err(IndexOutOfRange);
      }
      finalList := finalList + [Review(users[i], dates[i], messages[i])];
      i := i + 1;
    }
    assert FinalList(users, dates, messages).value == finalList;
    return Ok(finalList);
  }

  // ---------------------------------------------------------------------------------------
  // Review rows

  /** One row of the `reviews` table. */
  datatype Row = Row(productId: int, user: string, date: string, message: string)

  /** `[(product_id, user, date, message) for user, date, message in final_list]`. */
  function ReviewRows(productId: int, fl: seq<Review>): (rows: seq<Row>)
    ensures |rows| == |fl|
    ensures forall k :: 0 <= k < |rows| ==> rows[k].productId == productId
  {
    seq(|fl|, k requires 0 <= k < |fl| => Row(productId, fl[k].user, fl[k].date, fl[k].message))
  }

  /** A row without its product id. */
  function Untag(rows: seq<Row>): (fl: seq<Review>)
    ensures |fl| == |rows|
  {
    if rows == [] then [] else [Review(rows[0].user, rows[0].date, rows[0].message)] + Untag(rows[1..])
  }

  /** Tagging with the product id loses nothing: the rows are `final_list` in order. */
  lemma {:induction false} ReviewRowsUntag(productId: int, fl: seq<Review>)
    ensures Untag(ReviewRows(productId, fl)) == fl
  {
    if fl != [] {
      ReviewRowsUntag(productId, fl[1..]);
      assert ReviewRows(productId, fl)[1..] == ReviewRows(productId, fl[1..]);
    }
  }

  // ---------------------------------------------------------------------------------------
  // One link, and the run over all links

  /** What the script writes for one link: the product's id and name and its review rows. */
  datatype Stored = Stored(productId: int, name: string, rows: seq<Row>)

  /** The body of `for url in links`, before the database: scrape, zip, tag; or the
      exception that aborts the run. */
  function LinkOutcome(conv: string -> Result<string>, url: string, fetch: string -> Fetch, productId: int): Result<Stored>
  {
    match Scrape(conv, url, NumPages, fetch)
    case Err(e) => Err(e)
    case Ok(rv) =>
      match FinalList(rv.usernames, rv.dates, rv.contents)
      case Err(e) => Err(e)
      case Ok(fl) => Ok(Stored(productId, rv.productName, ReviewRows(productId, fl)))
  }

  /** One link succeeds exactly when each of its pages is fine and the pages yield at least as
      many names and raw dates as bodies. Then there is one row per stripped body, in order:
      the row's user is the name at the same index, its date the conversion of the raw date
      at the same index, its id the product's, and the product's name is the heading of the
      last page. */
  lemma {:induction false} LinkOutcomeSpec(conv: string -> Result<string>, url: string, fetch: string -> Fetch, productId: int)
    ensures var names := Collected(url, fetch, NumPages, Names);
      var raw := Collected(url, fetch, NumPages, RawDates);
      var bodies := Collected(url, fetch, NumPages, Bodies);
      LinkOutcome(conv, url, fetch, productId).Ok? <==>
        (forall i :: 1 <= i <= NumPages ==> PageOk(conv, fetch(PageUrl(url, i)))) &&
        |names| >= |bodies| && |raw| >= |bodies|
    ensures LinkOutcome(conv, url, fetch, productId).Ok? ==>
      var names := Collected(url, fetch, NumPages, Names);
      var raw := Collected(url, fetch, NumPages, RawDates);
      var bodies := Collected(url, fetch, NumPages, Bodies);
      var s := LinkOutcome(conv, url, fetch, productId).value;
      s.productId == productId &&
      Heading(fetch(PageUrl(url, NumPages))) == Some(s.name) &&
      |s.rows| == |bodies| &&
      forall k :: 0 <= k < |s.rows| ==>
        s.rows[k].productId == productId && s.rows[k].user == names[k] &&
        conv(raw[k]) == Ok(s.rows[k].date) && s.rows[k].message == Strip(bodies[k], Newline)
  {
    ScrapeSpec(conv, url, NumPages, fetch);
    var sc := Scrape(conv, url, NumPages, fetch);
    if sc.Ok? {
      var rv := sc.value;
      var fl := FinalList(rv.usernames, rv.dates, rv.contents);
      if fl.Ok? {
        var rows := ReviewRows(productId, fl.value);
        forall k | 0 <= k < |rows|
          ensures rows[k].user == rv.usernames[k] && rows[k].date == rv.dates[k] && rows[k].message == rv.contents[k]
        {
          assert fl.value[k] == Review(rv.usernames[k], rv.dates[k], rv.contents[k]);
        }
      }
    }
  }

  /** Ten pages that are each fine and each yield `perPage` names, dates and bodies are
      stored as one product named after the last page's heading, with ten times `perPage`
      rows. */
  lemma {:induction false} UniformLink(conv: string -> Result<string>, url: string, fetch: string -> Fetch, productId: int, perPage: nat)
    requires forall i :: 1 <= i <= NumPages ==>
      var f := fetch(PageUrl(url, i));
      PageOk(conv, f) && |f.page.names| == perPage && |f.page.rawDates| == perPage && |f.page.bodies| == perPage
    ensures LinkOutcome(conv, url, fetch, productId).Ok?
    ensures var s := LinkOutcome(conv, url, fetch, productId).value;
      |s.rows| == NumPages * perPage && Heading(fetch(PageUrl(url, NumPages))) == Some(s.name)
  {
    UniformPages(conv, url, NumPages, fetch, perPage);
    LinkOutcomeSpec(conv, url, fetch, productId);
  }

  /** The body of `for url in links`, up to the rows handed to the database. */
  method ProcessLink(url: string, fetch: string -> Fetch, productId: int) returns (r: Result<Stored>)
    ensures r == LinkOutcome(Normalize, url, fetch, productId)
  {
    var scraped := ScrapeReviews(url, NumPages, fetch);
    if scraped.Err? {
      return Err(scraped.error);
    }
    var rv := scraped.value;
    var finalList := BuildFinalList(rv.usernames, rv.dates, rv.contents);
    if finalList.Err? {
      return Err(finalList.error);
    }
    var values := ReviewRows(productId, finalList.value);
    return Ok(Stored(productId, rv.productName, values));
  }

  /** The first `|stored|` links were each processed, in order, into the product stored
      at the same position; `outcome(k)` is what processing link `k` gives. */
  predicate StoredPrefix(outcome: nat -> Result<Stored>, stored: seq<Stored>)
    decreases |stored|
  {
    stored == [] ||
    (StoredPrefix(outcome, stored[..|stored| - 1]) && outcome(|stored| - 1) == Ok(stored[|stored| - 1]))
  }

  /** `StoredPrefix` holds exactly when every stored product is the outcome of its link. */
  lemma {:induction false} StoredPrefixSpec(outcome: nat -> Result<Stored>, stored: seq<Stored>)
    ensures StoredPrefix(outcome, stored) <==> forall k :: 0 <= k < |stored| ==> outcome(k) == Ok(stored[k])
    decreases |stored|
  {
    if stored != [] {
      var init := stored[..|stored| - 1];
      StoredPrefixSpec(outcome, init);
      assert forall k :: 0 <= k < |init| ==> init[k] == stored[k];
    }
  }

  /** `for url in links: ...`: the products stored, in order, until the first link whose
      processing raises; that exception ends the run, and without one every link is stored. */
  method RunPipeline(links: seq<string>, fetch: string -> Fetch, idOf: nat -> int) returns (stored: seq<Stored>, failure: Option<Failure>)
    ensures |stored| <= |links|
    ensures forall k :: 0 <= k < |stored| ==> LinkOutcome(Normalize, links[k], fetch, idOf(k)) == Ok(stored[k])
    ensures failure.None? <==> |stored| == |links|
    ensures failure.Some? ==> LinkOutcome(Normalize, links[|stored|], fetch, idOf(|stored|)) == Err(failure.value)
  {
    ghost var outcomeOf := (k: nat) =>
      if k < |links| then LinkOutcome(Normalize, links[k], fetch, idOf(k)) else Err(IndexOutOfRange);
    stored := [];
    var i := 0;
    while i < |links|
      invariant 0 <= i <= |links| && |stored| == i
      invariant StoredPrefix(outcomeOf, stored)
    {
      var outcome := ProcessLink(links[i], fetch, idOf(i));
      if outcome.Err? {
        StoredPrefixSpec(outcomeOf, stored);
        return stored, Some(outcome.error);
      }
      var before := stored;
      stored := stored + [outcome.value];
      assert stored[..i] == before;
      i := i + 1;
    }
    StoredPrefixSpec(outcomeOf, stored);
    return stored, None;
  }
}
