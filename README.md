# Amazon review ETL: a Dafny model of its list and date logic

`ETL_AMAZON.py` is a straight-line script with four steps:

1. It reads product URLs from a terms file.
2. For each URL it scrapes ten review pages, collecting reviewer names, review dates and review bodies.
3. It normalises each date to `DD/MM/YYYY` and aligns the three lists by index.
4. It writes one product row and its review rows to SQLite.

This project models everything the script does between its I/O calls, and proves what that logic guarantees.

- **`Outcomes`** (`outcomes.dfy`) holds `Option` and `Result`. It also lists the Python exceptions the script can raise, as `Failure` values:
  - `IndexError`;
  - the two `ValueError`s of `strptime`: a format mismatch, and a date that does not exist;
  - a transport error;
  - the missing-heading `AttributeError`;
  - `UnboundLocalError`.
- **`Text`** (`text.dfy`) models the parts of Python's `str` the script uses:
  - `strip`, `lstrip` and `rstrip` with a character set;
  - `split` on a separator, with `find`;
  - `str(i)`;
  - reading a run of decimal digits.

  `Whitespace` is the set of characters for which `str.isspace()` holds. It is what both `strip()` and `\s` match.
- **`Dates`** (`dates.dfy`) models the date conversion at lines 113-115, in three stages:
  - `date.split("on")[1]`: the text between the first and the second occurrence of "on";
  - `datetime.strptime(..., ' %d %B %Y')`, modelled as the language of the regular expression Python compiles for that format:
    - each space becomes `\s+`;
    - `%d` is one or two digits from 1 to 31;
    - `%B` is an English month name;
    - `%Y` is exactly four digits;
    - then the calendar check of `datetime`;
  - `strftime('%d/%m/%Y')`.
- **`Scraper`** (`scrape.dfy`) models `scrape_reviews`:
  - page URLs;
  - the per-page appends;
  - rebuilding the formatted-date list from every raw date so far;
  - the two strip passes over the bodies;
  - the final truncation to `len(review_content)`.

  `ScrapeReviews` and its helper methods are the loops. `Accumulate` and `Scrape` are the functions those loops are proved against.
- **`Pipeline`** (`pipeline.dfy`) models the top level:
  - the seed-link loop;
  - the `final_list` loop;
  - the row comprehension;
  - the per-link body of `for url in links`;
  - the run over all links, which ends at the first exception.

The page conversion is a parameter `conv` of the specification functions, of `FormatDates` and of `ScrapePage`. `ScrapeReviews`, `ProcessLink` and `RunPipeline` fix it to `Dates.Normalize`, which is the script's conversion. The lemmas about aggregation therefore hold for any conversion. Those about the date format are proved for `Normalize` itself.

Where the design description and the code disagree, the model follows the code:

- A blank line in the terms file gives an empty link, which is kept. The design speaks of non-empty links.
- Names and formatted dates are cut to the number of bodies. They are not cut to the length of the shortest list. When names or dates run short, `final_list` raises `IndexError`; the design says the three lists end up with equal lengths.
- The date segment ends at the next "on", not at the end of the string.
- Bodies are stripped after they are appended, on every page. They are not stripped during extraction.

## Model

| member | source | states |
|---|---|---|
| Text.CutSpec | ETL_AMAZON.py:114 | Reading a run of a character class (`\s+`, `\d`, letters) splits the text into a run made only of that class and a rest, which together give back the text; the rest does not start with a character of the class |
| Text.CutConcat | ETL_AMAZON.py:114 | A run of a class followed by text that does not start with that class is read back as exactly that run and that text |
| Text.LStripSpec | ETL_AMAZON.py:122 | `lstrip` leaves a suffix that does not start with a stripped character, and everything it removed is a stripped character |
| Text.RStripSpec | ETL_AMAZON.py:123 | `rstrip` leaves a prefix that does not end with a stripped character, and everything it removed is a stripped character |
| Text.StripSpec | ETL_AMAZON.py:73 | `strip` leaves a contiguous piece of the text; everything before and after it is a stripped character, and neither end of the piece is one |
| Text.StripFixed | ETL_AMAZON.py:122-123 | A text whose two ends are not stripped characters is left unchanged by `lstrip`, by `rstrip` and by `strip` |
| Text.StripIdempotent | ETL_AMAZON.py:122-123 | Stripping twice gives the same text as stripping once |
| Text.StripEmpty | ETL_AMAZON.py:73 | `strip` gives the empty string exactly when every character of the text is one it strips, so a blank line becomes an empty link |
| Text.IndexOfSpec | ETL_AMAZON.py:113 | `find` returns an index where the separator occurs, with no occurrence before it, and returns nothing only when the separator does not occur at all |
| Text.SplitFirstPiece | ETL_AMAZON.py:113 | The first piece of `split` is the prefix up to the first occurrence of the separator, or the whole text when there is none, and contains no occurrence |
| Text.SplitPieces | ETL_AMAZON.py:113 | `split` gives at least two pieces exactly when the separator occurs, and no piece contains the separator |
| Text.JoinSplit | ETL_AMAZON.py:113 | Joining the pieces of `split` with the separator gives back the original text |
| Text.NatToString | ETL_AMAZON.py:92 | `str(i)` is a non-empty run of decimal digits with no leading zero |
| Text.NatToStringValue | ETL_AMAZON.py:92 | Reading the digits of `str(i)` gives back `i` |
| Text.NatToStringInjective | ETL_AMAZON.py:92 | Different page numbers have different decimal texts |
| Dates.DateSegmentFails | ETL_AMAZON.py:113 | `split("on")[1]` raises `IndexError` exactly when "on" does not occur in the raw date |
| Dates.DateSegmentFound | ETL_AMAZON.py:113 | When "on" first occurs at index i, the segment is the slice starting right after it; the segment contains no "on" and is followed by "on" or by the end of the text |
| Dates.SegmentAfterOnlyOn | ETL_AMAZON.py:113 | When no 'o' appears apart from the single "on", the segment is everything after that "on" |
| Dates.ExampleSegment | ETL_AMAZON.py:113 | The segment of "Reviewed in the United States on 15 March 2022" is " 15 March 2022" |
| Dates.Find | ETL_AMAZON.py:114 | The month lookup returns the first index of the name in the table, and nothing only when the name is not a month name |
| Dates.ScanSound | ETL_AMAZON.py:114 | When the scanner matches a segment, the pieces it finds are well formed and put back together they give the whole segment |
| Dates.Strptime | ETL_AMAZON.py:114 | A parsed date always exists in the calendar (years 1 to 9999, day within its month); a failure is either a format mismatch or a date that does not exist |
| Dates.ScanRender | ETL_AMAZON.py:114 | Every well-formed decomposition (whitespace runs, day, month name, four-digit year) is found again from its text, so the format is read unambiguously |
| Dates.RenderInjective | ETL_AMAZON.py:114 | Two well-formed decompositions of the same text are equal |
| Dates.StrptimeFormatError | ETL_AMAZON.py:114 | `strptime` fails with a format error exactly when no well-formed decomposition renders the segment |
| Dates.StrptimeOfRender | ETL_AMAZON.py:114 | On the text of a well-formed decomposition, `strptime` returns the date it names when that date exists, and fails with a calendar error when it does not |
| Dates.DayTexts | ETL_AMAZON.py:114 | `%d` accepts a day from 1 to 31 written with or without its leading zero, and reads its value |
| Dates.Pad | ETL_AMAZON.py:115 | Zero-padding to width w gives exactly w decimal digits |
| Dates.PadValue | ETL_AMAZON.py:115 | Reading a zero-padded number gives it back when it fits in the width |
| Dates.FormatDateFields | ETL_AMAZON.py:115 | `strftime('%d/%m/%Y')` gives ten characters DD/MM/YYYY, slashes at 2 and 5, and the three fields read back as the day, month and year |
| Dates.FormatDateInjective | ETL_AMAZON.py:115 | Different valid dates are formatted differently |
| Dates.NormalizeOutcomes | ETL_AMAZON.py:113-115 | The conversion gives `IndexError` exactly when "on" is missing, and a format error exactly when no well-formed decomposition renders the segment; when one does, it gives a calendar error for a date that does not exist, and otherwise the formatted date |
| Dates.NormalizeWellFormed | ETL_AMAZON.py:113-115 | A raw date whose segment is " D MonthName YYYY" (D with or without a leading zero) naming a date that exists becomes exactly DD/MM/YYYY, the month number taken from the month name |
| Dates.NormalizeExample | ETL_AMAZON.py:113-115 | "Reviewed in the United States on 15 March 2022" becomes "15/03/2022" |
| Dates.ExamplePieces | ETL_AMAZON.py:115 | " 15 March 2022" is the padded day, month name and year of 15 March 2022, which is formatted as "15/03/2022" |
| Scraper.PageUrlInjective | ETL_AMAZON.py:92 | `urlbase + str(i)` gives different URLs for different page numbers |
| Scraper.ConvertAllSpec | ETL_AMAZON.py:111-116 | The date loop succeeds exactly when every raw date converts; it then gives one converted date per raw date, in order; otherwise it fails as the first failing date does |
| Scraper.ConvertAllFirstError | ETL_AMAZON.py:112-114 | When the dates before index j convert and the one at j does not, the loop raises that date's error |
| Scraper.ConvertAllAppend | ETL_AMAZON.py:112-116 | Converting one more raw date appends its conversion to the converted list |
| Scraper.FormatDates | ETL_AMAZON.py:111-116 | The loop that fills a fresh `formatted_date_list` computes the list of conversions, or raises the first failure |
| Scraper.AppendAll | ETL_AMAZON.py:103-104 | `for i in range(len(ys)): xs.append(ys[i])` leaves `xs` followed by `ys` |
| Scraper.StripNewlines | ETL_AMAZON.py:122-123 | The `lstrip('\n')` comprehension followed by the `rstrip('\n')` comprehension gives the stripped bodies |
| Scraper.StripPassesClean | ETL_AMAZON.py:122-123 | After the passes no body begins or ends with a newline, and each body is the contiguous piece of the original body left after removing only newlines at both ends |
| Scraper.StripPassesAppend | ETL_AMAZON.py:120-123 | Stripping the whole list again after a later page's bodies are appended leaves the earlier bodies as they were: stripping every page is stripping each body once |
| Scraper.ScrapePage | ETL_AMAZON.py:95-123 | One iteration of the page loop computes the next state or the exception it raises, as `Step` defines |
| Scraper.StepSpec | ETL_AMAZON.py:99-123 | A page succeeds exactly when it was fetched, has its heading and all its dates convert. Then names, raw dates and bodies are appended, the formatted list has one conversion per raw date, and the product name is this page's heading |
| Scraper.AccumulateConverted | ETL_AMAZON.py:107-116 | After every page the formatted-date list has exactly one entry per raw date so far, and entry k is the conversion of raw date k |
| Scraper.AccumulateState | ETL_AMAZON.py:90-121 | After n pages the names, raw dates and stripped bodies are the concatenation of pages 1 to n in page order, each page fetched from `urlbase + str(i)`, and the product name is page n's heading |
| Scraper.AccumulateOk | ETL_AMAZON.py:90-121 | The page loop gets through n pages exactly when each of pages 1 to n is fetched, has its heading and has dates that convert |
| Scraper.AccumulateStops | ETL_AMAZON.py:90-121 | An exception on a page ends the scrape; later pages change nothing |
| Scraper.Take | ETL_AMAZON.py:128-129 | `s[:n]` is the prefix of `s` of length min(len(s), n) |
| Scraper.ScrapeReviews | ETL_AMAZON.py:79-130 | `scrape_reviews` returns the product name, the truncated names and formatted dates, and the bodies, as `Scrape` defines, or raises the first exception |
| Scraper.ScrapeSpec | ETL_AMAZON.py:126-130 | With no page, `UnboundLocalError`; otherwise success exactly when every page is fine. Then the bodies are the stripped bodies of all pages, names and formatted dates are prefixes of length min(len, len(bodies)), formatted date k converts raw date k, and the name is the last page's heading |
| Scraper.CollectedUniform | ETL_AMAZON.py:102-121 | Pages that each give the same number of entries give that number times the number of pages in total |
| Scraper.UniformPages | ETL_AMAZON.py:126-130 | When every page is fine and gives R names, R dates and R bodies, the scrape of P pages returns P times R of each |
| Pipeline.LoadLinks | ETL_AMAZON.py:70-74 | One link per line, in order, each line stripped of surrounding whitespace; no line is dropped or deduplicated |
| Pipeline.FinalList | ETL_AMAZON.py:139-141 | `final_list` is built exactly when `Users` and `Dates` are at least as long as `Messages`, otherwise `IndexError`; it has `len(Messages)` entries and entry i is (Users[i], Dates[i], Messages[i]) |
| Pipeline.BuildFinalList | ETL_AMAZON.py:139-141 | The append loop computes `final_list`, or raises the `IndexError` |
| Pipeline.FinalListUnzip | ETL_AMAZON.py:139-141 | The messages of `final_list` are `Messages`, and its users are the first `len(Messages)` users |
| Pipeline.ReviewRows | ETL_AMAZON.py:160 | There is one row per `final_list` entry, and every row carries the same product id |
| Pipeline.ReviewRowsUntag | ETL_AMAZON.py:160 | Removing the product id from the rows gives back `final_list`, in order |
| Pipeline.LinkOutcomeSpec | ETL_AMAZON.py:136-160 | A link is stored exactly when each of its ten pages is fine and the pages give at least as many names and raw dates as bodies; then row k holds name k, the conversion of raw date k and stripped body k under the product's id, and the product is named after the last page's heading |
| Pipeline.UniformLink | ETL_AMAZON.py:134-160 | Ten fine pages of R reviews each give one product, named after the last heading, with ten times R rows |
| Pipeline.ProcessLink | ETL_AMAZON.py:137-160 | The body of `for url in links` computes the product and rows for the link, or the exception, as `LinkOutcome` defines |
| Pipeline.StoredPrefixSpec | ETL_AMAZON.py:136 | The recursive invariant of the run over the links holds exactly when stored product k is the outcome of link k, for every stored k |
| Pipeline.RunPipeline | ETL_AMAZON.py:136-160 | The run stores, in order, the outcome of each link until the first link whose processing raises; that exception ends the run, and without one every link is stored |

## Left out

- HTTP (ETL_AMAZON.py:86-87, 95) is network I/O. A `fetch` parameter gives, for each URL, a transport failure or the parsed page. Timeouts and retries are not modelled, and the same URL is assumed to give the same page throughout the run.
- BeautifulSoup and its selectors (ETL_AMAZON.py:96, 99, 102, 107, 119) are a foreign library. A `Page` is what they extract: the heading, or nothing, and the three lists of texts in document order. A missing heading stands for the `AttributeError` of `None.get_text()`.
- SQLite (ETL_AMAZON.py:41-64, 146-169) is a database driver behind I/O. The schema, the inserts, `LAST_INSERT_ROWID`, commit and close are not modelled. The id of the k-th stored product is the parameter `idOf(k)`. Products stored before a failing link stay stored, as the script commits each one.
- Reading `terms.txt` (ETL_AMAZON.py:70-71) is file I/O. Its lines are the input of `LoadLinks`.
- `%B` in `strptime` matches case-insensitively and follows the locale. The model accepts exactly the English month names as written, so "march" is a format error here but accepted by Python.
- `\d` in Python regular expressions also matches non-ASCII decimal digits. The model accepts only ASCII digits for `%d` and `%Y`.
- `strftime('%Y')` of a year below 1000 is not zero-padded by every C library. The model always writes four digits.
- An exception is modelled as an `Err` value that ends the enclosing loop. Nothing is modelled of the traceback, or of the process exiting.

## Findings

None. Where the specification and the code disagree, the model follows the code; those differences are listed at the top of this file.
