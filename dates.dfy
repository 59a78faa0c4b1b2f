/**
 * The date normaliser of `scrape_reviews`: `date.split("on")[1]`, then
 * `strptime(..., ' %d %B %Y')`, then `strftime('%d/%m/%Y')`.
 */
module Dates {
  import opened Outcomes
  import opened Text

  /** The English full month names `%B` matches, January first. */
  const MonthNames: seq<string> :=
    ["January", "February", "March", "April", "May", "June",
     "July", "August", "September", "October", "November", "December"]

  datatype Date = Date(day: int, month: int, year: int)

  predicate IsLeapYear(y: int)
  {
    y % 4 == 0 && (y % 100 != 0 || y % 400 == 0)
  }

  function DaysInMonth(year: int, month: int): int
    requires 1 <= month <= 12
  {
    if month == 2 then (if IsLeapYear(year) then 29 else 28)
    else if month == 4 || month == 6 || month == 9 || month == 11 then 30
    else 31
  }

  /** A date Python's `datetime` accepts: years 1 to 9999 and a day that exists in its month. */
  predicate IsValidDate(d: Date)
  {
    1 <= d.year <= 9999 && 1 <= d.month <= 12 && 1 <= d.day <= DaysInMonth(d.year, d.month)
  }

  // ---------------------------------------------------------------------------------------
  // date.split("on")[1]

  /** Element 1 of `raw.split("on")`; an `IndexError` when "on" does not occur. */
  function DateSegment(raw: string): Result<string>
  {
    var parts := Split(raw, "on");
    if |parts| < 2 then Err(IndexOutOfRange) else Ok(parts[1])
  }

  /** The segment fails, with an `IndexError`, exactly when "on" does not occur. */
  lemma {:induction false} DateSegmentFails(raw: string)
    ensures DateSegment(raw).Err? <==> forall j: nat :: !OccursAt(raw, "on", j)
    ensures DateSegment(raw).Err? ==> DateSegment(raw).error == IndexOutOfRange
  {
    IndexOfSpec(raw, "on");
    match IndexOf(raw, "on")
    case None =>
      assert Split(raw, "on") == [raw];
    case Some(i) =>
      assert Split(raw, "on") == [raw[..i]] + Split(raw[i + 2..], "on");
  }

  /** When "on" first occurs at `i`, the segment is the text between it and the next
      occurrence (or the end): it holds no "on", and what follows it is either nothing
      or "on". */
  lemma {:induction false} DateSegmentFound(raw: string, i: nat)
    requires IndexOf(raw, "on") == Some(i)
    ensures DateSegment(raw).Ok?
    ensures var seg := DateSegment(raw).value;
      i + 2 + |seg| <= |raw| && seg == raw[i + 2..i + 2 + |seg|] &&
      (forall j: nat :: !OccursAt(seg, "on", j)) &&
      (i + 2 + |seg| == |raw| || OccursAt(raw, "on", i + 2 + |seg|))
  {
    var rest := raw[i + 2..];
    SplitAt(raw, "on", i);
    SplitFirstPiece(rest, "on");
    SuffixPiece(raw, "on", i + 2, Split(rest, "on")[0]);
  }

  // ---------------------------------------------------------------------------------------
  // strptime(segment, ' %d %B %Y')

  /** A day as `%d` reads it: one or two digits with a value from 1 to 31
      (the alternatives 3[01], [12]\d, 0[1-9] and [1-9]). */
  predicate IsDayText(t: string)
  {
    (|t| == 1 || |t| == 2) && AllIn(t, Digits) && 1 <= DigitsValue(t) <= 31
  }

  /**
   * How a text matching ' %d %B %Y' splits into pieces. Python compiles each space of the
   * format to \s+, so `lead`, `gap1` and `gap2` are non-empty runs of whitespace; `%d` also
   * has a " [1-9]" alternative, but it only matches where a longer `lead` already lets a
   * single digit through; `%Y` is exactly four digits, and nothing may follow it.
   */
  datatype Fields = Fields(lead: string, dayText: string, gap1: string, month: int, gap2: string, yearText: string)

  predicate WellFormed(f: Fields)
  {
    f.lead != [] && AllIn(f.lead, Whitespace) &&
    IsDayText(f.dayText) &&
    f.gap1 != [] && AllIn(f.gap1, Whitespace) &&
    1 <= f.month <= 12 &&
    f.gap2 != [] && AllIn(f.gap2, Whitespace) &&
    |f.yearText| == 4 && AllIn(f.yearText, Digits)
  }

  /** The text the pieces stand for. */
  function Render(f: Fields): string
    requires 1 <= f.month <= 12
  {
    f.lead + (f.dayText + (f.gap1 + (MonthNames[f.month - 1] + (f.gap2 + f.yearText))))
  }

  /** The date the pieces name, before the calendar check. */
  function FieldsDate(f: Fields): Date
    requires WellFormed(f)
  {
    Date(DigitsValue(f.dayText), f.month, DigitsValue(f.yearText))
  }

  /** The position of `name` in `names`, if it is there. */
  function Find(names: seq<string>, name: string): (r: Option<nat>)
    ensures r.Some? ==> r.value < |names| && names[r.value] == name
    ensures r.Some? ==> forall k :: 0 <= k < r.value ==> names[k] != name
    ensures r.None? ==> forall k :: 0 <= k < |names| ==> names[k] != name
  {
    if names == [] then None
    else if names[0] == name then Some(0)
    else match Find(names[1..], name)
      case None => None
      case Some(k) => Some(k + 1)
  }

  /** Splits a segment into the pieces of ' %d %B %Y'. Every run is read greedily: a day is
      followed by whitespace, so it is the whole run of digits; a month name is followed by
      whitespace, so it is the whole run of letters. */
  function Scan(seg: string): (r: Option<Fields>)
  {
    var (lead, s1) := Cut(seg, Whitespace);
    var (dayText, s2) := Cut(s1, Digits);
    var (gap1, s3) := Cut(s2, Whitespace);
    var (word, s4) := Cut(s3, Letters);
    var (gap2, yearText) := Cut(s4, Whitespace);
    match Find(MonthNames, word)
    case None => None
    case Some(m) =>
      if lead != [] && IsDayText(dayText) && gap1 != [] && gap2 != [] && |yearText| == 4 && AllIn(yearText, Digits)
      then Some(Fields(lead, dayText, gap1, m + 1, gap2, yearText))
      else None
  }

  /** What `Scan` finds is well formed and stands for the whole segment. */
  lemma {:induction false} ScanSound(seg: string)
    ensures Scan(seg).Some? ==> WellFormed(Scan(seg).value)
    ensures Scan(seg).Some? ==> Render(Scan(seg).value) == seg
  {
    var (lead, s1) := Cut(seg, Whitespace);
    var (dayText, s2) := Cut(s1, Digits);
    var (gap1, s3) := Cut(s2, Whitespace);
    var (word, s4) := Cut(s3, Letters);
    var (gap2, yearText) := Cut(s4, Whitespace);
    match Scan(seg)
    case None =>
    case Some(f) =>
      CutSpec(seg, Whitespace);
      CutSpec(s1, Digits);
      CutSpec(s2, Whitespace);
      CutSpec(s3, Letters);
      CutSpec(s4, Whitespace);
      assert f == Fields(lead, dayText, gap1, f.month, gap2, yearText);
      assert MonthNames[f.month - 1] == word;
      calc {
        Render(f);
        lead + (dayText + (gap1 + (word + (gap2 + yearText))));
        seg;
      }
  }

  /** `datetime.strptime(seg, ' %d %B %Y')`: a `ValueError` when the text does not match the
      format, another when the day does not exist. */
  function Strptime(seg: string): (r: Result<Date>)
    ensures r.Ok? ==> IsValidDate(r.value)
    ensures r.Err? ==> r.error == FormatMismatch || r.error == DateOutOfRange
  {
    match Scan(seg)
    case None => Err(FormatMismatch)
    case Some(f) =>
      ScanSound(seg);
      var d := FieldsDate(f);
      if IsValidDate(d) then Ok(d) else Err(DateOutOfRange)
  }

  lemma {:induction false} ClassesDisjoint()
    ensures forall c :: c in Whitespace ==> c !in Digits && c !in Letters
    ensures forall c :: c in Digits ==> c !in Letters
  {
  }

  lemma {:induction false} MonthNamesAreWords()
    ensures forall m :: 0 <= m < 12 ==> MonthNames[m] != [] && AllIn(MonthNames[m], Letters)
    ensures forall m, k :: 0 <= k < m < 12 ==> MonthNames[k] != MonthNames[m]
  {
  }

  /** The pieces of a well-formed text are found again: the format is unambiguous. */
  lemma {:induction false} ScanRender(f: Fields)
    requires WellFormed(f)
    ensures Scan(Render(f)) == Some(f)
  {
    ClassesDisjoint();
    MonthNamesAreWords();
    var name := MonthNames[f.month - 1];
    var t4 := f.gap2 + f.yearText;
    var t3 := name + t4;
    var t2 := f.gap1 + t3;
    var t1 := f.dayText + t2;
    assert t1[0] == f.dayText[0] && t2[0] == f.gap1[0] && t3[0] == name[0] && t4[0] == f.gap2[0];
    CutConcat(f.lead, t1, Whitespace);
    CutConcat(f.dayText, t2, Digits);
    CutConcat(f.gap1, t3, Whitespace);
    CutConcat(name, t4, Letters);
    CutConcat(f.gap2, f.yearText, Whitespace);
    assert Find(MonthNames, name) == Some(f.month - 1);
  }

  /** Two well-formed decompositions of the same text are the same decomposition. */
  lemma {:induction false} RenderInjective(f: Fields, g: Fields)
    requires WellFormed(f) && WellFormed(g) && Render(f) == Render(g)
    ensures f == g
  {
    ScanRender(f);
    ScanRender(g);
  }

  /** `strptime` fails with a format error exactly when no well-formed decomposition renders
      the segment. */
  lemma {:induction false} StrptimeFormatError(seg: string)
    ensures Strptime(seg) == Err(FormatMismatch) <==> forall f :: WellFormed(f) ==> Render(f) != seg
  {
    match Scan(seg)
    case None =>
      forall f | WellFormed(f) ensures Render(f) != seg {
        ScanRender(f);
      }
    case Some(g) =>
      ScanSound(seg);
  }

  /** When a well-formed decomposition renders the segment, `strptime` returns the date it
      names if that date exists and fails with a calendar error if not. */
  lemma {:induction false} StrptimeOfRender(f: Fields)
    requires WellFormed(f)
    ensures IsValidDate(FieldsDate(f)) ==> Strptime(Render(f)) == Ok(FieldsDate(f))
    ensures !IsValidDate(FieldsDate(f)) ==> Strptime(Render(f)) == Err(DateOutOfRange)
  {
    ScanRender(f);
  }

  // ---------------------------------------------------------------------------------------
  // strftime('%d/%m/%Y')

  function Pow10(w: nat): nat
  {
    if w == 0 then 1 else 10 * Pow10(w - 1)
  }

  /** The last `w` decimal digits of `n`, zero-padded on the left. */
  function Pad(n: nat, w: nat): (r: string)
    ensures |r| == w && AllIn(r, Digits)
  {
    if w == 0 then [] else Pad(n / 10, w - 1) + [DigitChar(n % 10)]
  }

  /** Reading a padded number gives it back when it fits in the width. */
  lemma {:induction false} PadValue(n: nat, w: nat)
    requires n < Pow10(w)
    ensures DigitsValue(Pad(n, w)) == n
  {
    if w > 0 {
      PadValue(n / 10, w - 1);
      assert Pad(n, w)[..w - 1] == Pad(n / 10, w - 1);
    }
  }

  /** `strftime('%d/%m/%Y')`. */
  function FormatDate(d: Date): string
    requires IsValidDate(d)
  {
    Pad(d.day, 2) + "/" + Pad(d.month, 2) + "/" + Pad(d.year, 4)
  }

  /** The formatted text is DD/MM/YYYY, and its three fields read back as the date. */
  lemma {:induction false} FormatDateFields(d: Date)
    requires IsValidDate(d)
    ensures var r := FormatDate(d);
      |r| == 10 && r[2] == '/' && r[5] == '/' &&
      r[..2] == Pad(d.day, 2) && r[3..5] == Pad(d.month, 2) && r[6..] == Pad(d.year, 4) &&
      DigitsValue(r[..2]) == d.day && DigitsValue(r[3..5]) == d.month && DigitsValue(r[6..]) == d.year
  {
    var r := FormatDate(d);
    assert r[..2] == Pad(d.day, 2);
    assert r[3..5] == Pad(d.month, 2);
    assert r[6..] == Pad(d.year, 4);
    PadValue(d.day, 2);
    PadValue(d.month, 2);
    PadValue(d.year, 4);
  }

  /** Formatting is one-to-one on valid dates. */
  lemma {:induction false} FormatDateInjective(d: Date, e: Date)
    requires IsValidDate(d) && IsValidDate(e) && FormatDate(d) == FormatDate(e)
    ensures d == e
  {
    FormatDateFields(d);
    FormatDateFields(e);
  }

  // ---------------------------------------------------------------------------------------
  // The whole conversion

  /** One pass of the date loop: split, parse, format. */
  function Normalize(raw: string): (r: Result<string>)
  {
    match DateSegment(raw)
    case Err(e) => Err(e)
    case Ok(seg) =>
      match Strptime(seg)
      case Err(e) => Err(e)
      case Ok(d) => Ok(FormatDate(d))
  }

  /** The three ways the conversion fails, each stated without the parser, and what it
      returns otherwise. */
  lemma {:induction false} NormalizeOutcomes(raw: string)
    ensures Normalize(raw) == Err(IndexOutOfRange) <==> forall j: nat :: !OccursAt(raw, "on", j)
    ensures DateSegment(raw).Ok? ==>
      (Normalize(raw) == Err(FormatMismatch) <==>
        forall f :: WellFormed(f) ==> Render(f) != DateSegment(raw).value)
    ensures forall f :: WellFormed(f) && DateSegment(raw) == Ok(Render(f)) ==>
      (!IsValidDate(FieldsDate(f)) ==> Normalize(raw) == Err(DateOutOfRange)) &&
      (IsValidDate(FieldsDate(f)) ==> Normalize(raw) == Ok(FormatDate(FieldsDate(f))))
  {
    DateSegmentFails(raw);
    if DateSegment(raw).Ok? {
      StrptimeFormatError(DateSegment(raw).value);
    }
    forall f | WellFormed(f) && DateSegment(raw) == Ok(Render(f))
      ensures !IsValidDate(FieldsDate(f)) ==> Normalize(raw) == Err(DateOutOfRange)
      ensures IsValidDate(FieldsDate(f)) ==> Normalize(raw) == Ok(FormatDate(FieldsDate(f)))
    {
      StrptimeOfRender(f);
    }
  }

  /** A day written as `%d` accepts it, with or without its leading zero. */
  lemma {:induction false} DayTexts(day: int, dayText: string)
    requires 1 <= day <= 31
    requires dayText == Pad(day, 2) || dayText == NatToString(day)
    ensures IsDayText(dayText) && DigitsValue(dayText) == day
  {
    if dayText == Pad(day, 2) {
      PadValue(day, 2);
    } else {
      NatToStringValue(day);
      if day >= 10 {
        assert dayText == NatToString(day / 10) + [DigitChar(day % 10)];
      }
    }
  }

  /** A raw date whose segment is " D MonthName YYYY", with the day written with or without
      its leading zero and naming a date that exists, becomes exactly DD/MM/YYYY. */
  lemma {:induction false} NormalizeWellFormed(raw: string, d: Date, dayText: string)
    requires IsValidDate(d)
    requires dayText == Pad(d.day, 2) || dayText == NatToString(d.day)
    requires DateSegment(raw) == Ok(" " + dayText + " " + MonthNames[d.month - 1] + " " + Pad(d.year, 4))
    ensures Normalize(raw) == Ok(FormatDate(d))
  {
    var f := Fields(" ", dayText, " ", d.month, " ", Pad(d.year, 4));
    assert WellFormed(f) && FieldsDate(f) == d by {
      DayTexts(d.day, dayText);
      PadValue(d.year, 4);
    }
    assert Render(f) == " " + dayText + " " + MonthNames[d.month - 1] + " " + Pad(d.year, 4) by {
      Reassociate(" ", dayText, " ", MonthNames[d.month - 1], " ", Pad(d.year, 4));
    }
    StrptimeOfRender(f);
  }

  lemma {:induction false} Reassociate(a: string, b: string, c: string, d: string, e: string, f: string)
    ensures a + b + c + d + e + f == a + (b + (c + (d + (e + f))))
  {
  }

  /** With no letter 'o' before or after it, the single "on" delimits the segment: everything
      after it. */
  lemma {:induction false} SegmentAfterOnlyOn(prefix: string, tail: string)
    requires forall k :: 0 <= k < |prefix| ==> prefix[k] != 'o'
    requires forall k :: 0 <= k < |tail| ==> tail[k] != 'o'
    ensures DateSegment(prefix + "on" + tail) == Ok(tail)
  {
    var raw := prefix + "on" + tail;
    assert OccursAt(raw, "on", |prefix|) by {
      assert raw[|prefix|..|prefix| + 2] == "on";
    }
    forall j: nat | j < |prefix| ensures !OccursAt(raw, "on", j) {
      assert raw[j] == prefix[j];
    }
    IndexOfSpec(raw, "on");
    assert IndexOf(raw, "on") == Some(|prefix|);
    assert raw[|prefix| + 2..] == tail;
    forall j: nat ensures !OccursAt(tail, "on", j) {
      if j + 2 <= |tail| {
        assert tail[j..j + 2][0] == tail[j];
      }
    }
    IndexOfSpec(tail, "on");
    assert Split(tail, "on") == [tail];
    assert Split(raw, "on") == [raw[..|prefix|]] + [tail];
  }

  /** The example of a review page: "Reviewed in the United States on 15 March 2022". */
  lemma {:induction false} NormalizeExample()
    ensures Normalize("Reviewed in the United States on 15 March 2022") == Ok("15/03/2022")
  {
    var raw := "Reviewed in the United States on 15 March 2022";
    var d := Date(15, 3, 2022);
    assert DateSegment(raw) == Ok(" " + Pad(d.day, 2) + " " + MonthNames[d.month - 1] + " " + Pad(d.year, 4)) by {
      ExampleSegment();
      ExamplePieces();
    }
    assert Normalize(raw) == Ok(FormatDate(d)) by {
      NormalizeWellFormed(raw, d, Pad(d.day, 2));
    }
    ExamplePieces();
  }

  lemma {:induction false} ExampleSegment()
    ensures DateSegment("Reviewed in the United States on 15 March 2022") == Ok(" 15 March 2022")
  {
    var prefix := "Reviewed in the United States ";
    var tail := " 15 March 2022";
    assert forall k :: 0 <= k < |prefix| ==> prefix[k] != 'o';
    assert forall k :: 0 <= k < |tail| ==> tail[k] != 'o';
    SegmentAfterOnlyOn(prefix, tail);
    assert prefix + "on" + tail == "Reviewed in the United States on 15 March 2022";
  }

  lemma {:induction false} ExamplePads()
    ensures Pad(15, 2) == "15" && Pad(3, 2) == "03" && Pad(2022, 4) == "2022"
  {
    assert DigitChar(0) == '0' && DigitChar(1) == '1' && DigitChar(2) == '2';
    assert DigitChar(3) == '3' && DigitChar(5) == '5';
    assert Pad(2, 1) == "2" && Pad(20, 2) == "20" && Pad(202, 3) == "202";
    assert Pad(1, 1) == "1" && Pad(0, 1) == "0";
  }

  lemma {:induction false} ExamplePieces()
    ensures " 15 March 2022" == " " + Pad(15, 2) + " " + MonthNames[3 - 1] + " " + Pad(2022, 4)
    ensures FormatDate(Date(15, 3, 2022)) == "15/03/2022"
  {
    ExamplePads();
    assert MonthNames[3 - 1] == "March";
  }
}
