/**
 * The parts of Python's `str` that the script relies on: `strip`, `lstrip`, `rstrip`,
 * `split` on a separator, `str(i)` of a non-negative integer, and the value of a run of
 * decimal digits (what `int(...)` does inside `strptime`).
 */
module Text {
  import opened Outcomes

  /** The characters for which Python's `str.isspace()` holds: what `str.strip()` with no
      argument removes and what `\s` matches in a `str` regular expression. */
  const Whitespace: set<char> :=
    set c: char | ('\t' <= c <= '\r') || ('\U{1C}' <= c <= ' ') || c == '\U{85}' || c == '\U{A0}' ||
                  c == '\U{1680}' || ('\U{2000}' <= c <= '\U{200A}') || c == '\U{2028}' || c == '\U{2029}' ||
                  c == '\U{202F}' || c == '\U{205F}' || c == '\U{3000}'

  /** ASCII decimal digits. */
  const Digits: set<char> := set c: char | '0' <= c <= '9'

  /** ASCII letters. */
  const Letters: set<char> := set c: char | 'a' <= c <= 'z' || 'A' <= c <= 'Z'

  predicate AllIn(s: string, cs: set<char>)
  {
    forall k :: 0 <= k < |s| ==> s[k] in cs
  }

  /** Splits `s` after its longest prefix made of characters of `cs`. */
  function Cut(s: string, cs: set<char>): (p: (string, string))
  {
    if s != [] && s[0] in cs then
      var (run, rest) := Cut(s[1..], cs);
      ([s[0]] + run, rest)
    else ([], s)
  }

  /** The two parts make up `s`, the first is made of characters of `cs`, and the second does
      not begin with one. */
  lemma {:induction false} CutSpec(s: string, cs: set<char>)
    ensures Cut(s, cs).0 + Cut(s, cs).1 == s
    ensures AllIn(Cut(s, cs).0, cs)
    ensures Cut(s, cs).1 == [] || Cut(s, cs).1[0] !in cs
  {
    if s != [] && s[0] in cs {
      CutSpec(s[1..], cs);
      var (run, rest) := Cut(s[1..], cs);
      assert [s[0]] + run + rest == [s[0]] + (run + rest);
    }
  }

  /** The split is the only one with those properties. */
  lemma {:induction false} CutConcat(run: string, rest: string, cs: set<char>)
    requires AllIn(run, cs) && (rest == [] || rest[0] !in cs)
    ensures Cut(run + rest, cs) == (run, rest)
  {
    if run == [] {
      assert run + rest == rest;
    } else {
      CutConcat(run[1..], rest, cs);
      assert (run + rest)[1..] == run[1..] + rest;
      assert [run[0]] + run[1..] == run;
    }
  }

  /** `s.lstrip(chars)`: drops every leading character that is in `cs`. */
  function LStrip(s: string, cs: set<char>): (r: string)
    ensures |r| <= |s|
  {
    if s != [] && s[0] in cs then LStrip(s[1..], cs) else s
  }

  /** What `lstrip` leaves is a suffix of `s` whose first character is not in `cs`, and
      everything it dropped is in `cs`. */
  lemma {:induction false} LStripSpec(s: string, cs: set<char>)
    ensures var r := LStrip(s, cs);
      |r| <= |s| && r == s[|s| - |r|..] &&
      (forall k :: 0 <= k < |s| - |r| ==> s[k] in cs) &&
      (r == [] || r[0] !in cs)
  {
    if s != [] && s[0] in cs {
      LStripSpec(s[1..], cs);
      var r := LStrip(s[1..], cs);
      assert s[1..][|s| - 1 - |r|..] == s[|s| - |r|..];
      forall k | 0 <= k < |s| - |r| ensures s[k] in cs {
        if k > 0 {
          assert s[k] == s[1..][k - 1];
        }
      }
    }
  }

  /** `s.rstrip(chars)`: drops every trailing character that is in `cs`. */
  function RStrip(s: string, cs: set<char>): (r: string)
    ensures |r| <= |s|
  {
    if s != [] && s[|s| - 1] in cs then RStrip(s[..|s| - 1], cs) else s
  }

  /** What `rstrip` leaves is a prefix of `s` whose last character is not in `cs`, and
      everything it dropped is in `cs`. */
  lemma {:induction false} RStripSpec(s: string, cs: set<char>)
    ensures var r := RStrip(s, cs);
      |r| <= |s| && r == s[..|r|] &&
      (forall k :: |r| <= k < |s| ==> s[k] in cs) &&
      (r == [] || r[|r| - 1] !in cs)
  {
    if s != [] && s[|s| - 1] in cs {
      RStripSpec(s[..|s| - 1], cs);
      var r := RStrip(s[..|s| - 1], cs);
      assert s[..|s| - 1][..|r|] == s[..|r|];
      forall k | |r| <= k < |s| ensures s[k] in cs {
        if k < |s| - 1 {
          assert s[k] == s[..|s| - 1][k];
        }
      }
    }
  }

  /** `s.strip(chars)`, which is `lstrip` followed by `rstrip`. */
  function Strip(s: string, cs: set<char>): string
  {
    RStrip(LStrip(s, cs), cs)
  }

  /** Removing a prefix of characters in `cs` and then a suffix of characters in `cs`
      leaves a contiguous piece of the original with everything around it in `cs`. */
  lemma {:induction false} StripPieces(s: string, l: string, r: string, cs: set<char>)
    requires |l| <= |s| && l == s[|s| - |l|..] && forall k :: 0 <= k < |s| - |l| ==> s[k] in cs
    requires l == [] || l[0] !in cs
    requires |r| <= |l| && r == l[..|r|] && forall k :: |r| <= k < |l| ==> l[k] in cs
    requires r == [] || r[|r| - 1] !in cs
    ensures var i := |s| - |l|;
      i + |r| <= |s| && r == s[i..i + |r|] &&
      (forall k :: 0 <= k < i ==> s[k] in cs) &&
      (forall k :: i + |r| <= k < |s| ==> s[k] in cs) &&
      (r == [] || (r[0] !in cs && r[|r| - 1] !in cs))
  {
    var i := |s| - |l|;
    assert r == s[i..i + |r|];
    forall k | i + |r| <= k < |s| ensures s[k] in cs {
      assert s[k] == l[k - i];
    }
    if r != [] {
      assert r[0] == l[0];
    }
  }

  /** What stripping leaves: a contiguous piece of `s`, everything around it in `cs`,
      and neither of its ends in `cs`. */
  lemma {:induction false} StripSpec(s: string, cs: set<char>)
    ensures var r := Strip(s, cs);
      var i := |s| - |LStrip(s, cs)|;
      i + |r| <= |s| && r == s[i..i + |r|] &&
      (forall k :: 0 <= k < i ==> s[k] in cs) &&
      (forall k :: i + |r| <= k < |s| ==> s[k] in cs) &&
      (r == [] || (r[0] !in cs && r[|r| - 1] !in cs))
  {
    var l := LStrip(s, cs);
    LStripSpec(s, cs);
    RStripSpec(l, cs);
    StripPieces(s, l, RStrip(l, cs), cs);
  }

  /** A string whose ends are not in `cs` is left as it is. */
  lemma {:induction false} StripFixed(t: string, cs: set<char>)
    requires t == [] || (t[0] !in cs && t[|t| - 1] !in cs)
    ensures LStrip(t, cs) == t && RStrip(t, cs) == t && Strip(t, cs) == t
  {
  }

  /** Stripping twice is stripping once. */
  lemma {:induction false} StripIdempotent(s: string, cs: set<char>)
    ensures Strip(Strip(s, cs), cs) == Strip(s, cs)
  {
    StripSpec(s, cs);
    StripFixed(Strip(s, cs), cs);
  }

  /** Stripping leaves nothing exactly when every character is one that is stripped. */
  lemma {:induction false} StripEmpty(s: string, cs: set<char>)
    ensures Strip(s, cs) == [] <==> AllIn(s, cs)
  {
    StripSpec(s, cs);
    if Strip(s, cs) != [] {
      assert s[|s| - |LStrip(s, cs)|] == Strip(s, cs)[0];
    }
  }

  /** `sep` occurs in `s` starting at index `j`. */
  predicate OccursAt(s: string, sep: string, j: nat)
  {
    j + |sep| <= |s| && s[j..j + |sep|] == sep
  }

  lemma {:induction false} OccursAtShift(s: string, sep: string)
    requires s != []
    ensures forall j: nat :: OccursAt(s[1..], sep, j) <==> OccursAt(s, sep, j + 1)
    ensures forall j: nat :: 1 <= j ==> (OccursAt(s, sep, j) <==> OccursAt(s[1..], sep, j - 1))
  {
    forall j: nat ensures OccursAt(s[1..], sep, j) <==> OccursAt(s, sep, j + 1) {
      if j + 1 + |sep| <= |s| {
        assert s[1..][j..j + |sep|] == s[j + 1..j + 1 + |sep|];
      }
    }
  }

  /** Cutting `s` before the first occurrence of `sep` leaves a piece without one. */
  lemma {:induction false} PrefixFree(s: string, sep: string, k: nat)
    requires sep != [] && k <= |s|
    requires forall j: nat :: j < k ==> !OccursAt(s, sep, j)
    ensures forall j: nat :: !OccursAt(s[..k], sep, j)
  {
    forall j: nat ensures !OccursAt(s[..k], sep, j) {
      if OccursAt(s[..k], sep, j) {
        assert s[..k][j..j + |sep|] == s[j..j + |sep|];
        assert OccursAt(s, sep, j);
      }
    }
  }

  /** `s.find(sep)`: the first index at which `sep` occurs, if any. */
  function IndexOf(s: string, sep: string): (r: Option<nat>)
    requires sep != []
    ensures r.Some? ==> r.value + |sep| <= |s|
  {
    if |s| < |sep| then None
    else if s[..|sep|] == sep then Some(0)
    else
      match IndexOf(s[1..], sep)
      case None => None
      case Some(k) => Some(k + 1)
  }

  /** `find` gives the first occurrence of `sep`, and nothing only when there is none. */
  lemma {:induction false} IndexOfSpec(s: string, sep: string)
    requires sep != []
    ensures IndexOf(s, sep).Some? ==>
      OccursAt(s, sep, IndexOf(s, sep).value) &&
      forall j: nat :: j < IndexOf(s, sep).value ==> !OccursAt(s, sep, j)
    ensures IndexOf(s, sep).None? ==> forall j: nat :: !OccursAt(s, sep, j)
    decreases |s|
  {
    if |s| >= |sep| {
      assert s[0..|sep|] == s[..|sep|];
      if s[..|sep|] != sep {
        OccursAtShift(s, sep);
        IndexOfSpec(s[1..], sep);
      }
    }
  }

  /** `s.split(sep)`: the pieces between the non-overlapping occurrences of `sep`, found
      left to right. */
  function Split(s: string, sep: string): (parts: seq<string>)
    requires sep != []
    ensures parts != []
  {
    match IndexOf(s, sep)
    case None => [s]
    case Some(i) => [s[..i]] + Split(s[i + |sep|..], sep)
  }

  /** `sep.join(parts)`. */
  function Join(parts: seq<string>, sep: string): string
  {
    if parts == [] then []
    else if |parts| == 1 then parts[0]
    else parts[0] + sep + Join(parts[1..], sep)
  }

  /** Joining the pieces of a split with the separator gives back the original text. */
  lemma {:induction false} JoinSplit(s: string, sep: string)
    requires sep != []
    ensures Join(Split(s, sep), sep) == s
    decreases |s|
  {
    IndexOfSpec(s, sep);
    match IndexOf(s, sep)
    case None =>
    case Some(i) =>
      var rest := s[i + |sep|..];
      JoinSplit(rest, sep);
      assert Split(s, sep)[1..] == Split(rest, sep);
      assert s == s[..i] + sep + rest;
  }

  /** The first piece of `s.split(sep)` runs from the start of `s` to the first occurrence
      of `sep`, or to the end when there is none; it holds no `sep`. */
  lemma {:induction false} SplitFirstPiece(s: string, sep: string)
    requires sep != []
    ensures var p := Split(s, sep)[0];
      |p| <= |s| && p == s[..|p|] &&
      (forall j: nat :: !OccursAt(p, sep, j)) &&
      (|p| == |s| || OccursAt(s, sep, |p|))
  {
    IndexOfSpec(s, sep);
    match IndexOf(s, sep)
    case None =>
      assert Split(s, sep) == [s];
    case Some(k) =>
      assert Split(s, sep)[0] == s[..k];
      PrefixFree(s, sep, k);
  }

  /** An occurrence in a suffix of `s` is an occurrence in `s`, shifted by where the suffix
      starts. */
  lemma {:induction false} OccursAtSuffix(s: string, sep: string, d: nat, j: nat)
    requires d <= |s|
    ensures OccursAt(s[d..], sep, j) <==> OccursAt(s, sep, d + j)
  {
    if d + j + |sep| <= |s| {
      assert s[d..][j..j + |sep|] == s[d + j..d + j + |sep|];
    }
  }

  /** A prefix `p` of the suffix of `s` starting at `d`, which reaches the end of that suffix
      or is followed there by `sep`, is the slice of `s` from `d` and does the same in `s`. */
  lemma {:induction false} SuffixPiece(s: string, sep: string, d: nat, p: string)
    requires d <= |s| && |p| <= |s| - d && p == s[d..][..|p|]
    requires |p| == |s| - d || OccursAt(s[d..], sep, |p|)
    ensures d + |p| <= |s| && p == s[d..d + |p|]
    ensures d + |p| == |s| || OccursAt(s, sep, d + |p|)
  {
    assert s[d..][..|p|] == s[d..d + |p|];
    if |p| != |s| - d {
      OccursAtSuffix(s, sep, d, |p|);
    }
  }

  /** Splitting at the first occurrence: the text before it, then the pieces of the rest. */
  lemma {:induction false} SplitAt(s: string, sep: string, i: nat)
    requires sep != [] && IndexOf(s, sep) == Some(i)
    ensures Split(s, sep) == [s[..i]] + Split(s[i + |sep|..], sep)
  {
  }

  /** No piece of a split contains the separator; there are at least two pieces exactly when
      the separator occurs. */
  lemma {:induction false} SplitPieces(s: string, sep: string)
    requires sep != []
    ensures var parts := Split(s, sep);
      (|parts| >= 2 <==> IndexOf(s, sep).Some?) &&
      forall k, j: nat :: 0 <= k < |parts| ==> !OccursAt(parts[k], sep, j)
    decreases |s|
  {
    var parts := Split(s, sep);
    IndexOfSpec(s, sep);
    match IndexOf(s, sep)
    case None =>
    case Some(i) =>
      var rest := s[i + |sep|..];
      SplitPieces(rest, sep);
      assert parts[1..] == Split(rest, sep);
      forall j: nat ensures !OccursAt(parts[0], sep, j) {
        if OccursAt(parts[0], sep, j) {
          assert s[..i][j..j + |sep|] == s[j..j + |sep|];
          assert OccursAt(s, sep, j);
          assert false;
        }
      }
      forall k, j: nat | 1 <= k < |parts| ensures !OccursAt(parts[k], sep, j) {
        assert parts[k] == Split(rest, sep)[k - 1];
      }
  }

  function DigitChar(d: nat): (c: char)
    requires d < 10
    ensures c in Digits
  {
    ('0' as int + d) as char
  }

  /** The value of a run of decimal digits, `int(s)`. */
  function DigitsValue(s: string): nat
    requires AllIn(s, Digits)
  {
    if s == [] then 0 else 10 * DigitsValue(s[..|s| - 1]) + (s[|s| - 1] as int - '0' as int)
  }

  /** `str(n)` for a non-negative integer: its decimal digits, without leading zeros. */
  function NatToString(n: nat): (r: string)
    ensures r != [] && AllIn(r, Digits)
    ensures |r| > 1 ==> r[0] != '0'
  {
    if n < 10 then [DigitChar(n)] else NatToString(n / 10) + [DigitChar(n % 10)]
  }

  /** Reading the digits of `str(n)` gives back `n`. */
  lemma {:induction false} NatToStringValue(n: nat)
    ensures DigitsValue(NatToString(n)) == n
  {
    var r := NatToString(n);
    if n >= 10 {
      NatToStringValue(n / 10);
      assert r[..|r| - 1] == NatToString(n / 10);
    }
  }

  /** Different numbers have different decimal texts. */
  lemma {:induction false} NatToStringInjective(i: nat, j: nat)
    requires NatToString(i) == NatToString(j)
    ensures i == j
  {
    NatToStringValue(i);
    NatToStringValue(j);
  }
}
