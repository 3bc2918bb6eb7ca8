/** String helpers the bot relies on: Python's `str.strip()`, the e-mail
    pattern, `str.lower()` for the closed-status test, title shortening,
    `str.split("_")` and decimal `str`/`int` conversions. */
module Text {
  import opened Wrappers

  // ---------------------------------------------------------------------
  // str.strip()

  /** The characters Python's `str.isspace()` accepts, which `strip()` removes. */
  predicate IsSpace(c: char) {
    || ('\t' <= c <= '\r')
    || ('\U{1C}' <= c <= '\U{1F}')
    || c == ' ' || c == '\U{85}' || c == '\U{A0}' || c == '\U{1680}'
    || ('\U{2000}' <= c <= '\U{200A}')
    || c == '\U{2028}' || c == '\U{2029}' || c == '\U{202F}' || c == '\U{205F}'
    || c == '\U{3000}'
  }

  /** Number of whitespace characters at the start of `s`. */
  function LeadingSpaces(s: string): (n: nat)
    ensures n <= |s|
    ensures forall i :: 0 <= i < n ==> IsSpace(s[i])
    ensures n < |s| ==> !IsSpace(s[n])
  {
    if |s| > 0 && IsSpace(s[0]) then 1 + LeadingSpaces(s[1..]) else 0
  }

  /** Number of whitespace characters at the end of `s`. */
  function TrailingSpaces(s: string): (n: nat)
    ensures n <= |s|
    ensures forall i :: |s| - n <= i < |s| ==> IsSpace(s[i])
    ensures n < |s| ==> !IsSpace(s[|s| - 1 - n])
  {
    if |s| > 0 && IsSpace(s[|s| - 1]) then 1 + TrailingSpaces(s[..|s| - 1]) else 0
  }

  /** `s.strip()`: `s` without its leading and trailing whitespace. */
  function Strip(s: string): (r: string)
    ensures |r| <= |s|
    ensures r == [] || (!IsSpace(r[0]) && !IsSpace(r[|r| - 1]))
    ensures LeadingSpaces(s) + |r| <= |s| && r == s[LeadingSpaces(s)..LeadingSpaces(s) + |r|]
    ensures forall i :: 0 <= i < |s| && !(LeadingSpaces(s) <= i < LeadingSpaces(s) + |r|) ==> IsSpace(s[i])
  {
    var lead := LeadingSpaces(s);
    var rest := s[lead..];
    var trail := TrailingSpaces(rest);
    assert forall i :: lead + (|rest| - trail) <= i < |s| ==> s[i] == rest[i - lead];
    assert rest[..|rest| - trail] == s[lead..lead + (|rest| - trail)];
    rest[..|rest| - trail]
  }

  /** Stripping twice is stripping once. */
  lemma StripIdempotent(s: string)
    ensures Strip(Strip(s)) == Strip(s)
  {
    var r := Strip(s);
    assert LeadingSpaces(r) == 0;
    assert r[0..] == r;
    assert TrailingSpaces(r) == 0;
    assert r[..|r|] == r;
  }

  // ---------------------------------------------------------------------
  // is_valid_email: re.match(r"^[a-zA-Z0-9_.+-]+@pari\.ru$", email)

  const Domain: string := "@pari.ru"

  /** A character of the class `[a-zA-Z0-9_.+-]`. */
  predicate IsLocalChar(c: char) {
    ('a' <= c <= 'z') || ('A' <= c <= 'Z') || ('0' <= c <= '9')
    || c == '_' || c == '.' || c == '+' || c == '-'
  }

  predicate AllLocal(s: string) {
    forall i :: 0 <= i < |s| ==> IsLocalChar(s[i])
  }

  /** `s` without one final newline, which Python's `$` lets through. */
  function BeforeFinalNewline(s: string): (t: string)
    ensures t == s || (|s| > 0 && s[|s| - 1] == '\n' && t == s[..|s| - 1])
  {
    if |s| > 0 && s[|s| - 1] == '\n' then s[..|s| - 1] else s
  }

  /** The pattern test as `is_valid_email` runs it. Python's `$` also matches
      just before one final newline, so a single trailing "\n" is accepted. */
  predicate IsValidEmail(s: string) {
    var t := BeforeFinalNewline(s);
    && |t| > |Domain|
    && t[|t| - |Domain|..] == Domain
    && AllLocal(t[..|t| - |Domain|])
  }

  /** The regular expression read literally: a non-empty local part over the
      class, then the domain, then the end of the string or a final newline. */
  ghost predicate MatchesPattern(s: string) {
    exists k :: LocalThenDomain(s, k)
  }

  /** `s[..k]` is a local part and `s[k..]` the domain, possibly followed by a newline. */
  ghost predicate LocalThenDomain(s: string, k: int) {
    0 < k <= |s| && AllLocal(s[..k]) && (s[k..] == Domain || s[k..] == Domain + "\n")
  }

  lemma ValidEmailMatchesPattern(s: string)
    ensures IsValidEmail(s) <==> MatchesPattern(s)
  {
    if IsValidEmail(s) {
      ValidEmailSplits(s);
    }
    if MatchesPattern(s) {
      var k :| LocalThenDomain(s, k);
      SplitIsValidEmail(s, k);
    }
  }

  lemma ValidEmailSplits(s: string)
    requires IsValidEmail(s)
    ensures LocalThenDomain(s, |BeforeFinalNewline(s)| - |Domain|)
  {
    var t := BeforeFinalNewline(s);
    var k := |t| - |Domain|;
    assert s[..k] == t[..k];
    if t != s {
      assert s == t + "\n";
      assert s[k..] == t[k..] + "\n";
    }
  }

  lemma SplitIsValidEmail(s: string, k: int)
    requires LocalThenDomain(s, k)
    ensures IsValidEmail(s)
  {
    var t := BeforeFinalNewline(s);
    if s[k..] == Domain {
      assert s[|s| - 1] == Domain[|Domain| - 1];
      assert t == s;
      assert t[|t| - |Domain|..] == s[k..];
      assert t[..|t| - |Domain|] == s[..k];
    } else {
      assert s[|s| - 1] == '\n';
      assert t == s[..|s| - 1];
      assert |t| - |Domain| == k;
      assert t[k..] == s[k..][..|Domain|];
      assert t[..k] == s[..k];
    }
  }

  /** What the handler sees after `strip()`: the one trailing newline the
      pattern tolerates is gone, so an accepted address ends in the domain. */
  lemma StrippedValidEmailEndsInDomain(s: string)
    requires IsValidEmail(Strip(s))
    ensures |Strip(s)| > |Domain| && Strip(s)[|Strip(s)| - |Domain|..] == Domain
  {
    var r := Strip(s);
    assert !IsSpace(r[|r| - 1]);
  }

  // ---------------------------------------------------------------------
  // status.lower() in ["готово", "done"]

  /** `str.lower()` on one character, for the Latin and Cyrillic capitals. */
  function LowerChar(c: char): (d: char)
    ensures IsSpace(c) <==> IsSpace(d)
  {
    if 'A' <= c <= 'Z' then (c as int + 32) as char
    else if '\U{0410}' <= c <= '\U{042F}' then (c as int + 32) as char
    else if '\U{0400}' <= c <= '\U{040F}' then (c as int + 80) as char
    else c
  }

  function Lower(s: string): (r: string)
    ensures |r| == |s|
    ensures forall i :: 0 <= i < |s| ==> r[i] == LowerChar(s[i])
  {
    if s == [] then [] else [LowerChar(s[0])] + Lower(s[1..])
  }

  /** The tracker's terminal status, in which comments are refused. */
  predicate IsClosedStatus(status: string) {
    Lower(status) in ["готово", "done"]
  }

  /** `Lower(s) == r` checked character by character. */
  lemma LowerIs(s: string, r: string)
    requires |s| == |r|
    requires forall i :: 0 <= i < |s| ==> LowerChar(s[i]) == r[i]
    ensures Lower(s) == r
  {
  }

  /** A capital letter `str.lower()` changes: ASCII and basic Cyrillic. */
  predicate IsCapital(c: char) {
    'A' <= c <= 'Z' || '\U{0400}' <= c <= '\U{042F}'
  }

  /** `c` is the letter `t` written in either case: `t` itself, or for a
      small Latin or Cyrillic letter `t` its capital. */
  predicate SameLetterIgnoringCase(c: char, t: char) {
    || c == t
    || ('a' <= t <= 'z' && c as int == t as int - 32)
    || ('\U{0430}' <= t <= '\U{044F}' && c as int == t as int - 32)
    || ('\U{0450}' <= t <= '\U{045F}' && c as int == t as int - 80)
  }

  /** `s` spells the word `w` letter by letter, in any mix of cases. */
  predicate EqualsIgnoringCase(s: string, w: string) {
    |s| == |w| && forall i :: 0 <= i < |s| ==> SameLetterIgnoringCase(s[i], w[i])
  }

  lemma LowerCharIs(c: char, t: char)
    requires !IsCapital(t)
    ensures LowerChar(c) == t <==> SameLetterIgnoringCase(c, t)
  {
  }

  /** Lowering `s` gives a word without capitals exactly when `s` spells
      that word ignoring case. */
  lemma LowerEqualsIff(s: string, w: string)
    requires forall i :: 0 <= i < |w| ==> !IsCapital(w[i])
    ensures Lower(s) == w <==> EqualsIgnoringCase(s, w)
  {
    if Lower(s) == w {
      forall i | 0 <= i < |s|
        ensures SameLetterIgnoringCase(s[i], w[i])
      {
        LowerCharIs(s[i], w[i]);
      }
    }
    if EqualsIgnoringCase(s, w) {
      forall i | 0 <= i < |s|
        ensures LowerChar(s[i]) == w[i]
      {
        LowerCharIs(s[i], w[i]);
      }
      LowerIs(s, w);
    }
  }

  /** `status.lower() in ["готово", "done"]` holds exactly for the two
      words in any letter case, for every status string. */
  lemma ClosedStatusIff(status: string)
    ensures IsClosedStatus(status) <==>
            EqualsIgnoringCase(status, "done") || EqualsIgnoringCase(status, "готово")
  {
    LowerEqualsIff(status, "done");
    LowerEqualsIff(status, "готово");
  }


  // ---------------------------------------------------------------------
  // title[:20] + "..." if len(title) > 20 else title

  const TitleWidth: nat := 20

  function ShortTitle(title: string): (r: string)
    ensures |r| <= TitleWidth + 3
    ensures |title| <= TitleWidth ==> r == title
    ensures |title| > TitleWidth ==>
      |r| == TitleWidth + 3 && r[..TitleWidth] == title[..TitleWidth] && r[TitleWidth..] == "..."
  {
    if |title| > TitleWidth then title[..TitleWidth] + "..." else title
  }

  // ---------------------------------------------------------------------
  // str.split(sep) and its inverse, sep.join(parts)

  /** Python's `s.split(sep)` for a one-character separator: never empty,
      one more part than `s` has separators. */
  function Split(s: string, sep: char): (parts: seq<string>)
    ensures |parts| >= 1
    ensures forall i :: 0 <= i < |parts| ==> sep !in parts[i]
  {
    if s == [] then [""]
    else
      var rest := Split(s[1..], sep);
      if s[0] == sep then [""] + rest
      else [[s[0]] + rest[0]] + rest[1..]
  }

  function Join(parts: seq<string>, sep: char): string
    requires |parts| >= 1
  {
    if |parts| == 1 then parts[0] else parts[0] + [sep] + Join(parts[1..], sep)
  }

  lemma {:induction false} SplitNoSeparator(p: string, sep: char)
    requires sep !in p
    ensures Split(p, sep) == [p]
  {
    if p != [] {
      SplitNoSeparator(p[1..], sep);
      assert [p[0]] + p[1..] == p;
    }
  }

  lemma {:induction false} SplitAfterPart(p: string, sep: char, rest: string)
    requires sep !in p
    ensures Split(p + [sep] + rest, sep) == [p] + Split(rest, sep)
  {
    if p == [] {
      assert p + [sep] + rest == [sep] + rest;
      assert ([sep] + rest)[1..] == rest;
    } else {
      var s := p + [sep] + rest;
      assert s[1..] == p[1..] + [sep] + rest;
      SplitAfterPart(p[1..], sep, rest);
      assert [p[0]] + p[1..] == p;
    }
  }

  /** Three separator-free fields joined by the separator split back into themselves. */
  lemma SplitThree(a: string, b: string, c: string, sep: char)
    requires sep !in a && sep !in b && sep !in c
    ensures Split(a + [sep] + b + [sep] + c, sep) == [a, b, c]
  {
    var bc := b + [sep] + c;
    assert a + [sep] + b + [sep] + c == a + [sep] + bc;
    SplitNoSeparator(c, sep);
    SplitAfterPart(b, sep, c);
    SplitAfterPart(a, sep, bc);
  }

  /** The same for four fields. */
  lemma SplitFour(a: string, b: string, c: string, d: string, sep: char)
    requires sep !in a && sep !in b && sep !in c && sep !in d
    ensures Split(a + [sep] + b + [sep] + c + [sep] + d, sep) == [a, b, c, d]
  {
    var bcd := b + [sep] + c + [sep] + d;
    assert a + [sep] + b + [sep] + c + [sep] + d == a + [sep] + bcd;
    SplitThree(b, c, d, sep);
    SplitAfterPart(a, sep, bcd);
  }

  /** Splitting a joined list gives the list back when no part holds the separator. */
  lemma {:induction false} SplitJoin(parts: seq<string>, sep: char)
    requires |parts| >= 1
    requires forall i :: 0 <= i < |parts| ==> sep !in parts[i]
    ensures Split(Join(parts, sep), sep) == parts
  {
    if |parts| == 1 {
      SplitNoSeparator(parts[0], sep);
    } else {
      SplitJoin(parts[1..], sep);
      SplitAfterPart(parts[0], sep, Join(parts[1..], sep));
      assert [parts[0]] + parts[1..] == parts;
    }
  }

  /** Joining the parts of a split gives the string back. */
  lemma {:induction false} JoinSplit(s: string, sep: char)
    ensures Join(Split(s, sep), sep) == s
  {
    if s != [] {
      var rest := Split(s[1..], sep);
      JoinSplit(s[1..], sep);
      if s[0] == sep {
        assert ([""] + rest)[1..] == rest;
        assert [s[0]] + s[1..] == s;
      } else if |rest| == 1 {
        assert [s[0]] + s[1..] == s;
      } else {
        var parts := [[s[0]] + rest[0]] + rest[1..];
        assert parts[1..] == rest[1..];
        assert Join(rest, sep) == rest[0] + [sep] + Join(rest[1..], sep);
        assert [s[0]] + s[1..] == s;
      }
    }
  }

  // ---------------------------------------------------------------------
  // str(n) and int(s)

  predicate IsDigit(c: char) { '0' <= c <= '9' }

  predicate AllDigits(s: string) { forall i :: 0 <= i < |s| ==> IsDigit(s[i]) }

  function DigitChar(d: nat): (c: char)
    requires d < 10
    ensures IsDigit(c) && c as int - '0' as int == d
  {
    ('0' as int + d) as char
  }

  /** `str(n)` for a natural number: its decimal digits, no leading zero. */
  function NatToString(n: nat): (s: string)
    ensures |s| >= 1 && AllDigits(s)
    ensures |s| > 1 ==> s[0] != '0'
  {
    if n < 10 then [DigitChar(n)] else NatToString(n / 10) + [DigitChar(n % 10)]
  }

  function DigitsValue(s: string): nat
    requires AllDigits(s)
  {
    if s == [] then 0 else 10 * DigitsValue(s[..|s| - 1]) + (s[|s| - 1] as int - '0' as int)
  }

  /** `int(s)` on an optional sign followed by decimal digits; anything else
      raises in Python and is `None` here. */
  function ParseInt(s: string): Option<int> {
    if |s| >= 2 && (s[0] == '-' || s[0] == '+') && AllDigits(s[1..]) then
      var v: int := if s[0] == '-' then -(DigitsValue(s[1..]) as int) else DigitsValue(s[1..]);
      Some(v)
    else if |s| >= 1 && AllDigits(s) then Some(DigitsValue(s))
    else None
  }

  lemma {:induction false} DigitsValueOfNat(n: nat)
    ensures DigitsValue(NatToString(n)) == n
  {
    if n >= 10 {
      DigitsValueOfNat(n / 10);
      var s := NatToString(n);
      assert s[..|s| - 1] == NatToString(n / 10);
    }
  }

  /** `int(str(n)) == n`. */
  lemma ParseIntNatToString(n: nat)
    ensures ParseInt(NatToString(n)) == Some(n)
  {
    DigitsValueOfNat(n);
  }

  /** Digits contain neither separator used by the bot's tokens. */
  lemma NatToStringHasNoUnderscore(n: nat)
    ensures '_' !in NatToString(n) && '=' !in NatToString(n)
  {
    var s := NatToString(n);
    assert forall i :: 0 <= i < |s| ==> s[i] != '_' && s[i] != '=';
  }

  // ---------------------------------------------------------------------

  predicate StartsWith(s: string, prefix: string) {
    |prefix| <= |s| && s[..|prefix|] == prefix
  }
}
