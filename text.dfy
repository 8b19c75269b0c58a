// The few Python `str` operations the dashboard relies on, on `seq<char>`:
// `replace(pat, "")`, `split(sep)` with a one-character separator, `int()`
// on ASCII decimal digits, and the code-point order `<` that pandas uses
// when it sorts a text column.
module Text {
  import opened Wrappers

  // ---------------------------------------------------------------------
  // str.replace(pat, "")
  // ---------------------------------------------------------------------

  /** Python `s.replace(pat, "")`: scan from the left and delete every
      non-overlapping occurrence of `pat`. Deleting can bring a new
      occurrence together ("FFYY" becomes "FY"); like Python, that one
      stays. */
  function RemoveAll(s: string, pat: string): (r: string)
    requires |pat| > 0
    ensures |r| <= |s|
    ensures forall c :: c in r ==> c in s
    decreases |s|
  {
    if |s| < |pat| then s
    else if s[..|pat|] == pat then RemoveAll(s[|pat|..], pat)
    else [s[0]] + RemoveAll(s[1..], pat)
  }

  /** An occurrence of `pat` at the front is deleted. */
  lemma RemoveAllLeading(pat: string, t: string)
    requires |pat| > 0
    ensures RemoveAll(pat + t, pat) == RemoveAll(t, pat)
  {
    assert (pat + t)[..|pat|] == pat;
    assert (pat + t)[|pat|..] == t;
  }

  /** A stretch that does not contain the first character of `pat` passes
      through unchanged. */
  lemma {:induction false} RemoveAllKeeps(a: string, b: string, pat: string)
    requires |pat| > 0
    requires pat[0] !in a
    ensures RemoveAll(a + b, pat) == a + RemoveAll(b, pat)
    decreases |a|
  {
    if a == [] {
      assert a + b == b;
    } else if |a + b| < |pat| {
      assert RemoveAll(b, pat) == b;
    } else {
      assert (a + b)[0] == a[0];
      assert (a + b)[..|pat|] != pat by {
        assert (a + b)[..|pat|][0] == a[0];
      }
      assert (a + b)[1..] == a[1..] + b;
      RemoveAllKeeps(a[1..], b, pat);
      assert [a[0]] + a[1..] == a;
    }
  }

  /** A string without the first character of `pat` is left as it is. */
  lemma RemoveAllAbsent(s: string, pat: string)
    requires |pat| > 0
    requires pat[0] !in s
    ensures RemoveAll(s, pat) == s
  {
    RemoveAllKeeps(s, [], pat);
    assert s + [] == s;
  }

  // ---------------------------------------------------------------------
  // str.split(sep)
  // ---------------------------------------------------------------------

  /** Python `s.split(sep)` for a one-character separator: the pieces
      between separators, in order; always at least one piece, and the
      empty string gives `[""]`. */
  function Split(s: string, sep: char): (parts: seq<string>)
    ensures |parts| >= 1
    ensures forall p :: p in parts ==> sep !in p
    ensures |parts| == 1 <==> sep !in s
    decreases |s|
  {
    if s == [] then [[]]
    else
      var rest := Split(s[1..], sep);
      if s[0] == sep then [[]] + rest
      else [[s[0]] + rest[0]] + rest[1..]
  }

  /** Python `sep.join(parts)`. */
  function Join(parts: seq<string>, sep: char): (r: string)
    requires |parts| >= 1
    decreases |parts|
  {
    if |parts| == 1 then parts[0] else parts[0] + [sep] + Join(parts[1..], sep)
  }

  /** A character in front of the first piece comes out in front of the
      joined text. */
  lemma JoinConsChar(c: char, parts: seq<string>, sep: char)
    requires |parts| >= 1
    ensures Join([[c] + parts[0]] + parts[1..], sep) == [c] + Join(parts, sep)
  {
    var q := [[c] + parts[0]] + parts[1..];
    assert q[0] == [c] + parts[0] && q[1..] == parts[1..];
    if |parts| > 1 {
      assert ([c] + parts[0]) + [sep] + Join(parts[1..], sep)
          == [c] + (parts[0] + [sep] + Join(parts[1..], sep));
    }
  }

  /** Joining the pieces back gives the string that was split. */
  lemma {:induction false} JoinSplit(s: string, sep: char)
    ensures Join(Split(s, sep), sep) == s
    decreases |s|
  {
    if s != [] {
      var rest := Split(s[1..], sep);
      var parts := Split(s, sep);
      JoinSplit(s[1..], sep);
      assert s == [s[0]] + s[1..];
      if s[0] == sep {
        assert parts == [[]] + rest;
        assert parts[0] == [] && parts[1..] == rest;
        assert Join(parts, sep) == [] + [sep] + Join(rest, sep);
      } else {
        assert parts == [[s[0]] + rest[0]] + rest[1..];
        JoinConsChar(s[0], rest, sep);
      }
    }
  }

  /** A string without the separator is one piece. */
  lemma SplitWithoutSeparator(s: string, sep: char)
    requires sep !in s
    ensures Split(s, sep) == [s]
  {
    JoinSplit(s, sep);
  }

  /** Text before the first separator becomes the first piece. */
  lemma {:induction false} SplitLeading(a: string, t: string, sep: char)
    requires sep !in a
    ensures Split(a + t, sep) == [a + Split(t, sep)[0]] + Split(t, sep)[1..]
    decreases |a|
  {
    var parts := Split(t, sep);
    if a == [] {
      assert a + t == t && a + parts[0] == parts[0];
      assert parts == [parts[0]] + parts[1..];
    } else {
      var t' := a[1..] + t;
      assert (a + t)[0] == a[0] && a[0] != sep;
      assert (a + t)[1..] == t';
      assert Split(a + t, sep) == [[a[0]] + Split(t', sep)[0]] + Split(t', sep)[1..];
      SplitLeading(a[1..], t, sep);
      assert Split(t', sep)[0] == a[1..] + parts[0];
      assert Split(t', sep)[1..] == parts[1..];
      assert [a[0]] + (a[1..] + parts[0]) == a + parts[0];
    }
  }

  /** Splitting pieces that were joined gives the pieces back. */
  lemma {:induction false} SplitJoin(parts: seq<string>, sep: char)
    requires |parts| >= 1
    requires forall p :: p in parts ==> sep !in p
    ensures Split(Join(parts, sep), sep) == parts
    decreases |parts|
  {
    SplitLeading(parts[0], [], sep);
    assert parts[0] + [] == parts[0];
    if |parts| > 1 {
      var tail := Join(parts[1..], sep);
      SplitJoin(parts[1..], sep);
      SplitLeading(parts[0], [sep] + tail, sep);
      assert parts[0] + [sep] + tail == parts[0] + ([sep] + tail);
      assert ([sep] + tail)[1..] == tail;
      assert parts == [parts[0]] + parts[1..];
    }
  }

  // ---------------------------------------------------------------------
  // int() on decimal digits, and the decimal rendering of a number
  // ---------------------------------------------------------------------

  predicate IsDigit(c: char) {
    '0' <= c <= '9'
  }

  predicate IsDigits(s: string) {
    forall i :: 0 <= i < |s| ==> IsDigit(s[i])
  }

  function DigitValue(c: char): (v: nat)
    requires IsDigit(c)
  {
    c as int - '0' as int
  }

  /** The number a string of decimal digits denotes; leading zeros are
      allowed, as Python's `int("0023")` is 23. */
  function DigitsValue(s: string): (v: nat)
    requires IsDigits(s)
    decreases |s|
  {
    if s == [] then 0 else DigitsValue(s[..|s| - 1]) * 10 + DigitValue(s[|s| - 1])
  }

  /** Python `int(s)` for base 10, on the ASCII-digit domain: `None` stands
      for the `ValueError` it raises on anything else (the empty string
      included). */
  function ParseInt(s: string): (r: Option<nat>)
    ensures r.Some? ==> |s| > 0 && IsDigits(s) && r.value == DigitsValue(s)
    ensures r.None? ==> s == [] || exists i :: 0 <= i < |s| && !IsDigit(s[i])
  {
    if |s| > 0 && IsDigits(s) then Some(DigitsValue(s)) else None
  }

  function DigitChar(d: nat): (c: char)
    requires d < 10
    ensures IsDigit(c) && DigitValue(c) == d
  {
    ('0' as int + d) as char
  }

  /** `str(n)` for a natural number: no sign and no leading zero. */
  function Decimal(n: nat): (s: string)
    ensures |s| > 0 && IsDigits(s)
    decreases n
  {
    if n < 10 then [DigitChar(n)] else Decimal(n / 10) + [DigitChar(n % 10)]
  }

  /** `int(str(n)) == n`. */
  lemma {:induction false} DecimalRoundTrip(n: nat)
    ensures DigitsValue(Decimal(n)) == n
    decreases n
  {
    var s := Decimal(n);
    if n < 10 {
      assert s[..0] == [];
    } else {
      DecimalRoundTrip(n / 10);
      assert s[..|s| - 1] == Decimal(n / 10);
    }
  }

  /** Four-digit numbers are rendered with four characters. */
  lemma DecimalFourDigits(n: nat)
    requires 1000 <= n <= 9999
    ensures |Decimal(n)| == 4
  {
    assert |Decimal(n / 1000)| == 1;
    assert |Decimal(n / 100)| == 2 by {
      assert (n / 100) / 10 == n / 1000;
    }
    assert |Decimal(n / 10)| == 3 by {
      assert (n / 10) / 10 == n / 100;
    }
  }

  /** Rendering is injective. */
  lemma DecimalInjective(m: nat, n: nat)
    requires Decimal(m) == Decimal(n)
    ensures m == n
  {
    DecimalRoundTrip(m);
    DecimalRoundTrip(n);
  }

  // ---------------------------------------------------------------------
  // Python's `<` on str
  // ---------------------------------------------------------------------

  /** Lexicographic order by code point, as Python compares strings. */
  predicate Less(a: string, b: string)
    decreases |a|
  {
    if a == [] then b != []
    else if b == [] then false
    else if a[0] != b[0] then a[0] < b[0]
    else Less(a[1..], b[1..])
  }

  lemma {:induction false} LessIrreflexive(a: string)
    ensures !Less(a, a)
    decreases |a|
  {
    if a != [] {
      LessIrreflexive(a[1..]);
    }
  }

  lemma {:induction false} LessTransitive(a: string, b: string, c: string)
    requires Less(a, b) && Less(b, c)
    ensures Less(a, c)
    decreases |a|
  {
    if a != [] && a[0] == b[0] && b[0] == c[0] {
      LessTransitive(a[1..], b[1..], c[1..]);
    }
  }

  /** Any two different strings are ordered one way or the other. */
  lemma {:induction false} LessTotal(a: string, b: string)
    ensures a == b || Less(a, b) || Less(b, a)
    decreases |a|
  {
    if a != [] && b != [] && a[0] == b[0] {
      LessTotal(a[1..], b[1..]);
      if a[1..] == b[1..] {
        assert a == [a[0]] + a[1..] && b == [b[0]] + b[1..];
      }
    }
  }
}
