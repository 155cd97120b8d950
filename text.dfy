/**
 * The few Python string operations the scraper relies on: str.split with a
 * one-character separator, int()/float() of a numeral, str() of a natural
 * number, str.startswith, the substring test `p in s` and str.lower().
 */
module Text {
  import opened Wrappers

  // ---------------------------------------------------------------------
  // str.split(sep)
  // ---------------------------------------------------------------------

  /** Python's `s.split(sep)`: the pieces between separators, always at least one. */
  function Split(s: string, sep: char): (parts: seq<string>)
    ensures |parts| >= 1
    ensures forall k :: 0 <= k < |parts| ==> sep !in parts[k]
    ensures sep !in s ==> parts == [s]
    decreases |s|
  {
    if |s| == 0 then [""]
    else
      var rest := Split(s[1..], sep);
      if s[0] == sep then [""] + rest
      else
        assert [s[0]] + s[1..] == s;
        [[s[0]] + rest[0]] + rest[1..]
  }

  /** Python's `sep.join(parts)`, the inverse of Split. */
  function Join(parts: seq<string>, sep: char): string
    requires |parts| >= 1
  {
    if |parts| == 1 then parts[0] else parts[0] + [sep] + Join(parts[1..], sep)
  }

  /** Joining the pieces of a split gives back the original text. */
  lemma {:induction false} JoinSplit(s: string, sep: char)
    ensures Join(Split(s, sep), sep) == s
    decreases |s|
  {
    if |s| > 0 {
      JoinSplit(s[1..], sep);
      var rest := Split(s[1..], sep);
      if s[0] == sep {
        assert Split(s, sep)[1..] == rest;
      } else {
        var parts := Split(s, sep);
        if |rest| == 1 {
          assert parts == [[s[0]] + rest[0]];
        } else {
          assert parts[1..] == rest[1..];
          assert Join(rest, sep) == rest[0] + [sep] + Join(rest[1..], sep);
        }
      }
    }
  }

  /** Two texts joined by a separator, as in "3-5". */
  function Joined(a: string, sep: char, b: string): string
  {
    a + [sep] + b
  }

  /** The text after the last separator (all of the text when there is none). */
  function AfterLast(s: string, sep: char): string
    decreases |s|
  {
    if |s| == 0 || s[|s| - 1] == sep then [] else AfterLast(s[..|s| - 1], sep) + [s[|s| - 1]]
  }

  /** A separator-free tail is what follows the last separator. */
  lemma {:induction false} AfterLastJoined(a: string, sep: char, b: string)
    requires sep !in b
    ensures AfterLast(Joined(a, sep, b), sep) == b
    decreases |b|
  {
    var s := Joined(a, sep, b);
    if |b| > 0 {
      var front := b[..|b| - 1];
      assert s[..|s| - 1] == Joined(a, sep, front);
      AfterLastJoined(a, sep, front);
      assert front + [b[|b| - 1]] == b;
    }
  }

  /** Splitting at the first separator peels off the text before it. */
  lemma {:induction false} SplitAtFirst(a: string, b: string, sep: char)
    requires sep !in a
    ensures Split(a + [sep] + b, sep) == [a] + Split(b, sep)
    decreases |a|
  {
    var s := a + [sep] + b;
    if |a| == 0 {
      assert s[1..] == b;
    } else {
      SplitAtFirst(a[1..], b, sep);
      assert s[1..] == a[1..] + [sep] + b;
      assert [a[0]] + a[1..] == a;
    }
  }

  /** A text with exactly one separator splits into the two sides. */
  lemma SplitPair(text: string, a: string, b: string, sep: char)
    requires sep !in a && sep !in b && text == a + [sep] + b
    ensures Split(text, sep) == [a, b]
  {
    SplitAtFirst(a, b, sep);
  }

  /** Splitting a join of separator-free pieces gives back the pieces. */
  lemma {:induction false} SplitJoin(parts: seq<string>, sep: char)
    requires |parts| >= 1
    requires forall k :: 0 <= k < |parts| ==> sep !in parts[k]
    ensures Split(Join(parts, sep), sep) == parts
    decreases |parts|
  {
    if |parts| > 1 {
      SplitJoin(parts[1..], sep);
      SplitAtFirst(parts[0], Join(parts[1..], sep), sep);
      assert [parts[0]] + parts[1..] == parts;
    }
  }

  // ---------------------------------------------------------------------
  // Numerals: int(), float() and str()
  // ---------------------------------------------------------------------

  predicate IsDigit(c: char) { '0' <= c <= '9' }

  predicate IsDigits(s: string) { forall k :: 0 <= k < |s| ==> IsDigit(s[k]) }

  /** A digit string contains no character that is not a digit. */
  lemma DigitsExclude(s: string, c: char)
    requires IsDigits(s) && !IsDigit(c)
    ensures c !in s
  {
    forall k | 0 <= k < |s|
      ensures s[k] != c
    {
      assert IsDigit(s[k]);
    }
  }

  /** The ASCII characters that str.strip() and int() treat as white space. */
  predicate IsSpace(c: char) { 9 <= c as int <= 13 || 28 <= c as int <= 32 }

  function TrimStart(s: string): string
    decreases |s|
  {
    if |s| > 0 && IsSpace(s[0]) then TrimStart(s[1..]) else s
  }

  function TrimEnd(s: string): string
    decreases |s|
  {
    if |s| > 0 && IsSpace(s[|s| - 1]) then TrimEnd(s[..|s| - 1]) else s
  }

  /** Python's `s.strip()`. */
  function Strip(s: string): string { TrimEnd(TrimStart(s)) }

  /** The value of a decimal digit string. */
  function DigitsValue(s: string): nat
    requires IsDigits(s)
  {
    if |s| == 0 then 0 else DigitsValue(s[..|s| - 1]) * 10 + (s[|s| - 1] as int - '0' as int)
  }

  /**
   * Python's `int(text)` (and `float(text)` on the same texts): a non-empty
   * run of decimal digits, possibly surrounded by white space.
   */
  function ParseInt(text: string): (r: Result<nat>)
    ensures r.Ok? ==> exists k :: 0 <= k < |text| && IsDigit(text[k])
    ensures r.Err? ==> r.error == ValueError(text)
  {
    var t := Strip(text);
    if |t| > 0 && IsDigits(t) then
      StrippedDigitsOccur(text);
      Ok(DigitsValue(t))
    else
      Err(ValueError(text))
  }

  /** Strip only removes characters at the ends: a digit it keeps is a digit of the text. */
  lemma StrippedDigitsOccur(s: string)
    requires |Strip(s)| > 0 && IsDigits(Strip(s))
    ensures exists k :: 0 <= k < |s| && IsDigit(s[k])
  {
    TrimStartIsSuffix(s);
    TrimEndIsPrefix(TrimStart(s));
    var i := |s| - |TrimStart(s)|;
    assert s[i..i + |Strip(s)|] == Strip(s);
    assert IsDigit(s[i]);
  }

  lemma {:induction false} TrimStartIsSuffix(s: string)
    ensures |TrimStart(s)| <= |s| && TrimStart(s) == s[|s| - |TrimStart(s)|..]
    decreases |s|
  {
    if |s| > 0 && IsSpace(s[0]) {
      TrimStartIsSuffix(s[1..]);
    }
  }

  lemma {:induction false} TrimEndIsPrefix(s: string)
    ensures |TrimEnd(s)| <= |s| && TrimEnd(s) == s[..|TrimEnd(s)|]
    decreases |s|
  {
    if |s| > 0 && IsSpace(s[|s| - 1]) {
      TrimEndIsPrefix(s[..|s| - 1]);
    }
  }

  function Digit(d: nat): char
    requires d < 10
  {
    ('0' as int + d) as char
  }

  /** Python's `str(n)` for a natural number. */
  function NatToString(n: nat): (s: string)
    ensures |s| > 0 && IsDigits(s)
  {
    if n < 10 then [Digit(n)] else NatToString(n / 10) + [Digit(n % 10)]
  }

  /** Reading back the decimal text of a number gives the number. */
  lemma {:induction false} DigitsOfNatToString(n: nat)
    ensures DigitsValue(NatToString(n)) == n
  {
    if n >= 10 {
      DigitsOfNatToString(n / 10);
      var s := NatToString(n);
      assert s[..|s| - 1] == NatToString(n / 10);
    }
  }

  /** int() of a digit string is its value. */
  lemma ParseIntOfDigits(s: string)
    requires |s| > 0 && IsDigits(s)
    ensures ParseInt(s) == Ok(DigitsValue(s))
  {
    assert TrimStart(s) == s;
    assert TrimEnd(s) == s;
  }

  /** int(str(n)) == n. */
  lemma ParseIntOfNatToString(n: nat)
    ensures ParseInt(NatToString(n)) == Ok(n)
  {
    DigitsOfNatToString(n);
    ParseIntOfDigits(NatToString(n));
  }

  /** str() is injective on natural numbers. */
  lemma NatToStringInjective(m: nat, n: nat)
    requires NatToString(m) == NatToString(n)
    ensures m == n
  {
    DigitsOfNatToString(m);
    DigitsOfNatToString(n);
  }

  // ---------------------------------------------------------------------
  // str.startswith, the substring test and str.lower()
  // ---------------------------------------------------------------------

  /** Python's `s.startswith(p)`. */
  predicate StartsWith(s: string, p: string) { p <= s }

  /** p occurs in s starting at index i. */
  ghost predicate OccursAt(s: string, p: string, i: int)
  {
    0 <= i && i + |p| <= |s| && s[i..i + |p|] == p
  }

  /** An occurrence is either at the front or in the tail. */
  lemma OccursFrontOrTail(s: string, p: string)
    ensures (exists i :: OccursAt(s, p, i)) <==>
            (p <= s || (|s| > 0 && exists i :: OccursAt(s[1..], p, i)))
  {
    if exists i :: OccursAt(s, p, i) {
      var i :| OccursAt(s, p, i);
      if i > 0 {
        assert s[1..][i - 1..i - 1 + |p|] == s[i..i + |p|];
        assert OccursAt(s[1..], p, i - 1);
      } else {
        assert p <= s;
      }
    }
    if p <= s {
      assert OccursAt(s, p, 0);
    } else if |s| > 0 && exists i :: OccursAt(s[1..], p, i) {
      var i :| OccursAt(s[1..], p, i);
      assert s[1..][i..i + |p|] == s[i + 1..i + 1 + |p|];
      assert OccursAt(s, p, i + 1);
    }
  }

  /** Python's substring test `p in s`, as a left-to-right search. */
  function Contains(s: string, p: string): (found: bool)
    ensures found <==> exists i :: OccursAt(s, p, i)
    decreases |s|
  {
    OccursFrontOrTail(s, p);
    if p <= s then true
    else if |s| == 0 then false
    else Contains(s[1..], p)
  }

  /**
   * str.lower() on one character, for ASCII and the Latin-1 upper-case letters
   * (U+00C0 to U+00DE without the multiplication sign), which map 32 code
   * points up.
   */
  function LowerChar(c: char): (l: char)
    ensures 'A' <= c <= 'Z' ==> 'a' <= l <= 'z'
    ensures !('A' <= c <= 'Z') && c as int < 192 ==> l == c
    ensures !('A' <= l <= 'Z')
  {
    if 'A' <= c <= 'Z' || (192 <= c as int <= 222 && c as int != 215) then (c as int + 32) as char
    else c
  }

  /** Python's `s.lower()`: no ASCII capital survives it. */
  function Lower(s: string): (l: string)
    ensures |l| == |s| && forall k :: 0 <= k < |s| ==> l[k] == LowerChar(s[k])
    ensures forall k :: 0 <= k < |l| ==> !('A' <= l[k] <= 'Z')
  {
    seq(|s|, k requires 0 <= k < |s| => LowerChar(s[k]))
  }
}
