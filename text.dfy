/**
 * The string primitives the schema engine relies on: .NET's `Trim()` (which
 * strips every character for which `char.IsWhiteSpace` holds),
 * `ToLowerInvariant()`, `string.Join`, splitting a path on '/', and repetition.
 */
module Text {

  /** The characters `char.IsWhiteSpace` accepts (Unicode Zs, Zl, Zp, plus U+0009-U+000D and U+0085). */
  predicate IsWhiteSpace(c: char)
  {
    ('\t' <= c <= '\r') || c == ' ' || c == '\U{85}' || c == '\U{A0}' || c == '\U{1680}'
    || ('\U{2000}' <= c <= '\U{200A}') || c == '\U{2028}' || c == '\U{2029}'
    || c == '\U{202F}' || c == '\U{205F}' || c == '\U{3000}'
  }

  /** Drops the leading white space. */
  function TrimStart(s: string): string
  {
    if s != [] && IsWhiteSpace(s[0]) then TrimStart(s[1..]) else s
  }

  /** `TrimStart` keeps a suffix that does not begin with white space, and drops only white space. */
  lemma {:induction false} TrimStartSpec(s: string)
    ensures var r := TrimStart(s);
      |r| <= |s| && r == s[|s| - |r|..]
      && (r == [] || !IsWhiteSpace(r[0]))
      && forall i :: 0 <= i < |s| - |r| ==> IsWhiteSpace(s[i])
  {
    if s != [] && IsWhiteSpace(s[0]) {
      var t := s[1..];
      var r := TrimStart(t);
      TrimStartSpec(t);
      assert r == t[|t| - |r|..];
      assert t[|t| - |r|..] == s[|s| - |r|..];
      forall i | 0 <= i < |s| - |r|
        ensures IsWhiteSpace(s[i])
      {
        if i > 0 {
          assert s[i] == t[i - 1];
        }
      }
    }
  }

  /** Drops the trailing white space. */
  function TrimEnd(s: string): string
  {
    if s != [] && IsWhiteSpace(s[|s| - 1]) then TrimEnd(s[..|s| - 1]) else s
  }

  /** `TrimEnd` keeps a prefix that does not end with white space, and drops only white space. */
  lemma {:induction false} TrimEndSpec(s: string)
    ensures var r := TrimEnd(s);
      |r| <= |s| && r == s[..|r|]
      && (r == [] || !IsWhiteSpace(r[|r| - 1]))
      && forall i :: |r| <= i < |s| ==> IsWhiteSpace(s[i])
  {
    if s != [] && IsWhiteSpace(s[|s| - 1]) {
      TrimEndSpec(s[..|s| - 1]);
    }
  }

  /** `string.Trim()`. */
  function Trim(s: string): string
  {
    TrimEnd(TrimStart(s))
  }

  /** Trimming leaves a string that neither begins nor ends with white space. */
  lemma TrimShape(s: string)
    ensures var r := Trim(s);
      r == [] || (!IsWhiteSpace(r[0]) && !IsWhiteSpace(r[|r| - 1]))
  {
    var t := TrimStart(s);
    var r := TrimEnd(t);
    TrimStartSpec(s);
    TrimEndSpec(t);
    if r != [] {
      assert r[0] == t[0];
    }
  }

  lemma TrimStartOfTrimmed(s: string)
    requires s == [] || !IsWhiteSpace(s[0])
    ensures TrimStart(s) == s
  {
  }

  lemma TrimEndOfTrimmed(s: string)
    requires s == [] || !IsWhiteSpace(s[|s| - 1])
    ensures TrimEnd(s) == s
  {
  }

  /** A string with no white space at either end is its own trim. */
  lemma TrimOfTrimmed(s: string)
    requires s == [] || (!IsWhiteSpace(s[0]) && !IsWhiteSpace(s[|s| - 1]))
    ensures Trim(s) == s
  {
    TrimStartOfTrimmed(s);
    TrimEndOfTrimmed(s);
  }

  /** Trimming twice is trimming once. */
  lemma TrimIdempotent(s: string)
    ensures Trim(Trim(s)) == Trim(s)
  {
    var r := Trim(s);
    TrimShape(s);
    TrimOfTrimmed(r);
  }

  /** The invariant-culture lower-case mapping on the ASCII letters; every other character is kept. */
  function ToLowerChar(c: char): char
  {
    if 'A' <= c <= 'Z' then (c as int + 32) as char else c
  }

  /** `ToLowerInvariant()`. */
  function ToLower(s: string): (r: string)
    ensures |r| == |s|
  {
    if s == [] then [] else [ToLowerChar(s[0])] + ToLower(s[1..])
  }

  /** Lowering works character by character. */
  lemma {:induction false} ToLowerSpec(s: string)
    ensures forall i :: 0 <= i < |s| ==> ToLower(s)[i] == ToLowerChar(s[i])
  {
    if s != [] {
      ToLowerSpec(s[1..]);
    }
  }

  /** A string without upper-case ASCII letters is its own lower-case form. */
  lemma ToLowerOfLower(s: string)
    requires forall i :: 0 <= i < |s| ==> !('A' <= s[i] <= 'Z')
    ensures ToLower(s) == s
  {
    ToLowerSpec(s);
  }

  /** Lowering twice is lowering once. */
  lemma ToLowerIdempotent(s: string)
    ensures ToLower(ToLower(s)) == ToLower(s)
  {
    ToLowerSpec(s);
    ToLowerSpec(ToLower(s));
  }

  /** Lowering maps white space to white space and nothing else to white space. */
  lemma ToLowerKeepsWhiteSpace(c: char)
    ensures IsWhiteSpace(ToLowerChar(c)) <==> IsWhiteSpace(c)
  {
  }

  lemma {:induction false} TrimStartToLower(s: string)
    ensures TrimStart(ToLower(s)) == ToLower(TrimStart(s))
    decreases |s|
  {
    if s != [] {
      ToLowerKeepsWhiteSpace(s[0]);
      assert ToLower(s) == [ToLowerChar(s[0])] + ToLower(s[1..]);
      if IsWhiteSpace(s[0]) {
        assert ToLower(s)[1..] == ToLower(s[1..]);
        TrimStartToLower(s[1..]);
      }
    }
  }

  lemma {:induction false} ToLowerPrefix(s: string)
    requires s != []
    ensures ToLower(s) == ToLower(s[..|s| - 1]) + [ToLowerChar(s[|s| - 1])]
  {
    ToLowerSpec(s);
    ToLowerSpec(s[..|s| - 1]);
    assert ToLower(s) == ToLower(s[..|s| - 1]) + [ToLowerChar(s[|s| - 1])];
  }

  lemma {:induction false} TrimEndToLower(s: string)
    ensures TrimEnd(ToLower(s)) == ToLower(TrimEnd(s))
    decreases |s|
  {
    if s != [] {
      ToLowerKeepsWhiteSpace(s[|s| - 1]);
      ToLowerPrefix(s);
      var l := ToLower(s);
      assert l[|l| - 1] == ToLowerChar(s[|s| - 1]);
      if IsWhiteSpace(s[|s| - 1]) {
        assert l[..|l| - 1] == ToLower(s[..|s| - 1]);
        TrimEndToLower(s[..|s| - 1]);
      }
    }
  }

  /** Trimming and lowering commute, so the order in which a parser applies them does not matter. */
  lemma TrimToLower(s: string)
    ensures Trim(ToLower(s)) == ToLower(Trim(s))
  {
    TrimStartToLower(s);
    TrimEndToLower(TrimStart(s));
  }

  /** `string.Join(sep, parts)`. */
  function Join(sep: string, parts: seq<string>): (r: string)
    ensures parts == [] ==> r == ""
    ensures |parts| == 1 ==> r == parts[0]
  {
    if parts == [] then ""
    else if |parts| == 1 then parts[0]
    else parts[0] + sep + Join(sep, parts[1..])
  }

  /** Number of occurrences of `c` in `s`. */
  function Occurrences(s: string, c: char): nat
  {
    if s == [] then 0 else (if s[0] == c then 1 else 0) + Occurrences(s[1..], c)
  }

  lemma {:induction false} OccurrencesConcat(a: string, b: string, c: char)
    ensures Occurrences(a + b, c) == Occurrences(a, c) + Occurrences(b, c)
    decreases |a|
  {
    if a == [] {
      assert a + b == b;
    } else {
      assert (a + b)[1..] == a[1..] + b;
      OccurrencesConcat(a[1..], b, c);
    }
  }

  lemma {:induction false} NoOccurrences(s: string, c: char)
    requires c !in s
    ensures Occurrences(s, c) == 0
    decreases |s|
  {
    if s != [] {
      NoOccurrences(s[1..], c);
    }
  }

  /** Splits `s` at every occurrence of `sep`; there is always one more part than separators. */
  function Split(s: string, sep: char): (parts: seq<string>)
    ensures |parts| == Occurrences(s, sep) + 1
    ensures forall i :: 0 <= i < |parts| ==> sep !in parts[i]
    decreases |s|
  {
    if s == [] then [""]
    else
      var rest := Split(s[1..], sep);
      if s[0] == sep then [""] + rest
      else [[s[0]] + rest[0]] + rest[1..]
  }

  /** Splitting and joining with the same separator gives back the original string. */
  lemma {:induction false} JoinSplit(s: string, sep: char)
    ensures Join([sep], Split(s, sep)) == s
    decreases |s|
  {
    if s != [] {
      var rest := Split(s[1..], sep);
      JoinSplit(s[1..], sep);
      if s[0] == sep {
        assert Split(s, sep) == [""] + rest;
        assert Join([sep], [""] + rest) == "" + [sep] + Join([sep], rest);
      } else {
        var parts := [[s[0]] + rest[0]] + rest[1..];
        assert Split(s, sep) == parts;
        if |rest| == 1 {
          assert Join([sep], parts) == [s[0]] + rest[0];
        } else {
          assert parts[1..] == rest[1..];
          assert Join([sep], rest) == rest[0] + [sep] + Join([sep], rest[1..]);
        }
      }
    }
  }

  /** `n` copies of `s` back to back; `new string(' ', n)` is `Repeat(" ", n)`. */
  function Repeat(s: string, n: nat): (r: string)
    ensures |r| == n * |s|
  {
    if n == 0 then "" else s + Repeat(s, n - 1)
  }

  lemma {:induction false} RepeatAdd(s: string, m: nat, n: nat)
    ensures Repeat(s, m + n) == Repeat(s, m) + Repeat(s, n)
    decreases m
  {
    if m > 0 {
      RepeatAdd(s, m - 1, n);
    }
  }

  /** The decimal digit for `d`. */
  function DigitChar(d: nat): char
    requires d < 10
  {
    ('0' as int + d) as char
  }

  /** The decimal rendering of a natural number, without leading zeros. */
  function NatToString(n: nat): string
    decreases n
  {
    if n < 10 then [DigitChar(n)] else NatToString(n / 10) + [DigitChar(n % 10)]
  }

  /** A rendering is a non-empty run of decimal digits that starts with a non-zero digit unless it is "0". */
  lemma {:induction false} NatToStringDigits(n: nat)
    ensures var r := NatToString(n);
      |r| > 0 && (forall i :: 0 <= i < |r| ==> '0' <= r[i] <= '9') && (r[0] == '0' <==> n == 0)
    decreases n
  {
    if n >= 10 {
      NatToStringDigits(n / 10);
    }
  }

  /** `int.ToString()` in the invariant culture. */
  function IntToString(n: int): string
  {
    if n < 0 then "-" + NatToString(-n) else NatToString(n)
  }

  /** The rendering of 255, the undefined modifier value the unit tests use. */
  lemma NatToString255()
    ensures NatToString(255) == "255"
  {
    assert NatToString(2) == "2";
    assert NatToString(25) == "25";
  }

  /** Worked examples of the normalisations applied to type names and booleans. */
  lemma LowerTrue()
    ensures ToLower("True") == "true"
  {
  }

  lemma LowerFalse()
    ensures ToLower("FALSE") == "false"
  {
  }

  lemma LowerInt()
    ensures ToLower(" INT ") == " int "
  {
  }

  lemma TrimStartInt()
    ensures TrimStart(" int ") == "int "
  {
    assert " int "[1..] == "int ";
    TrimStartOfTrimmed("int ");
  }

  lemma TrimEndInt()
    ensures TrimEnd("int ") == "int"
  {
    assert "int "[..3] == "int";
    TrimEndOfTrimmed("int");
  }
}
