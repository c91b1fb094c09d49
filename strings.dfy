/** The parts of Rust's `str` API that the layout code relies on, over strings as
    sequences of Unicode scalar values. */
module Strings {
  import opened Seqs

  /** The pieces of `s` between occurrences of `sep`, as `str::split` with a `char`
      pattern yields them: "" gives [""], and a trailing separator gives a trailing
      empty piece. */
  function Split(s: string, sep: char): (pieces: seq<string>)
    ensures |pieces| >= 1
  {
    if s == [] then [[]]
    else
      var rest := Split(s[1..], sep);
      if s[0] == sep then [[]] + rest
      else [[s[0]] + rest[0]] + rest[1..]
  }

  /** No piece holds the separator. */
  lemma {:induction false} SplitPiecesFree(s: string, sep: char)
    ensures forall k :: 0 <= k < |Split(s, sep)| ==> sep !in Split(s, sep)[k]
  {
    if s != [] {
      var rest := Split(s[1..], sep);
      SplitPiecesFree(s[1..], sep);
      var pieces := Split(s, sep);
      forall k | 0 <= k < |pieces|
        ensures sep !in pieces[k]
      {
        if s[0] == sep {
          if k > 0 {
            assert pieces[k] == rest[k - 1];
          }
        } else if k == 0 {
          assert pieces[0] == [s[0]] + rest[0];
        } else {
          assert pieces[k] == rest[k];
        }
      }
    }
  }

  /** `pieces.join(sep)`. */
  function Join(pieces: seq<string>, sep: string): string
  {
    if |pieces| == 0 then []
    else if |pieces| == 1 then pieces[0]
    else pieces[0] + sep + Join(pieces[1..], sep)
  }

  /** Joining the pieces of a split with the separator gives back the original string. */
  lemma {:induction false} JoinSplit(s: string, sep: char)
    ensures Join(Split(s, sep), [sep]) == s
  {
    if s != [] {
      var rest := Split(s[1..], sep);
      JoinSplit(s[1..], sep);
      if s[0] == sep {
        assert Split(s, sep) == [[]] + rest;
      } else {
        var pieces := Split(s, sep);
        assert pieces == [[s[0]] + rest[0]] + rest[1..];
        if |rest| == 1 {
          assert Join(pieces, [sep]) == [s[0]] + rest[0];
        } else {
          assert pieces[1..] == rest[1..];
          calc {
            Join(pieces, [sep]);
            ([s[0]] + rest[0]) + [sep] + Join(rest[1..], [sep]);
            [s[0]] + (rest[0] + [sep] + Join(rest[1..], [sep]));
            [s[0]] + Join(rest, [sep]);
          }
        }
        assert s == [s[0]] + s[1..];
      }
    }
  }

  /** A string without the separator splits into itself alone. */
  lemma {:induction false} SplitWithoutSeparator(a: string, sep: char)
    requires sep !in a
    ensures Split(a, sep) == [a]
  {
    if a != [] {
      SplitWithoutSeparator(a[1..], sep);
      assert [a[0]] + a[1..] == a;
    }
  }

  /** Splitting `a + [sep] + t`, where `a` holds no separator, yields `a` and then the pieces of `t`. */
  lemma {:induction false} SplitAfterPiece(a: string, sep: char, t: string)
    requires sep !in a
    ensures Split(a + [sep] + t, sep) == [a] + Split(t, sep)
  {
    var s := a + [sep] + t;
    if a == [] {
      assert s[0] == sep && s[1..] == t;
    } else {
      assert s[0] == a[0] && s[1..] == a[1..] + [sep] + t;
      SplitAfterPiece(a[1..], sep, t);
      assert [a[0]] + a[1..] == a;
    }
  }

  /** Splitting the join of separator-free pieces gives back the pieces. */
  lemma {:induction false} SplitJoin(pieces: seq<string>, sep: char)
    requires |pieces| >= 1
    requires forall k :: 0 <= k < |pieces| ==> sep !in pieces[k]
    ensures Split(Join(pieces, [sep]), sep) == pieces
  {
    if |pieces| == 1 {
      SplitWithoutSeparator(pieces[0], sep);
    } else {
      SplitJoin(pieces[1..], sep);
      SplitAfterPiece(pieces[0], sep, Join(pieces[1..], [sep]));
      assert [pieces[0]] + pieces[1..] == pieces;
    }
  }

  /** A string splits into more than one piece exactly when it holds the separator. */
  lemma SplitIsSingleIff(s: string, sep: char)
    ensures |Split(s, sep)| == 1 <==> sep !in s
  {
    var pieces := Split(s, sep);
    JoinSplit(s, sep);
    if |pieces| > 1 {
      assert s == pieces[0] + [sep] + Join(pieces[1..], [sep]);
      assert s[|pieces[0]|] == sep;
    }
  }

  /** `char::is_whitespace`: the Unicode White_Space property. */
  predicate IsWhitespace(c: char)
  {
    ('\t' <= c <= '\r') || c == ' ' || c == '\U{0085}' || c == '\U{00A0}' || c == '\U{1680}'
    || ('\U{2000}' <= c <= '\U{200A}') || c == '\U{2028}' || c == '\U{2029}'
    || c == '\U{202F}' || c == '\U{205F}' || c == '\U{3000}'
  }

  predicate HasNoWhitespace(s: string)
  {
    forall k :: 0 <= k < |s| ==> !IsWhitespace(s[k])
  }

  /** `str::trim_start`. */
  function TrimStart(s: string): (r: string)
    ensures |r| <= |s|
  {
    if s != [] && IsWhitespace(s[0]) then TrimStart(s[1..]) else s
  }

  /** What `trim_start` keeps is a suffix that does not start with whitespace, and
      what it drops is all whitespace. */
  lemma {:induction false} TrimStartShape(s: string)
    ensures TrimStart(s) == s[|s| - |TrimStart(s)|..]
    ensures TrimStart(s) == [] || !IsWhitespace(TrimStart(s)[0])
    ensures forall k :: 0 <= k < |s| - |TrimStart(s)| ==> IsWhitespace(s[k])
  {
    if s != [] && IsWhitespace(s[0]) {
      TrimStartShape(s[1..]);
      assert s[1..][|s| - 1 - |TrimStart(s)|..] == s[|s| - |TrimStart(s)|..];
      forall k | 0 <= k < |s| - |TrimStart(s)|
        ensures IsWhitespace(s[k])
      {
        if k > 0 {
          assert s[k] == s[1..][k - 1];
        }
      }
    }
  }

  /** `str::trim_end`. */
  function TrimEnd(s: string): (r: string)
    ensures |r| <= |s|
  {
    if s != [] && IsWhitespace(s[|s| - 1]) then TrimEnd(s[..|s| - 1]) else s
  }

  /** What `trim_end` keeps is a prefix that does not end with whitespace, and what it
      drops is all whitespace. */
  lemma {:induction false} TrimEndShape(s: string)
    ensures TrimEnd(s) == s[..|TrimEnd(s)|]
    ensures TrimEnd(s) == [] || !IsWhitespace(TrimEnd(s)[|TrimEnd(s)| - 1])
    ensures forall k :: |TrimEnd(s)| <= k < |s| ==> IsWhitespace(s[k])
  {
    if s != [] && IsWhitespace(s[|s| - 1]) {
      TrimEndShape(s[..|s| - 1]);
      assert s[..|s| - 1][..|TrimEnd(s)|] == s[..|TrimEnd(s)|];
      forall k | |TrimEnd(s)| <= k < |s|
        ensures IsWhitespace(s[k])
      {
        if k < |s| - 1 {
          assert s[k] == s[..|s| - 1][k];
        }
      }
    }
  }

  /** `str::trim`: the largest infix that neither starts nor ends with whitespace. */
  function Trim(s: string): string
  {
    TrimEnd(TrimStart(s))
  }

  /** The trimmed string is the infix of `s` from `i` on, neither starting nor ending
      with whitespace, and everything around it is whitespace. */
  lemma TrimMeaning(s: string)
    ensures var r := Trim(s); var i := |s| - |TrimStart(s)|;
      && i + |r| <= |s| && r == s[i..i + |r|]
      && (r == [] || (!IsWhitespace(r[0]) && !IsWhitespace(r[|r| - 1])))
      && (forall k :: 0 <= k < i ==> IsWhitespace(s[k]))
      && (forall k :: i + |r| <= k < |s| ==> IsWhitespace(s[k]))
  {
    var t := TrimStart(s);
    var r := Trim(s);
    var i := |s| - |t|;
    TrimStartShape(s);
    TrimEndShape(t);
    assert r == t[..|r|];
    assert r == s[i..i + |r|];
    if r != [] {
      assert r[0] == t[0];
    }
    forall k | i + |r| <= k < |s|
      ensures IsWhitespace(s[k])
    {
      assert s[k] == t[k - i];
    }
  }

  /** The longest prefix of `s` holding no whitespace. */
  function LeadingWord(s: string): (w: string)
    ensures |w| <= |s|
  {
    if s == [] || IsWhitespace(s[0]) then [] else [s[0]] + LeadingWord(s[1..])
  }

  /** The leading word is a prefix without whitespace, followed by whitespace if anything. */
  lemma {:induction false} LeadingWordShape(s: string)
    ensures LeadingWord(s) == s[..|LeadingWord(s)|] && HasNoWhitespace(LeadingWord(s))
    ensures |LeadingWord(s)| < |s| ==> IsWhitespace(s[|LeadingWord(s)|])
  {
    if s != [] && !IsWhitespace(s[0]) {
      var w := LeadingWord(s[1..]);
      LeadingWordShape(s[1..]);
      assert LeadingWord(s) == [s[0]] + w;
      assert s[..|w| + 1] == [s[0]] + s[1..][..|w|];
      forall k | 0 <= k < |w| + 1
        ensures !IsWhitespace(LeadingWord(s)[k])
      {
        if k > 0 {
          assert LeadingWord(s)[k] == w[k - 1];
        }
      }
      if |w| + 1 < |s| {
        assert s[|w| + 1] == s[1..][|w|];
      }
    }
  }

  /** Trimming keeps only characters of the original. */
  lemma TrimStartFrom(s: string, c: char)
    requires c in TrimStart(s)
    ensures c in s
  {
    var t := TrimStart(s);
    TrimStartShape(s);
    var i :| 0 <= i < |t| && t[i] == c;
    assert t[i] == s[|s| - |t| + i];
  }

  /** The first word of a string with some non-whitespace character. */
  function FirstWord(s: string): (w: string)
    requires TrimStart(s) != []
    ensures w != []
  {
    TrimStartShape(s);
    LeadingWord(TrimStart(s))
  }

  /** What follows the first word: shorter than the string. */
  function AfterFirstWord(s: string): (r: string)
    requires TrimStart(s) != []
    ensures |r| < |s|
  {
    TrimStart(s)[|FirstWord(s)|..]
  }

  /** `str::split_whitespace`: the maximal runs of non-whitespace characters. */
  function Words(s: string): seq<string>
    decreases |s|
  {
    if TrimStart(s) == [] then [] else [FirstWord(s)] + Words(AfterFirstWord(s))
  }

  /** A character of a prefix or of a suffix of a string is a character of the string. */
  lemma InPrefix(t: string, j: nat, c: char)
    requires j <= |t| && c in t[..j]
    ensures c in t
  {
    var n :| 0 <= n < j && t[..j][n] == c;
    assert t[n] == c;
  }

  lemma InSuffix(t: string, i: nat, c: char)
    requires i <= |t| && c in t[i..]
    ensures c in t
  {
    var n :| 0 <= n < |t| - i && t[i..][n] == c;
    assert t[i + n] == c;
  }

  /** The characters of the first word, and of what follows it, are the string's. */
  lemma AroundFirstWord(s: string, c: char)
    requires TrimStart(s) != []
    requires c in FirstWord(s) || c in AfterFirstWord(s)
    ensures c in s
  {
    var t := TrimStart(s);
    var w := FirstWord(s);
    LeadingWordShape(t);
    if c in w {
      InPrefix(t, |w|, c);
    } else {
      InSuffix(t, |w|, c);
    }
    TrimStartFrom(s, c);
  }

  /** A later word of a string is a word of what follows its first word. */
  lemma LaterWord(s: string, k: nat)
    requires 0 < k < |Words(s)|
    ensures TrimStart(s) != []
    ensures k - 1 < |Words(AfterFirstWord(s))| && Words(s)[k] == Words(AfterFirstWord(s))[k - 1]
  {
    ConsIndex(FirstWord(s), Words(AfterFirstWord(s)), k);
  }

  /** Every character of a word is a character of the string. */
  lemma {:induction false} WordsFrom(s: string, k: nat, c: char)
    requires k < |Words(s)| && c in Words(s)[k]
    ensures c in s
    decreases k
  {
    assert TrimStart(s) != [];
    if k > 0 {
      LaterWord(s, k);
      WordsFrom(AfterFirstWord(s), k - 1, c);
    }
    AroundFirstWord(s, c);
  }

  /** Every word is a non-empty run of non-whitespace characters. */
  lemma {:induction false} WordsShape(s: string)
    ensures forall k :: 0 <= k < |Words(s)| ==> Words(s)[k] != [] && HasNoWhitespace(Words(s)[k])
    decreases |s|
  {
    if TrimStart(s) != [] {
      LeadingWordShape(TrimStart(s));
      WordsShape(AfterFirstWord(s));
      forall k | 0 <= k < |Words(s)|
        ensures Words(s)[k] != [] && HasNoWhitespace(Words(s)[k])
      {
        if k > 0 {
          LaterWord(s, k);
        }
      }
    }
  }

  function AsciiUpperChar(c: char): char
  {
    if 'a' <= c <= 'z' then (c as int - 32) as char else c
  }

  function AsciiLowerChar(c: char): char
  {
    if 'A' <= c <= 'Z' then (c as int + 32) as char else c
  }

  /** `str::to_uppercase`, for the ASCII letters. */
  function ToUpper(s: string): (r: string)
    ensures |r| == |s|
  {
    seq(|s|, k requires 0 <= k < |s| => AsciiUpperChar(s[k]))
  }

  /** An upper-cased string holds no ASCII lower-case letter. */
  lemma NoLowerAfterUpper(s: string, c: char)
    requires c in ToUpper(s)
    ensures !('a' <= c <= 'z')
  {
    var i :| 0 <= i < |s| && ToUpper(s)[i] == c;
  }

  /** `str::to_lowercase`, for the ASCII letters. */
  function ToLower(s: string): (r: string)
    ensures |r| == |s|
  {
    seq(|s|, k requires 0 <= k < |s| => AsciiLowerChar(s[k]))
  }

  /** The number of bytes `c` takes in UTF-8. */
  function Utf8Width(c: char): nat
  {
    if c as int < 0x80 then 1 else if c as int < 0x800 then 2 else if c as int < 0x10000 then 3 else 4
  }

  /** `str::len`: the length of the UTF-8 encoding, never below the number of characters. */
  function Utf8Len(s: string): (n: nat)
    ensures n >= |s|
    ensures (forall k :: 0 <= k < |s| ==> s[k] as int < 0x80) ==> n == |s|
  {
    if s == [] then 0 else Utf8Width(s[0]) + Utf8Len(s[1..])
  }

  /** `format!("{:<width$}", s)`: `s` left-aligned and padded with spaces up to `width` characters. */
  function PadRight(s: string, width: nat): (r: string)
    ensures |r| == if |s| < width then width else |s|
    ensures r[..|s|] == s
    ensures forall k :: |s| <= k < |r| ==> r[k] == ' '
  {
    s + seq(if |s| < width then width - |s| else 0, _ => ' ')
  }

  /** The decimal digits of `n`, most significant first, without leading zeros. */
  function Digits(n: nat): (r: string)
    ensures |r| >= 1 && (forall k :: 0 <= k < |r| ==> '0' <= r[k] <= '9')
    ensures |r| > 1 ==> r[0] != '0'
  {
    if n < 10 then [('0' as int + n) as char]
    else Digits(n / 10) + [('0' as int + n % 10) as char]
  }

  /** The number a string of decimal digits denotes. */
  function DigitsValue(s: string): nat
  {
    if s == [] then 0
    else 10 * DigitsValue(s[..|s| - 1]) + (if '0' <= s[|s| - 1] <= '9' then s[|s| - 1] as int - '0' as int else 0)
  }

  /** Reading the digits back gives the number. */
  lemma {:induction false} DigitsRoundTrip(n: nat)
    ensures DigitsValue(Digits(n)) == n
  {
    var r := Digits(n);
    if n >= 10 {
      DigitsRoundTrip(n / 10);
      assert r[..|r| - 1] == Digits(n / 10);
    }
  }

  /** `Display` for a signed integer: a minus sign for negative values, then the digits. */
  function IntToString(n: int): string
  {
    if n < 0 then "-" + Digits(-n) else Digits(n)
  }

  /** The text is a sign and digits that denote the number. */
  lemma IntToStringMeaning(n: int)
    ensures n >= 0 ==> IntToString(n)[0] != '-' && DigitsValue(IntToString(n)) == n
    ensures n < 0 ==> IntToString(n)[0] == '-' && DigitsValue(IntToString(n)[1..]) == -n
  {
    DigitsRoundTrip(if n < 0 then -n else n);
    if n < 0 {
      assert IntToString(n)[1..] == Digits(-n);
    }
  }
}
