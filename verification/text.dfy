/** The JavaScript string operations the plugins rely on, over `seq<char>`:
    `split` by one character or by a string, `join`, `includes`, `startsWith`,
    `trim`, ASCII `toLowerCase`, number rendering and the whitespace class of
    regular expressions. */
module Text {

  /** `s.split(c)` for a one-character separator: the pieces between separators,
      empty pieces included; always at least one piece. */
  function Split(s: string, c: char): (parts: seq<string>)
    ensures |parts| >= 1
    ensures forall i :: 0 <= i < |parts| ==> c !in parts[i]
  {
    if |s| == 0 then [""]
    else if s[0] == c then [""] + Split(s[1..], c)
    else
      var rest := Split(s[1..], c);
      [[s[0]] + rest[0]] + rest[1..]
  }

  /** `parts.join(sep)`. */
  function Join(parts: seq<string>, sep: string): string
  {
    if |parts| == 0 then ""
    else if |parts| == 1 then parts[0]
    else parts[0] + sep + Join(parts[1..], sep)
  }

  /** `s.includes(sub)`. */
  predicate Contains(s: string, sub: string)
  {
    sub <= s || (|s| > 0 && Contains(s[1..], sub))
  }

  /** `s.startsWith(p)`. */
  predicate StartsWith(s: string, p: string)
  {
    p <= s
  }

  /** Joining the pieces of a split with the separator gives back the string. */
  lemma {:induction false} JoinSplit(s: string, c: char)
    ensures Join(Split(s, c), [c]) == s
  {
    if |s| == 0 {
    } else if s[0] == c {
      JoinSplit(s[1..], c);
      var rest := Split(s[1..], c);
      assert Split(s, c) == [""] + rest;
      assert ([""] + rest)[1..] == rest;
      assert s == [c] + s[1..];
    } else {
      JoinSplit(s[1..], c);
      var rest := Split(s[1..], c);
      var parts := Split(s, c);
      assert parts == [[s[0]] + rest[0]] + rest[1..];
      if |rest| == 1 {
        assert parts == [[s[0]] + rest[0]];
      } else {
        assert parts[1..] == rest[1..];
        assert Join(rest, [c]) == rest[0] + [c] + Join(rest[1..], [c]);
      }
      assert s == [s[0]] + s[1..];
    }
  }

  /** Splitting a join of separator-free pieces gives back the pieces. */
  lemma {:induction false} SplitJoin(parts: seq<string>, c: char)
    requires |parts| >= 1
    requires forall i :: 0 <= i < |parts| ==> c !in parts[i]
    ensures Split(Join(parts, [c]), c) == parts
  {
    if |parts| == 1 {
      SplitNoSeparator(parts[0], c);
    } else {
      SplitJoin(parts[1..], c);
      assert Join(parts, [c]) == parts[0] + [c] + Join(parts[1..], [c]);
      SplitAfterPiece(parts[0], Join(parts[1..], [c]), c);
    }
  }

  /** A string holding the separator splits into at least two pieces. */
  lemma SplitSeveral(s: string, c: char)
    requires c in s
    ensures |Split(s, c)| >= 2
  {
    JoinSplit(s, c);
  }

  /** A string without the separator is its own single piece. */
  lemma {:induction false} SplitNoSeparator(s: string, c: char)
    requires c !in s
    ensures Split(s, c) == [s]
  {
    if |s| > 0 {
      SplitNoSeparator(s[1..], c);
      assert [s[0]] + s[1..] == s;
    }
  }

  /** A separator-free piece followed by the separator is the first piece. */
  lemma {:induction false} SplitAfterPiece(p: string, t: string, c: char)
    requires c !in p
    ensures Split(p + [c] + t, c) == [p] + Split(t, c)
  {
    if |p| == 0 {
      assert p + [c] + t == [c] + t;
      assert ([c] + t)[1..] == t;
    } else {
      SplitAfterPiece(p[1..], t, c);
      assert (p + [c] + t)[1..] == p[1..] + [c] + t;
      assert [p[0]] + p[1..] == p;
    }
  }

  /** The last piece of a split is what follows the last separator. */
  lemma {:induction false} SplitLastPiece(a: string, b: string, c: char)
    requires c !in b
    ensures var parts := Split(a + [c] + b, c); parts[|parts| - 1] == b
  {
    var s := a + [c] + b;
    if |a| == 0 {
      assert s == [c] + b;
      assert s[1..] == b;
      SplitNoSeparator(b, c);
    } else {
      SplitLastPiece(a[1..], b, c);
      assert s[1..] == a[1..] + [c] + b;
      if s[0] != c {
        assert s[1..][|a| - 1] == c;
        SplitSeveral(s[1..], c);
      }
    }
  }

  /** Joining two non-empty lists joins each and puts the separator between. */
  lemma {:induction false} JoinAppend(a: seq<string>, b: seq<string>, sep: string)
    requires |a| > 0 && |b| > 0
    ensures Join(a + b, sep) == Join(a, sep) + sep + Join(b, sep)
  {
    if |a| == 1 {
      assert (a + b)[1..] == b;
    } else {
      JoinAppend(a[1..], b, sep);
      assert (a + b)[1..] == a[1..] + b;
    }
  }

  /** A join starts with its first part and ends with its last. */
  lemma {:induction false} JoinEnds(parts: seq<string>, sep: string)
    requires |parts| > 0
    ensures parts[0] <= Join(parts, sep)
    ensures var j := Join(parts, sep); var last := parts[|parts| - 1];
      |j| >= |last| && j[|j| - |last|..] == last
  {
    if |parts| > 1 {
      JoinEnds(parts[1..], sep);
      var rest := Join(parts[1..], sep);
      var j := parts[0] + sep + rest;
      assert j[|j| - |rest|..] == rest;
      var last := parts[|parts| - 1];
      assert j[|j| - |last|..] == rest[|rest| - |last|..];
    }
  }

  /** Every character other than the separator lies in some piece. */
  lemma {:induction false} SplitKeepsChar(s: string, c: char, d: char)
    requires d != c && d in s
    ensures exists i :: 0 <= i < |Split(s, c)| && d in Split(s, c)[i]
  {
    if s[0] == d {
      var rest := Split(s[1..], c);
      assert d in Split(s, c)[0];
    } else {
      SplitKeepsChar(s[1..], c, d);
      var rest := Split(s[1..], c);
      var i :| 0 <= i < |rest| && d in rest[i];
      if s[0] == c {
        assert Split(s, c)[i + 1] == rest[i];
      } else if i == 0 {
        assert Split(s, c)[0] == [s[0]] + rest[0];
      } else {
        assert Split(s, c)[i] == rest[i];
      }
    }
  }

  /** A piece of a split only holds characters of the string. */
  lemma {:induction false} SplitPieceChars(s: string, c: char, i: nat, d: char)
    requires i < |Split(s, c)| && d in Split(s, c)[i]
    ensures d in s
  {
    if |s| == 0 {
    } else if s[0] == c {
      if i > 0 {
        SplitPieceChars(s[1..], c, i - 1, d);
      }
    } else {
      var rest := Split(s[1..], c);
      if i == 0 {
        if d != s[0] {
          assert d in rest[0];
          SplitPieceChars(s[1..], c, 0, d);
        }
      } else {
        assert Split(s, c)[i] == rest[i];
        SplitPieceChars(s[1..], c, i, d);
      }
    }
  }

  /** Every piece of a join of pieces separated by `sep`, at the character level:
      a character of a piece occurs in the joined string. */
  lemma {:induction false} JoinHasPieceChars(parts: seq<string>, sep: string, i: nat, d: char)
    requires i < |parts| && d in parts[i]
    ensures d in Join(parts, sep)
  {
    if |parts| > 1 && i > 0 {
      JoinHasPieceChars(parts[1..], sep, i - 1, d);
    }
  }

  /** Characters of a join come from the pieces or from the separator. */
  lemma {:induction false} JoinChars(parts: seq<string>, sep: string, d: char)
    requires d in Join(parts, sep)
    ensures d in sep || exists i :: 0 <= i < |parts| && d in parts[i]
  {
    if |parts| > 1 {
      if d !in parts[0] && d !in sep {
        JoinChars(parts[1..], sep, d);
        var i :| 0 <= i < |parts[1..]| && d in parts[1..][i];
        assert d in parts[i + 1];
      }
    }
  }

  /** A character missing from the string is missing from every piece. */
  lemma {:induction false} SplitPiecesFree(s: string, c: char, d: char)
    requires d !in s
    ensures forall i :: 0 <= i < |Split(s, c)| ==> d !in Split(s, c)[i]
  {
    if |s| > 0 {
      SplitPiecesFree(s[1..], c, d);
      assert s[0] != d;
    }
  }

  /** A character in no piece and not in the separator is not in the join. */
  lemma {:induction false} JoinFree(parts: seq<string>, sep: string, d: char)
    requires d !in sep && forall i :: 0 <= i < |parts| ==> d !in parts[i]
    ensures d !in Join(parts, sep)
  {
    if |parts| > 1 {
      JoinFree(parts[1..], sep, d);
    }
  }

  /** The index of the first occurrence of `c`, or |s| when there is none. */
  function IndexOfChar(s: string, c: char): (k: nat)
    ensures k <= |s|
    ensures c !in s[..k]
    ensures k < |s| ==> s[k] == c
    ensures k == |s| <==> c !in s
  {
    if |s| == 0 then 0
    else if s[0] == c then 0
    else
      var k := IndexOfChar(s[1..], c);
      assert s[1..][..k] == s[1..k + 1];
      assert s[..k + 1] == [s[0]] + s[1..k + 1];
      1 + k
  }

  /** The first piece of a split is everything before the first separator. */
  lemma {:induction false} SplitFirstPiece(s: string, c: char)
    ensures Split(s, c)[0] == s[..IndexOfChar(s, c)]
    ensures IndexOfChar(s, c) < |s| ==> Split(s, c)[1..] == Split(s[IndexOfChar(s, c) + 1..], c)
  {
    if |s| > 0 && s[0] != c {
      SplitFirstPiece(s[1..], c);
      var k := IndexOfChar(s[1..], c);
      assert s[..k + 1] == [s[0]] + s[1..][..k];
      if k < |s[1..]| {
        assert s[1..][k + 1..] == s[k + 2..];
      }
    }
  }

  /** `s.split(sep)` for a non-empty string separator: occurrences are found from
      the left and do not overlap. */
  function SplitOn(s: string, sep: string): (parts: seq<string>)
    requires |sep| > 0
    ensures |parts| >= 1
    decreases |s|
  {
    if |s| < |sep| then [s]
    else if sep <= s then [""] + SplitOn(s[|sep|..], sep)
    else
      var rest := SplitOn(s[1..], sep);
      [[s[0]] + rest[0]] + rest[1..]
  }

  /** Joining the pieces of `SplitOn` with the separator gives back the string. */
  lemma {:induction false} JoinSplitOn(s: string, sep: string)
    requires |sep| > 0
    ensures Join(SplitOn(s, sep), sep) == s
    decreases |s|
  {
    if |s| < |sep| {
    } else if sep <= s {
      JoinSplitOn(s[|sep|..], sep);
      JoinAfterEmpty(SplitOn(s[|sep|..], sep), sep, s[|sep|..]);
      assert s == sep + s[|sep|..];
    } else {
      JoinSplitOn(s[1..], sep);
      JoinFirstGrows(s[0], SplitOn(s[1..], sep), sep, s[1..]);
      assert s == [s[0]] + s[1..];
    }
  }

  /** An empty piece in front adds one separator in front. */
  lemma JoinAfterEmpty(rest: seq<string>, sep: string, t: string)
    requires |rest| >= 1 && Join(rest, sep) == t
    ensures Join([""] + rest, sep) == sep + t
  {
    assert ([""] + rest)[1..] == rest;
  }

  /** A character put in front of the first piece is put in front of the
      join. */
  lemma JoinFirstGrows(c: char, rest: seq<string>, sep: string, t: string)
    requires |rest| >= 1 && Join(rest, sep) == t
    ensures Join([[c] + rest[0]] + rest[1..], sep) == [c] + t
  {
    var parts := [[c] + rest[0]] + rest[1..];
    if |rest| > 1 {
      assert parts[1..] == rest[1..];
    }
  }

  /** ASCII `toLowerCase` of one character; other characters are unchanged. */
  function LowerChar(c: char): char
  {
    if 'A' <= c <= 'Z' then (c as int + 32) as char else c
  }

  /** `s.toLowerCase()` restricted to ASCII letters. */
  function ToLower(s: string): (r: string)
    ensures |r| == |s|
    ensures forall i :: 0 <= i < |s| ==> r[i] == LowerChar(s[i])
  {
    if |s| == 0 then "" else [LowerChar(s[0])] + ToLower(s[1..])
  }

  /** The characters JavaScript's `trim` removes and `\s` matches: white space
      and line terminators. */
  predicate IsSpace(c: char)
  {
    c == '\t' || c == '\n' || c == '\U{000B}' || c == '\U{000C}' || c == '\r' || c == ' '
    || c == '\U{00A0}' || c == '\U{1680}' || ('\U{2000}' <= c <= '\U{200A}')
    || c == '\U{2028}' || c == '\U{2029}' || c == '\U{202F}' || c == '\U{205F}'
    || c == '\U{3000}' || c == '\U{FEFF}'
  }

  /** The line terminators, which `.` in a regular expression does not match. */
  predicate IsLineTerminator(c: char)
  {
    c == '\n' || c == '\r' || c == '\U{2028}' || c == '\U{2029}'
  }

  predicate IsDigit(c: char)
  {
    '0' <= c <= '9'
  }

  /** `s.trim()`. */
  function Trim(s: string): (r: string)
    ensures |r| <= |s|
  {
    TrimEnd(TrimStart(s))
  }

  function TrimStart(s: string): (r: string)
    ensures |r| <= |s|
    ensures r == s[|s| - |r|..]
    ensures |r| > 0 ==> !IsSpace(r[0])
  {
    if |s| > 0 && IsSpace(s[0]) then TrimStart(s[1..]) else s
  }

  function TrimEnd(s: string): (r: string)
    ensures |r| <= |s|
    ensures r == s[..|r|]
    ensures |r| > 0 ==> !IsSpace(r[|r| - 1])
  {
    if |s| > 0 && IsSpace(s[|s| - 1]) then TrimEnd(s[..|s| - 1]) else s
  }

  /** The decimal rendering of an integer, as `String(n)` gives it. */
  function IntToString(n: int): string
  {
    if n < 0 then "-" + NatToString(-n) else NatToString(n)
  }

  function NatToString(n: nat): (r: string)
    ensures |r| >= 1
    ensures forall i :: 0 <= i < |r| ==> IsDigit(r[i])
    decreases n
  {
    if n < 10 then [DigitChar(n)] else NatToString(n / 10) + [DigitChar(n % 10)]
  }

  function DigitChar(d: nat): (c: char)
    requires d < 10
    ensures IsDigit(c)
  {
    ('0' as int + d) as char
  }

  /** Reading back a rendered number gives the number. */
  lemma {:induction false} NatToStringValue(n: nat)
    ensures DigitsValue(NatToString(n)) == n
    decreases n
  {
    var s := NatToString(n);
    if n >= 10 {
      NatToStringValue(n / 10);
      assert s[..|s| - 1] == NatToString(n / 10);
    } else {
      assert s[..0] == [];
    }
  }

  /** The value of a non-empty string of decimal digits. */
  function DigitsValue(s: string): nat
    requires forall i :: 0 <= i < |s| ==> IsDigit(s[i])
  {
    if |s| == 0 then 0
    else
      assert IsDigit(s[|s| - 1]);
      10 * DigitsValue(s[..|s| - 1]) + (s[|s| - 1] as int - '0' as int)
  }

  predicate AllDigits(s: string)
  {
    forall i :: 0 <= i < |s| ==> IsDigit(s[i])
  }

  /** The length of the run of characters at the start of `s` that satisfy `p`. */
  function RunLength(s: string, p: char -> bool): (k: nat)
    ensures k <= |s|
    ensures forall i :: 0 <= i < k ==> p(s[i])
    ensures k < |s| ==> !p(s[k])
  {
    if |s| == 0 || !p(s[0]) then 0 else 1 + RunLength(s[1..], p)
  }
}
