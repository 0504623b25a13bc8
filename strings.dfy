/** The JavaScript string built-ins the frontend relies on: `trim`, the `\s` and `.` character
    classes, `split` on one character and on `/\r?\n/`, `includes`, and ASCII case mapping. */
module Strings {

  /** ECMAScript WhiteSpace and LineTerminator code points: what `trim` strips and what `\s` matches. */
  predicate IsSpace(c: char)
  {
    || c == ' ' || c == '\t' || c == '\n' || c == '\r' || c == '\U{000B}' || c == '\U{000C}'
    || c == '\U{00A0}' || c == '\U{1680}' || ('\U{2000}' <= c <= '\U{200A}')
    || c == '\U{2028}' || c == '\U{2029}' || c == '\U{202F}' || c == '\U{205F}'
    || c == '\U{3000}' || c == '\U{FEFF}'
  }

  /** ECMAScript LineTerminator: the characters that the regex `.` does not match. */
  predicate IsLineTerminator(c: char)
  {
    c == '\n' || c == '\r' || c == '\U{2028}' || c == '\U{2029}'
  }

  /** Every line terminator is also whitespace. */
  lemma LineTerminatorIsSpace(c: char)
    ensures IsLineTerminator(c) ==> IsSpace(c)
  {
  }

  /** Every character of `x` occurs in `u`: `x` was cut out of `u` or assembled from its pieces. */
  predicate CharsFrom(x: string, u: string)
  {
    forall k :: 0 <= k < |x| ==> x[k] in u
  }

  predicate AllSpace(s: string)
  {
    forall k :: 0 <= k < |s| ==> IsSpace(s[k])
  }

  /** The first index at or after `i` that holds no whitespace, or `|s|`. */
  function SkipSpace(s: string, i: nat): (a: nat)
    requires i <= |s|
    decreases |s| - i
    ensures i <= a <= |s|
    ensures forall k :: i <= k < a ==> IsSpace(s[k])
    ensures a < |s| ==> !IsSpace(s[a])
  {
    if i < |s| && IsSpace(s[i]) then SkipSpace(s, i + 1) else i
  }

  /** The end of `s[lo..j]` once its whitespace suffix is dropped. */
  function DropSpaceEnd(s: string, lo: nat, j: nat): (b: nat)
    requires lo <= j <= |s|
    decreases j
    ensures lo <= b <= j
    ensures forall k :: b <= k < j ==> IsSpace(s[k])
    ensures b > lo ==> !IsSpace(s[b - 1])
  {
    if j > lo && IsSpace(s[j - 1]) then DropSpaceEnd(s, lo, j - 1) else j
  }

  /** Where the trimmed text starts within `s`. */
  function TrimOffset(s: string): (a: nat)
    ensures a <= |s|
  {
    SkipSpace(s, 0)
  }

  /** `s.trim()`: the piece of `s` left when its leading and trailing whitespace is removed; it
      neither starts nor ends with whitespace and is empty exactly when `s` is all whitespace. */
  function Trim(s: string): (r: string)
    ensures r == [] || (!IsSpace(r[0]) && !IsSpace(r[|r| - 1]))
    ensures r == [] <==> AllSpace(s)
    ensures TrimOffset(s) + |r| <= |s| && r == s[TrimOffset(s)..TrimOffset(s) + |r|]
  {
    var a := SkipSpace(s, 0);
    s[a..DropSpaceEnd(s, a, |s|)]
  }

  /** Trimming only removes characters. */
  lemma TrimChars(s: string)
    ensures CharsFrom(Trim(s), s)
  {
    var a := TrimOffset(s);
    var r := Trim(s);
    forall k | 0 <= k < |r| ensures r[k] in s {
      assert r[k] == s[a + k];
    }
  }

  /** At the end of a whitespace run that stops at a non-space character, `SkipSpace` stops there. */
  lemma {:induction false} SkipSpaceAt(s: string, i: nat, a: nat)
    requires i <= a <= |s|
    requires forall k :: i <= k < a ==> IsSpace(s[k])
    requires a < |s| ==> !IsSpace(s[a])
    ensures SkipSpace(s, i) == a
    decreases a - i
  {
    if i < a {
      SkipSpaceAt(s, i + 1, a);
    }
  }

  /** At the start of a whitespace suffix after a non-space character, `DropSpaceEnd` stops there. */
  lemma {:induction false} DropSpaceEndAt(s: string, lo: nat, j: nat, b: nat)
    requires lo < b <= j <= |s|
    requires forall k :: b <= k < j ==> IsSpace(s[k])
    requires !IsSpace(s[b - 1])
    ensures DropSpaceEnd(s, lo, j) == b
  {
    if b < j {
      DropSpaceEndAt(s, lo, j - 1, b);
    }
  }

  /** An independent description of `trim`: whitespace, then text with non-space ends, then
      whitespace, trims to that text. */
  lemma TrimOf(w1: string, r: string, w2: string)
    requires AllSpace(w1) && AllSpace(w2)
    requires r == [] || (!IsSpace(r[0]) && !IsSpace(r[|r| - 1]))
    ensures Trim(w1 + r + w2) == r
  {
    var s := w1 + r + w2;
    if r == [] {
      assert AllSpace(s) by {
        forall k | 0 <= k < |s| ensures IsSpace(s[k]) {
          if k < |w1| { assert s[k] == w1[k]; } else { assert s[k] == w2[k - |w1|]; }
        }
      }
    } else {
      forall k | 0 <= k < |w1| ensures IsSpace(s[k]) {
        assert s[k] == w1[k];
      }
      assert s[|w1|] == r[0];
      SkipSpaceAt(s, 0, |w1|);
      var b := |w1| + |r|;
      forall k | b <= k < |s| ensures IsSpace(s[k]) {
        assert s[k] == w2[k - b];
      }
      assert s[b - 1] == r[|r| - 1];
      DropSpaceEndAt(s, |w1|, |s|, b);
      assert s[|w1|..b] == r;
    }
  }

  /** `s` is its whitespace prefix, its trimmed text and its whitespace suffix. */
  lemma TrimSplits(s: string)
    ensures var a := TrimOffset(s); var t := Trim(s);
      && AllSpace(s[..a]) && AllSpace(s[a + |t|..]) && s == s[..a] + t + s[a + |t|..]
  {
    var a := TrimOffset(s);
    var t := Trim(s);
    if t != [] {
      var w2 := s[a + |t|..];
      assert AllSpace(w2) by {
        forall k | 0 <= k < |w2| ensures IsSpace(w2[k]) {
          assert w2[k] == s[a + |t| + k];
        }
      }
    }
    assert s == s[..a] + s[a..a + |t|] + s[a + |t|..];
  }

  /** A string that neither starts nor ends with whitespace is its own trim. */
  lemma TrimUnspaced(r: string)
    requires r == [] || (!IsSpace(r[0]) && !IsSpace(r[|r| - 1]))
    ensures Trim(r) == r
  {
    TrimOf("", r, "");
    assert "" + r + "" == r;
  }

  /** Trimming is idempotent. */
  lemma TrimIdempotent(s: string)
    ensures Trim(Trim(s)) == Trim(s)
  {
    var t := Trim(s);
    TrimUnspaced(t);
  }

  /** `s.split(sep)` for a one-character separator: the pieces between the separators, in order.
      There is always at least one piece, and no piece holds the separator. */
  function Split(s: string, sep: char): (r: seq<string>)
    ensures |r| >= 1
    ensures forall k :: 0 <= k < |r| ==> sep !in r[k]
  {
    if |s| == 0 then [""]
    else
      var rest := Split(s[1..], sep);
      if s[0] == sep then [""] + rest
      else [[s[0]] + rest[0]] + rest[1..]
  }

  /** A string without the separator is a single piece. */
  lemma {:induction false} SplitWithout(s: string, sep: char)
    requires sep !in s
    ensures Split(s, sep) == [s]
  {
    if |s| > 0 {
      SplitWithout(s[1..], sep);
      assert s == [s[0]] + s[1..];
    }
  }

  /** The first separator ends the first piece. */
  lemma {:induction false} SplitAtFirst(a: string, sep: char, b: string)
    requires sep !in a
    ensures Split(a + [sep] + b, sep) == [a] + Split(b, sep)
  {
    if |a| == 0 {
      assert a + [sep] + b == [sep] + b;
      assert ([sep] + b)[1..] == b;
    } else {
      assert (a + [sep] + b)[1..] == a[1..] + [sep] + b;
      SplitAtFirst(a[1..], sep, b);
      assert a == [a[0]] + a[1..];
    }
  }

  /** The pieces of a split are made of the string's characters. */
  lemma {:induction false} SplitChars(s: string, sep: char)
    ensures forall k :: 0 <= k < |Split(s, sep)| ==> CharsFrom(Split(s, sep)[k], s)
  {
    if |s| > 0 {
      SplitChars(s[1..], sep);
      var rest := Split(s[1..], sep);
      var r := Split(s, sep);
      forall k | 0 <= k < |r| ensures CharsFrom(r[k], s) {
        forall j | 0 <= j < |r[k]| ensures r[k][j] in s {
          if s[0] == sep {
            assert r[k] == ([""] + rest)[k];
            assert r[k][j] in s[1..];
          } else if k == 0 {
            if j > 0 {
              assert r[k][j] == rest[0][j - 1];
              assert rest[0][j - 1] in s[1..];
            }
          } else {
            assert r[k] == rest[k];
            assert r[k][j] in s[1..];
          }
        }
      }
    }
  }

  /** `parts.join(sep)`. */
  function Join(parts: seq<string>, sep: char): string
  {
    if |parts| == 0 then ""
    else if |parts| == 1 then parts[0]
    else parts[0] + [sep] + Join(parts[1..], sep)
  }

  /** Splitting loses nothing: joining the pieces with the separator gives the string back. */
  lemma {:induction false} JoinSplit(s: string, sep: char)
    ensures Join(Split(s, sep), sep) == s
  {
    if |s| > 0 {
      var rest := Split(s[1..], sep);
      JoinSplit(s[1..], sep);
      if s[0] == sep {
        assert ([""] + rest)[1..] == rest;
      } else if |rest| > 1 {
        assert ([[s[0]] + rest[0]] + rest[1..])[1..] == rest[1..];
        assert s == [s[0]] + s[1..];
      } else {
        assert s == [s[0]] + s[1..];
      }
    }
  }

  /** Number of occurrences of `c` in `s`. */
  function Count(s: string, c: char): nat
  {
    if |s| == 0 then 0 else (if s[0] == c then 1 else 0) + Count(s[1..], c)
  }

  /** There is one more piece than there are separators. */
  lemma {:induction false} SplitLength(s: string, sep: char)
    ensures |Split(s, sep)| == Count(s, sep) + 1
  {
    if |s| > 0 {
      SplitLength(s[1..], sep);
    }
  }

  /** The piece without the carriage return that ends it, if any. */
  function DropCarriageReturn(piece: string): (r: string)
    ensures r == piece || (piece == r + "\r")
  {
    if |piece| > 0 && piece[|piece| - 1] == '\r' then piece[..|piece| - 1] else piece
  }

  /** `s.split(/\r?\n/)`: the pieces between line feeds, where a carriage return right before a line
      feed belongs to the separator. The last piece is followed by no line feed and keeps its `\r`. */
  function SplitLines(s: string): (r: seq<string>)
    ensures |r| == |Split(s, '\n')| && |r| >= 1
    ensures forall k :: 0 <= k < |r| ==> '\n' !in r[k]
    ensures forall k :: 0 <= k < |r| - 1 ==> r[k] == DropCarriageReturn(Split(s, '\n')[k])
    ensures r[|r| - 1] == Split(s, '\n')[|r| - 1]
  {
    var pieces := Split(s, '\n');
    seq(|pieces|, k requires 0 <= k < |pieces| =>
      if k < |pieces| - 1 then DropCarriageReturn(pieces[k]) else pieces[k])
  }

  /** Because `\r` is whitespace, `\n` and `\r\n` line ends give the same trimmed lines. */
  lemma SplitLinesTrimmed(s: string, k: nat)
    requires k < |SplitLines(s)|
    ensures Trim(SplitLines(s)[k]) == Trim(Split(s, '\n')[k])
  {
    var p := Split(s, '\n')[k];
    var q := SplitLines(s)[k];
    if q != p {
      assert p == q + "\r";
      TrimSplits(q);
      var a := TrimOffset(q);
      var t := Trim(q);
      var w2 := q[a + |t|..] + "\r";
      assert AllSpace(w2) by {
        forall i | 0 <= i < |w2| ensures IsSpace(w2[i]) {
          if i < |w2| - 1 { assert w2[i] == q[a + |t|..][i]; }
        }
      }
      assert p == q[..a] + t + w2;
      TrimOf(q[..a], t, w2);
    }
  }

  /** `s.startsWith(p)`. */
  predicate StartsWith(s: string, p: string)
  {
    |p| <= |s| && s[..|p|] == p
  }

  /** `s.includes(q)`: `q` occurs in `s` at some position, tried left to right. */
  predicate Includes(s: string, q: string)
    decreases |s|
  {
    StartsWith(s, q) || (|s| > 0 && Includes(s[1..], q))
  }

  /** `includes` holds exactly when `q` occurs at some index of `s`. */
  lemma {:induction false} IncludesAt(s: string, q: string, k: nat)
    requires k + |q| <= |s|
    ensures s[k..k + |q|] == q ==> Includes(s, q)
  {
    if k > 0 {
      assert s[1..][k - 1..k - 1 + |q|] == s[k..k + |q|];
      IncludesAt(s[1..], q, k - 1);
    }
  }

  /** Everything includes the empty string. */
  lemma IncludesEmpty(s: string)
    ensures Includes(s, "")
  {
  }

  /** Whatever `includes` finds is a real occurrence. */
  lemma {:induction false} IncludesWitness(s: string, q: string) returns (k: nat)
    requires Includes(s, q)
    ensures k + |q| <= |s| && s[k..k + |q|] == q
  {
    if StartsWith(s, q) {
      k := 0;
    } else {
      var j := IncludesWitness(s[1..], q);
      assert s[1..][j..j + |q|] == s[j + 1..j + 1 + |q|];
      k := j + 1;
    }
  }

  /** ASCII `toLowerCase` of one character. */
  function LowerChar(c: char): char
  {
    if 'A' <= c <= 'Z' then (c as int + 32) as char else c
  }

  /** ASCII `toUpperCase` of one character. */
  function UpperChar(c: char): char
  {
    if 'a' <= c <= 'z' then (c as int - 32) as char else c
  }

  /** `s.toLowerCase()`, ASCII letters only; it maps characters one to one and keeps the length. */
  function Lower(s: string): (r: string)
    ensures |r| == |s|
    ensures forall k :: 0 <= k < |s| ==> r[k] == LowerChar(s[k])
  {
    seq(|s|, k requires 0 <= k < |s| => LowerChar(s[k]))
  }

  /** A lowered string holds no upper-case ASCII letter, and lowering it again changes nothing. */
  lemma LowerIdempotent(s: string)
    ensures Lower(Lower(s)) == Lower(s)
    ensures forall k :: 0 <= k < |s| ==> !('A' <= Lower(s)[k] <= 'Z')
  {
  }

  /** `n` copies of `c`. */
  function Repeat(c: char, n: nat): (r: string)
    ensures |r| == n && forall k :: 0 <= k < n ==> r[k] == c
  {
    if n == 0 then "" else [c] + Repeat(c, n - 1)
  }
}
