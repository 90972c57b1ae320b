/**
 * String helpers with JavaScript semantics. A Dafny `string` stands for a
 * JavaScript string with one `char` per UTF-16 code unit.
 */
module Text {

  /** The characters JavaScript's `\s` matches and `String.prototype.trim` removes. */
  predicate IsSpace(c: char)
  {
    || c == '\t' || c == '\n' || c == '\U{B}' || c == '\U{C}' || c == '\r' || c == ' '
    || c == '\U{A0}' || c == '\U{1680}' || ('\U{2000}' <= c <= '\U{200A}')
    || c == '\U{2028}' || c == '\U{2029}' || c == '\U{202F}' || c == '\U{205F}'
    || c == '\U{3000}' || c == '\U{FEFF}'
  }

  predicate AllSpace(s: string)
  {
    forall i :: 0 <= i < |s| ==> IsSpace(s[i])
  }

  /** No character of `r` is absent from `s`. */
  predicate CharsFrom(r: string, s: string)
  {
    forall i :: 0 <= i < |r| ==> r[i] in s
  }

  predicate Lacks(s: string, c: char)
  {
    forall i :: 0 <= i < |s| ==> s[i] != c
  }

  lemma CharsFromLacks(r: string, s: string, c: char)
    requires CharsFrom(r, s) && Lacks(s, c)
    ensures Lacks(r, c)
  {
    forall i | 0 <= i < |r|
      ensures r[i] != c
    {
      var k :| 0 <= k < |s| && s[k] == r[i];
    }
  }

  lemma CharsFromTrans(a: string, b: string, c: string)
    requires CharsFrom(a, b) && CharsFrom(b, c)
    ensures CharsFrom(a, c)
  {
    forall i | 0 <= i < |a|
      ensures a[i] in c
    {
      var k :| 0 <= k < |b| && b[k] == a[i];
    }
  }

  /** `c.repeat(n)`. */
  function Repeat(c: char, n: nat): (r: string)
    ensures |r| == n && forall i :: 0 <= i < n ==> r[i] == c
  {
    if n == 0 then "" else [c] + Repeat(c, n - 1)
  }

  /** A slice draws its characters from the whole. */
  lemma SliceChars(s: string, i: nat, j: nat)
    requires i <= j <= |s|
    ensures CharsFrom(s[i..j], s)
  {
    forall k | 0 <= k < j - i ensures s[i..j][k] in s { assert s[i..j][k] == s[i + k]; }
  }

  function TrimStart(s: string): (r: string)
    ensures |r| <= |s| && r == s[|s| - |r|..]
    ensures AllSpace(s[..|s| - |r|])
    ensures r == [] || !IsSpace(r[0])
  {
    if |s| > 0 && IsSpace(s[0]) then
      var t := TrimStart(s[1..]);
      assert s[1..][|s| - 1 - |t|..] == s[|s| - |t|..];
      var cut := s[..|s| - |t|];
      assert AllSpace(cut) by {
        forall k | 0 <= k < |cut| ensures IsSpace(cut[k]) {
          if k > 0 { assert cut[k] == s[1..][..|s| - 1 - |t|][k - 1]; }
        }
      }
      t
    else s
  }

  function TrimEnd(s: string): (r: string)
    ensures |r| <= |s| && r == s[..|r|]
    ensures AllSpace(s[|r|..])
    ensures r == [] || !IsSpace(r[|r| - 1])
  {
    if |s| > 0 && IsSpace(s[|s| - 1]) then
      var r := TrimEnd(s[..|s| - 1]);
      assert s[..|s| - 1][..|r|] == s[..|r|];
      assert AllSpace(s[|r|..]) by {
        assert s[|r|..] == s[..|s| - 1][|r|..] + [s[|s| - 1]];
        forall k | 0 <= k < |s| - |r| ensures IsSpace(s[|r|..][k]) {
          if k < |s| - 1 - |r| { assert s[|r|..][k] == s[..|s| - 1][|r|..][k]; }
        }
      }
      r
    else s
  }

  /** No whitespace at either end. */
  predicate Trimmed(s: string)
  {
    s == [] || (!IsSpace(s[0]) && !IsSpace(s[|s| - 1]))
  }

  /** `String.prototype.trim`: the slice of `s` left after removing whitespace from both ends. */
  function Trim(s: string): (r: string)
    ensures exists i, j :: TrimCut(s, r, i, j)
    ensures Trimmed(r)
    ensures |r| <= |s| && CharsFrom(r, s)
  {
    var a := TrimStart(s);
    var r := TrimEnd(a);
    TrimCutOf(s, a, r);
    SliceChars(s, |s| - |a|, |s| - |a| + |r|);
    r
  }

  /** The two trimming steps compose into one cut of the original text. */
  lemma TrimCutOf(s: string, a: string, r: string)
    requires |a| <= |s| && a == s[|s| - |a|..] && AllSpace(s[..|s| - |a|])
    requires |r| <= |a| && r == a[..|r|] && AllSpace(a[|r|..])
    ensures TrimCut(s, r, |s| - |a|, |s| - |a| + |r|)
  {
    var i := |s| - |a|;
    assert r == s[i..i + |r|];
    assert s[i + |r|..] == a[|r|..];
  }

  /** `r` is `s` with the whitespace before `i` and from `j` on cut away. */
  predicate TrimCut(s: string, r: string, i: int, j: int)
  {
    0 <= i <= j <= |s| && r == s[i..j] && AllSpace(s[..i]) && AllSpace(s[j..])
  }

  /** Trimming a string with no whitespace at either end leaves it unchanged. */
  lemma TrimNoop(s: string)
    requires Trimmed(s)
    ensures Trim(s) == s
  {
  }

  /**
   * Canonical form of a character under a case-insensitive JavaScript regular
   * expression without the `u` flag (`toUpperCase`, never mapping a non-ASCII
   * character to an ASCII one). Exact for every character that can match a
   * character of the prefixes the text cleaners strip.
   */
  function Canon(c: char): char
  {
    if 'a' <= c <= 'z' then (c as int - 32) as char
    else if c == '\U{F8}' then '\U{D8}'
    else if c == '\U{F9}' then '\U{D9}'
    else if c == '\U{B5}' || c == '\U{3BC}' then '\U{39C}'
    else c
  }

  predicate StartsWithCI(s: string, p: string)
  {
    |p| <= |s| && forall i :: 0 <= i < |p| ==> Canon(s[i]) == Canon(p[i])
  }

  predicate StartsWith(s: string, p: string)
  {
    |p| <= |s| && s[..|p|] == p
  }

  /** `s.includes(sub)`. */
  predicate Contains(s: string, sub: string)
  {
    StartsWith(s, sub) || (|s| > 0 && Contains(s[1..], sub))
  }

  /** An occurrence at any position is found. */
  lemma {:induction false} ContainsAt(s: string, sub: string, i: nat)
    requires i + |sub| <= |s| && s[i..i + |sub|] == sub
    ensures Contains(s, sub)
  {
    if i > 0 {
      assert s[1..][i - 1..i - 1 + |sub|] == sub;
      ContainsAt(s[1..], sub, i - 1);
    }
  }

  /** A non-empty text whose first character does not occur in `s` is not contained in it. */
  lemma {:induction false} LacksHead(s: string, sub: string)
    requires |sub| > 0 && forall k :: 0 <= k < |s| ==> s[k] != sub[0]
    ensures !Contains(s, sub)
  {
    if |s| > 0 {
      assert !StartsWith(s, sub) by {
        assert s[0] != sub[0];
      }
      LacksHead(s[1..], sub);
    }
  }

  /** `String.prototype.toLowerCase` restricted to ASCII letters. */
  /** Text without upper-case ASCII letters is its own lower-casing. */
  lemma LowerAsciiNoop(s: string)
    requires forall i :: 0 <= i < |s| ==> !('A' <= s[i] <= 'Z')
    ensures LowerAscii(s) == s
  {
  }

  function LowerAscii(s: string): (r: string)
    ensures |r| == |s|
    ensures forall i :: 0 <= i < |s| ==> r[i] == (if 'A' <= s[i] <= 'Z' then (s[i] as int + 32) as char else s[i])
  {
    if |s| == 0 then []
    else [if 'A' <= s[0] <= 'Z' then (s[0] as int + 32) as char else s[0]] + LowerAscii(s[1..])
  }

  /** Every occurrence of `c` deleted, everything else kept in order. */
  function RemoveChar(s: string, c: char): (r: string)
    ensures |r| <= |s| && Lacks(r, c) && CharsFrom(r, s)
    ensures forall d :: d != c ==> multiset(r)[d] == multiset(s)[d]
  {
    if |s| == 0 then []
    else if s[0] == c then
      assert s == [s[0]] + s[1..];
      RemoveChar(s[1..], c)
    else
      assert s == [s[0]] + s[1..];
      [s[0]] + RemoveChar(s[1..], c)
  }

  /** `parts.join(sep)`. */
  function Join(parts: seq<string>, sep: string): string
  {
    if |parts| == 0 then ""
    else if |parts| == 1 then parts[0]
    else parts[0] + sep + Join(parts[1..], sep)
  }

  /** `s.split(sep)` for a one-character separator: the pieces between separators. */
  function Split(s: string, sep: char): (r: seq<string>)
    ensures |r| >= 1
    ensures forall k :: 0 <= k < |r| ==> Lacks(r[k], sep)
    ensures Join(r, [sep]) == s
  {
    if |s| == 0 then [""]
    else if s[0] == sep then
      var tail := Split(s[1..], sep);
      assert Join([""] + tail, [sep]) == "" + [sep] + Join(tail, [sep]);
      [""] + tail
    else
      var tail := Split(s[1..], sep);
      var r := [[s[0]] + tail[0]] + tail[1..];
      assert Join(r, [sep]) == [s[0]] + Join(tail, [sep]) by {
        if |tail| == 1 {
        } else {
          assert r[1..] == tail[1..];
        }
      }
      r
  }

  /** A piece without the separator, then the separator: that piece is split off whole. */
  lemma {:induction false} SplitHead(a: string, b: string, sep: char)
    requires Lacks(a, sep)
    ensures Split(a + [sep] + b, sep) == [a] + Split(b, sep)
  {
    if |a| == 0 {
      assert a + [sep] + b == [sep] + b;
      assert ([sep] + b)[1..] == b;
    } else {
      var s := a + [sep] + b;
      assert s[0] == a[0] && s[1..] == a[1..] + [sep] + b;
      SplitHead(a[1..], b, sep);
      assert [a[0]] + a[1..] == a;
    }
  }

  function DigitChar(d: nat): (c: char)
    requires d < 10
    ensures '0' <= c <= '9'
  {
    ('0' as int + d) as char
  }

  /** `String(n)` for a non-negative integer: its decimal digits without leading zeros. */
  function NatToString(n: nat): (r: string)
    ensures |r| >= 1
    ensures forall i :: 0 <= i < |r| ==> '0' <= r[i] <= '9'
    ensures |r| > 1 ==> r[0] != '0'
  {
    if n < 10 then [DigitChar(n)] else NatToString(n / 10) + [DigitChar(n % 10)]
  }

  /** The value of a string of decimal digits. */
  function DecimalValue(s: string): nat
    requires forall i :: 0 <= i < |s| ==> '0' <= s[i] <= '9'
  {
    if |s| == 0 then 0 else 10 * DecimalValue(s[..|s| - 1]) + (s[|s| - 1] as int - '0' as int)
  }

  /** Reading back the digits of `n` gives `n`: distinct numbers have distinct decimal forms. */
  lemma {:induction false} NatToStringRoundTrip(n: nat)
    ensures DecimalValue(NatToString(n)) == n
  {
    if n >= 10 {
      var r := NatToString(n);
      assert r[..|r| - 1] == NatToString(n / 10);
      NatToStringRoundTrip(n / 10);
    }
  }

  lemma NatToStringInjective(m: nat, n: nat)
    requires NatToString(m) == NatToString(n)
    ensures m == n
  {
    NatToStringRoundTrip(m);
    NatToStringRoundTrip(n);
  }
}
