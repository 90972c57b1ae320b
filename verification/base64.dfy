/**
 * `Buffer.from(s).toString("base64")`: the UTF-8 bytes of a string written in
 * the base64 alphabet of RFC 4648 section 4, with `=` padding.
 */
module Base64 {

  type Byte = x: int | 0 <= x < 256

  /** The UTF-8 encoding of one Unicode scalar value. */
  function Utf8Char(c: char): (b: seq<Byte>)
    ensures 1 <= |b| <= 4
  {
    var n := c as int;
    if n < 0x80 then [n]
    else if n < 0x800 then [0xC0 + n / 64, 0x80 + n % 64]
    else if n < 0x10000 then [0xE0 + n / 4096, 0x80 + (n / 64) % 64, 0x80 + n % 64]
    else [0xF0 + n / 262144, 0x80 + (n / 4096) % 64, 0x80 + (n / 64) % 64, 0x80 + n % 64]
  }

  function Utf8(s: string): (b: seq<Byte>)
    ensures |b| >= |s|
  {
    if |s| == 0 then [] else Utf8Char(s[0]) + Utf8(s[1..])
  }

  /** The encoding of a concatenation is the concatenation of the encodings. */
  lemma {:induction false} Utf8Append(a: string, b: string)
    ensures Utf8(a + b) == Utf8(a) + Utf8(b)
  {
    if |a| > 0 {
      assert (a + b)[1..] == a[1..] + b;
      Utf8Append(a[1..], b);
    } else {
      assert a + b == b;
    }
  }

  /** The base64 alphabet: `A`-`Z`, `a`-`z`, `0`-`9`, `+`, `/`. */
  function Sextet(n: nat): (c: char)
    requires n < 64
    ensures c != '='
  {
    if n < 26 then ('A' as int + n) as char
    else if n < 52 then ('a' as int + (n - 26)) as char
    else if n < 62 then ('0' as int + (n - 52)) as char
    else if n == 62 then '+'
    else '/'
  }

  /** The four characters of a full group of three bytes. */
  function Group3(x: Byte, y: Byte, z: Byte): (r: string)
    ensures |r| == 4
  {
    [Sextet(x / 4), Sextet(x % 4 * 16 + y / 16), Sextet(y % 16 * 4 + z / 64), Sextet(z % 64)]
  }

  /** The four characters of a final group of one or two bytes, padded with `=`. */
  function Padded(x: Byte, y: Option2): (r: string)
    ensures |r| == 4
  {
    match y
    case One => [Sextet(x / 4), Sextet(x % 4 * 16), '=', '=']
    case Two(y) => [Sextet(x / 4), Sextet(x % 4 * 16 + y / 16), Sextet(y % 16 * 4), '=']
  }

  datatype Option2 = One | Two(y: Byte)

  /** Base64 of a byte string: every 3 bytes become 4 characters, a final 1 or 2 bytes are padded. */
  function Encode(b: seq<Byte>): string
  {
    if |b| == 0 then ""
    else if |b| == 1 then Padded(b[0], One)
    else if |b| == 2 then Padded(b[0], Two(b[1]))
    else Group3(b[0], b[1], b[2]) + Encode(b[3..])
  }

  /** Four characters for every started group of three bytes. */
  lemma {:induction false} EncodeLength(b: seq<Byte>)
    ensures |Encode(b)| == (|b| + 2) / 3 * 4
  {
    if |b| >= 3 {
      EncodeLength(b[3..]);
      LengthStep(|b|);
    }
  }

  lemma LengthStep(n: nat)
    requires n >= 3
    ensures (n + 2) / 3 * 4 == (n - 1) / 3 * 4 + 4
  {
    assert (n + 2) / 3 == (n - 1) / 3 + 1;
  }

  /** Groups of three bytes encode independently of what follows them. */
  lemma {:induction false} EncodeAppend(p: seq<Byte>, q: seq<Byte>)
    requires |p| % 3 == 0
    ensures Encode(p + q) == Encode(p) + Encode(q)
  {
    if |p| == 0 {
      assert p + q == q;
    } else {
      assert (p + q)[3..] == p[3..] + q;
      EncodeAppend(p[3..], q);
    }
  }

  /** The first two characters of a group depend only on its first two bytes. */
  lemma EncodeHead2(a: seq<Byte>)
    requires |a| >= 2
    ensures |Encode(a)| >= 2
    ensures Encode(a)[..2] == [Sextet(a[0] / 4), Sextet(a[0] % 4 * 16 + a[1] / 16)]
  {
    if |a| == 2 {
      assert Encode(a) == Padded(a[0], Two(a[1]));
    } else {
      assert Encode(a) == Group3(a[0], a[1], a[2]) + Encode(a[3..]);
    }
  }

  /**
   * Fifty base64 characters are determined by the first 38 bytes: 48
   * characters cover 36 bytes and the next two cover bytes 37 and 38.
   */
  lemma EncodePrefix50(a: seq<Byte>, b: seq<Byte>)
    requires |a| >= 38 && |b| >= 38 && a[..38] == b[..38]
    ensures |Encode(a)| >= 50 && |Encode(b)| >= 50
    ensures Encode(a)[..50] == Encode(b)[..50]
  {
    SamePrefix(a, b);
    HeadOf(a);
    HeadOf(b);
  }

  lemma SamePrefix(a: seq<Byte>, b: seq<Byte>)
    requires |a| >= 38 && |b| >= 38 && a[..38] == b[..38]
    ensures a[..36] == b[..36] && a[36] == b[36] && a[37] == b[37]
  {
    assert a[..36] == a[..38][..36] && b[..36] == b[..38][..36];
    assert a[36] == a[..38][36] && b[36] == b[..38][36];
    assert a[37] == a[..38][37] && b[37] == b[..38][37];
  }

  /** With `e` the encoding of the first 36 bytes, the first 50 characters are those of the first 36 bytes and two more. */
  lemma HeadOf(a: seq<Byte>)
    requires |a| >= 38
    ensures |Encode(a)| >= 50
    ensures Encode(a)[..50] == Encode(a[..36]) + [Sextet(a[36] / 4), Sextet(a[36] % 4 * 16 + a[37] / 16)]
  {
    var x, y := a[..36], a[36..];
    assert a == x + y;
    assert y[0] == a[36] && y[1] == a[37];
    EncodeLength(x);
    GroupsThenTwo(x, y);
  }

  /** After whole groups, the next two characters come from the next two bytes. */
  lemma GroupsThenTwo(x: seq<Byte>, y: seq<Byte>)
    requires |x| % 3 == 0 && |y| >= 2
    ensures |Encode(x + y)| >= |Encode(x)| + 2
    ensures Encode(x + y)[..|Encode(x)| + 2] == Encode(x) + [Sextet(y[0] / 4), Sextet(y[0] % 4 * 16 + y[1] / 16)]
  {
    EncodeAppend(x, y);
    EncodeHead2(y);
    PrefixOfConcat(Encode(x), Encode(y), 2);
  }

  lemma PrefixOfConcat<T>(x: seq<T>, y: seq<T>, n: nat)
    requires n <= |y|
    ensures (x + y)[..|x| + n] == x + y[..n]
  {
  }

}
