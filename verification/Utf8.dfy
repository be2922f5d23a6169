/** UTF-8: the bytes behind a text, and the offsets at which a `str` may be sliced. */
module Utf8 {
  import opened Prelude
  import opened Text

  predicate Continuation(b: Byte) {
    0x80 <= b < 0xC0
  }

  /** One scalar in UTF-8 (section 3 of RFC 3629). */
  function EncodeChar(c: char): (r: seq<Byte>)
    ensures |r| == Utf8Width(c)
    ensures !Continuation(r[0]) && forall i :: 1 <= i < |r| ==> Continuation(r[i])
    ensures r[0] < 0x80 <==> c as int < 0x80
    ensures r[0] < 0x80 ==> r == [c as int]
  {
    var n := c as int;
    if n < 0x80 then [n]
    else if n < 0x800 then [0xC0 + n / 64, 0x80 + n % 64]
    else if n < 0x10000 then [0xE0 + n / 4096, 0x80 + n / 64 % 64, 0x80 + n % 64]
    else [0xF0 + n / 262144, 0x80 + n / 4096 % 64, 0x80 + n / 64 % 64, 0x80 + n % 64]
  }

  function Encode(s: string): (r: seq<Byte>)
    ensures |r| == Utf8Len(s)
  {
    if s == [] then [] else EncodeChar(s[0]) + Encode(s[1..])
  }

  /** The length the first byte announces. */
  function Announced(b: Byte): nat {
    if b < 0x80 then 1 else if b < 0xE0 then 2 else if b < 0xF0 then 3 else 4
  }

  /** A byte without its marker bits. */
  function Low(b: int, mark: int): int {
    b - mark
  }

  function Number(u: seq<Byte>): int
    requires 1 <= |u| <= 4
  {
    if |u| == 1 then u[0]
    else if |u| == 2 then Low(u[0], 0xC0) * 64 + Low(u[1], 0x80)
    else if |u| == 3 then Low(u[0], 0xE0) * 4096 + Low(u[1], 0x80) * 64 + Low(u[2], 0x80)
    else Low(u[0], 0xF0) * 262144 + Low(u[1], 0x80) * 4096 + Low(u[2], 0x80) * 64 + Low(u[3], 0x80)
  }

  function Scalar(n: int): char {
    if 0 <= n < 0xD800 || 0xE000 <= n < 0x11_0000 then n as char else '?'
  }

  /** The characters of a byte string; the inverse of `Encode` on its results. */
  function Decode(bs: seq<Byte>): string {
    if bs == [] then []
    else
      var w := Announced(bs[0]);
      if w > |bs| then [] else [Scalar(Number(bs[..w]))] + Decode(bs[w..])
  }

  /** A number and its digits to the base 64. */
  lemma Digits(n: nat)
    ensures n / 64 * 64 + n % 64 == n && n / 64 / 64 == n / 4096
  {
  }

  lemma HighDigits(n: nat)
    ensures n / 4096 / 64 == n / 262144
  {
  }

  lemma ScalarBack(c: char)
    ensures Scalar(c as int) == c
  {
  }

  lemma EncodeCharDecodes(c: char)
    ensures var r := EncodeChar(c); |r| > 0 && Announced(r[0]) == |r| && Scalar(Number(r)) == c
  {
    hide Scalar;
    var n := c as int;
    ScalarBack(c);
    Digits(n);
    Digits(n / 64);
    Digits(n / 4096);
    HighDigits(n);
  }

  lemma {:induction false} DecodeEncode(s: string)
    ensures Decode(Encode(s)) == s
  {
    hide EncodeChar;
    if s == [] {
    } else {
      var r, rest := EncodeChar(s[0]), Encode(s[1..]);
      EncodeCharDecodes(s[0]);
      DecodeEncode(s[1..]);
      assert (r + rest)[..|r|] == r && (r + rest)[|r|..] == rest;
      assert (r + rest)[0] == r[0];
      assert [s[0]] + s[1..] == s;
    }
  }

  /** Different texts have different bytes. */
  lemma EncodeInjective(s: string, t: string)
    requires Encode(s) == Encode(t)
    ensures s == t
  {
    DecodeEncode(s);
    DecodeEncode(t);
  }

  lemma {:induction false} EncodeAppend(a: string, b: string)
    ensures Encode(a + b) == Encode(a) + Encode(b)
  {
    hide EncodeChar;
    if a == [] {
      assert a + b == b;
    } else {
      assert (a + b)[1..] == a[1..] + b;
      EncodeAppend(a[1..], b);
    }
  }

  // ----- offsets

  /** The byte offset of character `i`. */
  function Offset(s: string, i: nat): nat
    requires i <= |s|
  {
    Utf8Len(s[..i])
  }

  /** `is_char_boundary`. */
  predicate Boundary(bs: seq<Byte>, k: int) {
    k == |bs| || (0 <= k < |bs| && !Continuation(bs[k]))
  }

  /** `&value[i..j]`: slicing anywhere but at boundaries panics. */
  function Slice(bs: seq<Byte>, i: nat, j: nat): seq<Byte>
    requires i <= j && Boundary(bs, i) && Boundary(bs, j)
  {
    bs[i..j]
  }

  lemma Between(s: string, i: nat, j: nat)
    requires i <= j <= |s|
    ensures Offset(s, j) == Offset(s, i) + Utf8Len(s[i..j]) && Offset(s, j) <= |Encode(s)|
    ensures Encode(s)[Offset(s, i)..Offset(s, j)] == Encode(s[i..j])
    ensures Offset(s, |s|) == |Encode(s)| && Offset(s, 0) == 0
  {
    hide EncodeChar, Encode, Utf8Len;
    var a, m, b := s[..i], s[i..j], s[j..];
    assert s[..j] == a + m && s == s[..j] + b;
    Utf8LenAppend(a, m);
    Utf8LenAppend(s[..j], b);
    EncodeAppend(a, m);
    EncodeAppend(s[..j], b);
    assert s[..|s|] == s && s[..0] == [];
    NoBytes();
  }

  lemma TailBytes(s: string, i: nat)
    requires i <= |s|
    ensures Offset(s, i) <= |Encode(s)| && Encode(s)[Offset(s, i)..] == Encode(s[i..])
  {
    hide Encode, Offset;
    Between(s, i, |s|);
    assert s[i..|s|] == s[i..];
  }

  lemma NoBytes()
    ensures Utf8Len([]) == 0
  {
  }

  /** The bytes of character `i` start at its offset, and only the first of them is a boundary. */
  lemma CharBytes(s: string, i: nat)
    requires i < |s|
    ensures Offset(s, i + 1) == Offset(s, i) + Utf8Width(s[i]) <= |Encode(s)|
    ensures Encode(s)[Offset(s, i)] == EncodeChar(s[i])[0] && Boundary(Encode(s), Offset(s, i))
    ensures forall k :: Offset(s, i) < k < Offset(s, i + 1) ==> !Boundary(Encode(s), k)
  {
    hide Encode, EncodeChar, Offset, Utf8Len, Continuation, Utf8Width;
    Between(s, i, i + 1);
    OneChar(s, i);
    CharShape(s[i]);
    var o, bs, r := Offset(s, i), Encode(s), EncodeChar(s[i]);
    assert bs[o..o + |r|] == r;
    forall k | o < k < o + |r| ensures Continuation(bs[k]) { assert bs[k] == r[k - o]; }
    assert bs[o] == bs[o..o + |r|][0];
  }

  lemma CharShape(c: char)
    ensures var r := EncodeChar(c);
            |r| == Utf8Width(c) > 0 && !Continuation(r[0]) && forall i :: 1 <= i < |r| ==> Continuation(r[i])
  {
  }

  lemma OneChar(s: string, i: nat)
    requires i < |s|
    ensures Encode(s[i..i + 1]) == EncodeChar(s[i]) && Utf8Len(s[i..i + 1]) == Utf8Width(s[i])
  {
    hide EncodeChar;
    var t := s[i..i + 1];
    assert t[0] == s[i] && t[1..] == [];
    assert Encode(t) == EncodeChar(t[0]) + Encode(t[1..]);
  }

  /** Every character offset is a boundary. */
  lemma OffsetBoundary(s: string, i: nat)
    requires i <= |s|
    ensures Boundary(Encode(s), Offset(s, i))
  {
    hide Encode, Offset, EncodeChar;
    Between(s, i, |s|);
    if i < |s| { CharBytes(s, i); }
  }

  /** And every boundary is a character offset. */
  lemma {:induction false} BoundaryOffset(s: string, k: nat, from: nat) returns (i: nat)
    requires from <= |s| && Offset(s, from) <= k && Boundary(Encode(s), k)
    ensures from <= i <= |s| && k == Offset(s, i)
    decreases |s| - from
  {
    hide Encode, Offset, EncodeChar;
    Between(s, from, |s|);
    i := from;
    if k != Offset(s, from) {
      CharBytes(s, from);
      i := BoundaryOffset(s, k, from + 1);
    }
  }

  lemma OffsetGrows(s: string, i: nat, j: nat)
    requires i < j <= |s|
    ensures Offset(s, i) < Offset(s, j)
  {
    hide Encode, Offset, EncodeChar;
    CharBytes(s, i);
    Between(s, i + 1, j);
  }

  lemma AsciiChar(c: char)
    ensures |EncodeChar(c)| > 0
    ensures EncodeChar(c)[0] < 0x80 <==> c as int < 0x80
    ensures c as int < 0x80 ==> EncodeChar(c) == [c as int]
  {
  }

  /** Leading ASCII bytes are as many leading ASCII characters. */
  lemma {:induction false} AsciiBytes(t: string, n: nat)
    requires n <= |Encode(t)| && forall k :: 0 <= k < n ==> Encode(t)[k] < 0x80
    ensures n <= |t| && Utf8Len(t[..n]) == n
    ensures forall k :: 0 <= k < n ==> t[k] as int == Encode(t)[k]
  {
    hide EncodeChar;
    if n == 0 {
    } else {
      AsciiChar(t[0]);
      var rest := t[1..];
      assert Encode(t)[0] == EncodeChar(t[0])[0];
      assert Encode(t) == [t[0] as int] + Encode(rest);
      assert forall k :: 0 <= k < n - 1 ==> Encode(rest)[k] == Encode(t)[k + 1];
      AsciiBytes(rest, n - 1);
      assert t[..n][1..] == rest[..n - 1];
    }
  }

  /** Leading ASCII characters are as many leading ASCII bytes. */
  lemma {:induction false} AsciiChars(t: string, n: nat)
    requires n <= |t| && forall k :: 0 <= k < n ==> t[k] as int < 0x80
    ensures n <= |Encode(t)| && Utf8Len(t[..n]) == n
    ensures forall k :: 0 <= k < n ==> Encode(t)[k] == t[k] as int
  {
    hide EncodeChar;
    if n == 0 {
    } else {
      AsciiChar(t[0]);
      var rest := t[1..];
      assert Encode(t) == [t[0] as int] + Encode(rest);
      AsciiChars(rest, n - 1);
      assert t[..n][1..] == rest[..n - 1];
      forall k | 0 <= k < n ensures Encode(t)[k] == t[k] as int {
        if k > 0 { assert Encode(t)[k] == Encode(rest)[k - 1] && t[k] == rest[k - 1]; }
      }
    }
  }
}
