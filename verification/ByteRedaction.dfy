/** `redact_binary_text` as it runs: byte offsets into UTF-8, and slices that must fall on character boundaries. */
module ByteRedaction {
  import opened Prelude
  import opened Text
  import opened Utf8
  import opened Redaction

  function LowerByte(b: Byte): Byte {
    if 65 <= b <= 90 then b + 32 else b
  }

  /** `to_ascii_lowercase` on the bytes. */
  function Lowered(bs: seq<Byte>): (r: seq<Byte>)
    ensures |r| == |bs| && forall k :: 0 <= k < |bs| ==> r[k] == LowerByte(bs[k])
  {
    seq(|bs|, k requires 0 <= k < |bs| => LowerByte(bs[k]))
  }

  /** Lowering keeps the boundaries, so the same offsets slice both. */
  lemma LoweredBoundary(bs: seq<Byte>, k: int)
    ensures Boundary(Lowered(bs), k) <==> Boundary(bs, k)
  {
  }

  predicate LiteralAt(bs: seq<Byte>, k: int, tag: Tag) {
    0 <= k && k + tag.Size() <= |bs|
    && match tag
       case Data => bs[k] == 100 && bs[k + 1] == 97 && bs[k + 2] == 116 && bs[k + 3] == 97 && bs[k + 4] == 58
       case Header =>
         bs[k] == 59 && bs[k + 1] == 98 && bs[k + 2] == 97 && bs[k + 3] == 115 && bs[k + 4] == 101
         && bs[k + 5] == 54 && bs[k + 6] == 52 && bs[k + 7] == 44
  }

  /** `str::find`: the byte offset of the first occurrence, or -1. */
  function FindBytes(bs: seq<Byte>, tag: Tag, from: nat): (r: int)
    requires from <= |bs|
    ensures r == -1 || from <= r < |bs|
    ensures r >= 0 ==> LiteralAt(bs, r, tag)
    ensures forall k :: from <= k < (if r < 0 then |bs| else r) ==> !LiteralAt(bs, k, tag)
    decreases |bs| - from
  {
    if from == |bs| then -1
    else if LiteralAt(bs, from, tag) then from
    else FindBytes(bs, tag, from + 1)
  }

  /** A tag in the text is a literal in the lowered bytes, of the same size. */
  lemma TagLiteral(s: string, i: nat, tag: Tag)
    requires TagAt(s, i, tag)
    ensures LiteralAt(Lowered(Encode(s)), Offset(s, i), tag)
    ensures i + tag.Size() <= |s| && Offset(s, i + tag.Size()) == Offset(s, i) + tag.Size()
  {
    hide Encode, EncodeChar, Utf8Len, Lowered, LiteralAt, Offset, TagAt;
    TagAscii(s, i, tag);
    var t, n := s[i..], tag.Size();
    Between(s, i, i + n);
    assert t[..n] == s[i..i + n];
    AsciiChars(t, n);
    CodesLiteral(t, Encode(t), tag);
    TailBytes(s, i);
    LiteralShift(Encode(s), Offset(s, i), tag);
  }

  lemma LiteralShift(bs: seq<Byte>, k: nat, tag: Tag)
    requires k <= |bs|
    ensures LiteralAt(Lowered(bs), k, tag) <==> LiteralAt(Lowered(bs[k..]), 0, tag)
  {
    var n := tag.Size();
    if k + n <= |bs| { assert forall j :: 0 <= j < n ==> bs[k..][j] == bs[k + j]; }
  }

  lemma TagAscii(s: string, i: nat, tag: Tag)
    requires TagAt(s, i, tag)
    ensures i + tag.Size() <= |s| && TagAt(s[i..], 0, tag)
    ensures forall k :: 0 <= k < tag.Size() ==> s[i..][k] as int < 0x80
  {
  }

  lemma CodesLiteral(t: string, bs: seq<Byte>, tag: Tag)
    requires tag.Size() <= |t| && tag.Size() <= |bs|
    requires forall k :: 0 <= k < tag.Size() ==> t[k] as int == bs[k] < 0x80
    ensures TagAt(t, 0, tag) <==> LiteralAt(Lowered(bs), 0, tag)
  {
  }

  /** A literal in the lowered bytes starts on a boundary and is a tag in the text. */
  lemma LiteralTag(s: string, k: nat, tag: Tag) returns (i: nat)
    requires LiteralAt(Lowered(Encode(s)), k, tag)
    ensures i < |s| && k == Offset(s, i) && TagAt(s, i, tag)
  {
    hide Encode, EncodeChar, Utf8Len, Lowered, LiteralAt, Offset, TagAt;
    LiteralAscii(Encode(s), k, tag);
    Between(s, 0, |s|);
    i := BoundaryOffset(s, k, 0);
    var t := s[i..];
    TailBytes(s, i);
    AsciiBytes(t, tag.Size());
    LiteralShift(Encode(s), k, tag);
    CodesLiteral(t, Encode(t), tag);
    TagAtShift(s, i, tag);
  }

  lemma LiteralAscii(bs: seq<Byte>, k: nat, tag: Tag)
    requires LiteralAt(Lowered(bs), k, tag)
    ensures k + tag.Size() <= |bs| && Boundary(bs, k)
    ensures forall j :: 0 <= j < tag.Size() ==> bs[k..][j] < 0x80
  {
  }

  lemma TagAtShift(s: string, i: nat, tag: Tag)
    requires i <= |s| && TagAt(s[i..], 0, tag)
    ensures TagAt(s, i, tag) && i < |s|
  {
  }

  /** Searching the lowered bytes finds the first tag of the text, at its offset. */
  lemma FindBytesIs(s: string, tag: Tag)
    ensures var i := Find(s, tag);
            FindBytes(Lowered(Encode(s)), tag, 0) == if i < 0 then -1 else Offset(s, i)
  {
    hide Encode, EncodeChar, Utf8Len, TagAt, LiteralAt, Lowered, Offset;
    var i, k := Find(s, tag), FindBytes(Lowered(Encode(s)), tag, 0);
    if k >= 0 {
      var j := LiteralTag(s, k, tag);
      assert i >= 0 && i <= j;
      if i < j { OffsetGrows(s, i, j); }
    }
    if i >= 0 {
      TagLiteral(s, i, tag);
      LiteralInside(Lowered(Encode(s)), Offset(s, i), tag);
    }
  }

  lemma LiteralInside(bs: seq<Byte>, k: int, tag: Tag)
    requires LiteralAt(bs, k, tag)
    ensures 0 <= k < |bs|
  {
  }

  /** The lowered bytes between two character offsets are the lowered bytes of the characters between. */
  lemma LoweredSlice(s: string, i: nat, j: nat)
    requires i <= j <= |s|
    ensures Offset(s, i) <= Offset(s, j) <= |Encode(s)|
    ensures Boundary(Lowered(Encode(s)), Offset(s, i)) && Boundary(Lowered(Encode(s)), Offset(s, j))
    ensures Lowered(Encode(s))[Offset(s, i)..Offset(s, j)] == Lowered(Encode(s[i..j]))
    ensures Offset(s, j) == Offset(s, i) + Utf8Len(s[i..j])
  {
    hide Encode, Offset, Boundary, LowerByte, Utf8Len;
    var bs, a, b := Encode(s), Offset(s, i), Offset(s, j);
    Between(s, i, j);
    OffsetBoundary(s, i);
    OffsetBoundary(s, j);
    LoweredBoundary(bs, a);
    LoweredBoundary(bs, b);
    assert forall k :: 0 <= k < b - a ==> bs[a..b][k] == bs[a + k];
  }

  /** Where a relative find in a slice lands in the whole. */
  lemma FindInSlice(s: string, i: nat, j: nat, tag: Tag)
    requires i <= j <= |s|
    ensures Offset(s, i) <= Offset(s, j) <= |Encode(s)|
    ensures var f := Find(s[i..j], tag);
            FindBytes(Lowered(Encode(s))[Offset(s, i)..Offset(s, j)], tag, 0)
            == (if f < 0 then -1 else Offset(s, i + f) - Offset(s, i))
            && (f >= 0 ==> i + f <= j && Offset(s, i) <= Offset(s, i + f))
  {
    hide Encode, Offset, Lowered, FindBytes, Find, Utf8Len;
    LoweredSlice(s, i, j);
    var t := s[i..j];
    FindBytesIs(t, tag);
    var f := Find(t, tag);
    if f >= 0 {
      FindInside(t, tag);
      Between(s, i, i + f);
      assert t[..f] == s[i..i + f];
      OffsetDef(t, f);
    }
  }

  lemma FindInside(t: string, tag: Tag)
    ensures Find(t, tag) <= |t|
  {
  }

  lemma OffsetDef(t: string, f: nat)
    requires f <= |t|
    ensures Offset(t, f) == Utf8Len(t[..f])
  {
  }

  // ----- the source's loops

  predicate PayloadByte(b: Byte) {
    48 <= b <= 57 || 65 <= b <= 90 || 97 <= b <= 122 || b in [43, 47, 61, 45, 95]
  }

  lemma PayloadByteIff(s: string, i: nat)
    requires i < |s|
    ensures Offset(s, i) < |Encode(s)|
    ensures PayloadByte(Encode(s)[Offset(s, i)]) <==> PayloadChar(s[i])
    ensures PayloadChar(s[i]) ==> Offset(s, i + 1) == Offset(s, i) + 1
  {
    hide Encode, Offset, EncodeChar;
    CharBytes(s, i);
    AsciiChar(s[i]);
    CharPayload(s[i]);
  }

  lemma CharPayload(c: char)
    ensures PayloadChar(c) <==> c as int < 0x80 && PayloadByte(c as int)
    ensures forall b: Byte :: b >= 0x80 ==> !PayloadByte(b)
  {
  }

  /** The byte loop over the payload ends at the offset where the payload's characters end. */
  method PayloadStop(value: seq<Byte>, payloadStart: nat, ghost text: string, ghost from: nat) returns (payloadEnd: nat)
    requires value == Encode(text) && from <= |text| && payloadStart == Offset(text, from)
    ensures payloadEnd == Offset(text, PayloadEnd(text, from))
  {
    hide Encode, Offset, PayloadByte, PayloadChar, PayloadEnd;
    payloadEnd := payloadStart;
    ghost var i := from;
    Between(text, from, |text|);
    while payloadEnd < |value| && PayloadByte(value[payloadEnd])
      invariant from <= i <= |text| && payloadEnd == Offset(text, i) <= |value|
      invariant PayloadEnd(text, i) == PayloadEnd(text, from)
    {
      Between(text, i, |text|);
      assert i < |text|;
      PayloadByteIff(text, i);
      PayloadStep(text, i);
      payloadEnd := payloadEnd + 1;
      i := i + 1;
      Between(text, i, |text|);
    }
    if i < |text| { PayloadByteIff(text, i); }
    PayloadDone(text, i);
  }

  lemma PayloadStep(s: string, i: nat)
    requires i < |s| && PayloadChar(s[i])
    ensures PayloadEnd(s, i) == PayloadEnd(s, i + 1)
  {
  }

  lemma PayloadDone(s: string, i: nat)
    requires i <= |s| && (i == |s| || !PayloadChar(s[i]))
    ensures PayloadEnd(s, i) == i
  {
  }

  /** Backing off from 512 bytes on to a boundary: the largest one at most that far away. */
  method HeaderEnd(value: seq<Byte>, start: nat) returns (headerEnd: nat)
    requires Boundary(value, start)
    ensures start <= headerEnd <= start + WINDOW && Boundary(value, headerEnd)
    ensures forall k :: headerEnd < k <= start + WINDOW ==> !Boundary(value, k)
  {
    var top := if start + WINDOW <= |value| then start + WINDOW else |value|;
    headerEnd := top;
    while headerEnd > start && !Boundary(value, headerEnd)
      invariant start <= headerEnd <= top
      invariant forall k :: headerEnd < k <= top ==> !Boundary(value, k)
    {
      headerEnd := headerEnd - 1;
    }
  }

  /** In characters: everything up to that boundary fits the window, and with one more character nothing does. */
  lemma WindowChars(text: string, a: nat, headerEnd: nat) returns (e: nat)
    requires a <= |text| && Offset(text, a) <= headerEnd <= Offset(text, a) + WINDOW && Boundary(Encode(text), headerEnd)
    requires forall k :: headerEnd < k <= Offset(text, a) + WINDOW ==> !Boundary(Encode(text), k)
    ensures a <= e <= |text| && headerEnd == Offset(text, e)
    ensures Utf8Len(text[a..e]) <= WINDOW && (e == |text| || Utf8Len(text[a..e + 1]) > WINDOW)
  {
    hide Encode, Offset, Boundary, Utf8Len;
    e := BoundaryOffset(text, headerEnd, a);
    Between(text, a, e);
    if e < |text| {
      Between(text, a, e + 1);
      OffsetGrows(text, e, e + 1);
      OffsetBoundary(text, e + 1);
    }
  }

  /** `lower[start..header_end].find(";base64,")`: the header in the window of the `data:` at `start`, or -1. */
  method FindHeader(value: seq<Byte>, lower: seq<Byte>, start: nat, ghost text: string, ghost a: nat)
    returns (relativeMarker: int)
    requires value == Encode(text) && lower == Lowered(value) && a <= |text| && start == Offset(text, a)
    ensures relativeMarker >= 0 <==> InWindow(HeaderReach(text[a..]))
    ensures relativeMarker >= 0 ==> start + relativeMarker + 8 == Offset(text, HeaderStop(text, a))
  {
    hide Find, HeaderReach, InWindow, Encode, Offset, Boundary, Lowered, FindBytes, Utf8Len, HeaderStop;
    OffsetBoundary(text, a);
    var headerEnd := HeaderEnd(value, start);
    ghost var e := WindowChars(text, a, headerEnd);
    LoweredSlice(text, a, e);
    relativeMarker := FindBytes(Slice(lower, start, headerEnd), Header, 0);
    HeaderInWindow(text, a, e);
  }

  /** What the search in the window finds, in characters. */
  lemma HeaderInWindow(text: string, a: nat, e: nat)
    requires a <= e <= |text| && Utf8Len(text[a..e]) <= WINDOW && (e == |text| || Utf8Len(text[a..e + 1]) > WINDOW)
    ensures Offset(text, a) <= Offset(text, e) <= |Encode(text)|
    ensures var f := FindBytes(Lowered(Encode(text))[Offset(text, a)..Offset(text, e)], Header, 0);
            (f >= 0 <==> InWindow(HeaderReach(text[a..])))
            && (f >= 0 ==> Offset(text, a) + f + 8 == Offset(text, HeaderStop(text, a)))
  {
    hide Find, HeaderReach, InWindow, Encode, Offset, Lowered, FindBytes, Utf8Len, HeaderStop;
    FindInSlice(text, a, e, Header);
    WindowFind(text, a, e);
    if InWindow(HeaderReach(text[a..])) { HeaderStopBytes(text, a); }
  }

  lemma HeaderStopBytes(text: string, a: nat)
    requires a <= |text| && InWindow(HeaderReach(text[a..]))
    ensures var f := Find(text[a..], Header);
            f >= 0 && a + f <= |text| && Offset(text, HeaderStop(text, a)) == Offset(text, a + f) + 8
  {
    hide Find, HeaderReach, InWindow, Offset, Encode;
    HeaderStopIs(text, a);
    HeaderBytes(text, a);
  }

  /** The character behind the first header from `a` on, where there is one. */
  function HeaderStop(text: string, a: nat): (n: nat)
    requires a <= |text|
    ensures a <= n <= |text|
  {
    if Find(text[a..], Header) < 0 then a else a + Find(text[a..], Header) + 8
  }

  /** What a turn that passes over its `data:` does to the bytes. */
  lemma SkippedBytes(text: string, c: nat)
    requires c <= |text| && Find(text[c..], Data) >= 0 && !InWindow(HeaderReach(text[DataAt(text, c)..]))
    ensures var start, bs := Offset(text, DataAt(text, c)), Encode(text); var p := Turn(text[c..]);
            Offset(text, c) < start + 5 == Offset(text, TurnEnd(text, c)) <= |bs| && p.Skip?
            && Boundary(bs, Offset(text, c)) && Boundary(bs, start + 5)
            && Slice(bs, Offset(text, c), start + 5) == Encode(Shown(p))
  {
    hide Turn, Find, HeaderReach, InWindow, Encode, Offset, Boundary, Slice;
    var a := DataAt(text, c);
    TurnSkipAt(text, c, a);
    DataBytes(text, c, a);
    Sliced(text, c, a + 5);
    Advanced(text, c, a + 5);
  }

  /** What a turn that cuts a data URL does to the bytes. */
  lemma CutBytes(text: string, c: nat)
    requires c <= |text| && Find(text[c..], Data) >= 0 && InWindow(HeaderReach(text[DataAt(text, c)..]))
    ensures var start, bs := Offset(text, DataAt(text, c)), Encode(text); var p := Turn(text[c..]);
            Offset(text, c) < Offset(text, TurnEnd(text, c)) <= |bs| && p.Cut?
            && TurnEnd(text, c) == PayloadEnd(text, HeaderStop(text, DataAt(text, c)))
            && Offset(text, c) <= start && Boundary(bs, Offset(text, c)) && Boundary(bs, start)
            && Slice(bs, Offset(text, c), start) + Encode(MARKER) == Encode(Shown(p))
  {
    hide Turn, Taken, Find, HeaderReach, InWindow, Encode, Offset, Boundary, Slice, MARKER, PayloadEnd, TurnEnd,
      HeaderStop, DataAt;
    CutChars(text, c);
    var a, n := DataAt(text, c), TurnEnd(text, c);
    Sliced(text, c, a);
    Advanced(text, c, n);
    EncodeAppend(text[c..a], MARKER);
  }

  lemma CutChars(text: string, c: nat)
    requires c <= |text| && Find(text[c..], Data) >= 0 && InWindow(HeaderReach(text[DataAt(text, c)..]))
    ensures var a := DataAt(text, c); var n := PayloadEnd(text, HeaderStop(text, a));
            c <= a < n <= |text| && Turn(text[c..]) == Cut(text[c..a], text[a..n]) && TurnEnd(text, c) == n
  {
    hide Turn, Taken, Find, HeaderReach, InWindow, PayloadEnd, HeaderStop;
    var a := DataAt(text, c);
    var n := PayloadEnd(text, HeaderStop(text, a));
    HeaderStopIs(text, a);
    PayloadEndBounds(text, HeaderStop(text, a));
    TurnCutAt(text, c, a, HeaderStop(text, a));
    CutEnd(text, c, a, n);
  }

  lemma CutEnd(text: string, c: nat, a: nat, n: nat)
    requires c <= a <= n <= |text| && Turn(text[c..]) == Cut(text[c..a], text[a..n])
    ensures TurnEnd(text, c) == n
  {
    hide Turn, Taken;
    TakenCut(text[c..a], text[a..n]);
  }

  lemma HeaderStopIs(text: string, a: nat)
    requires a <= |text| && InWindow(HeaderReach(text[a..]))
    ensures Find(text[a..], Header) >= 0 && HeaderStop(text, a) == a + Find(text[a..], Header) + 8 > a
  {
    hide Find, HeaderReach, InWindow;
    var h := HeaderFound(text[a..]);
  }

  lemma TakenCut(before: string, url: string)
    ensures |Taken(Cut(before, url))| == |before| + |url|
  {
  }

  /** The body of the loop: skip this `data:`, or replace the URL that starts there. Every slice is on boundaries. */
  method TakeTurn(value: seq<Byte>, lower: seq<Byte>, cursor: nat, start: nat, ghost text: string, ghost c: nat)
    returns (shown: seq<Byte>, next: nat, cut: bool)
    requires value == Encode(text) && lower == Lowered(value) && c <= |text| && Find(text[c..], Data) >= 0
    requires cursor == Offset(text, c) && start == Offset(text, DataAt(text, c))
    ensures cursor < next == Offset(text, TurnEnd(text, c)) <= |value|
    ensures var p := Turn(text[c..]); !p.Rest? && shown == Encode(Shown(p)) && cut == p.Cut?
  {
    hide Turn, Taken, Shown, Find, HeaderReach, InWindow, PayloadEnd, Encode, Offset, Boundary, Lowered, Slice, MARKER,
      DataAt, TurnEnd, HeaderStop;
    DataAtBounds(text, c);
    var relativeMarker := FindHeader(value, lower, start, text, DataAt(text, c));
    if relativeMarker < 0 {
      SkippedBytes(text, c);
      shown, next, cut := Slice(value, cursor, start + 5), start + 5, false;
    } else {
      CutBytes(text, c);
      next := PayloadStop(value, start + relativeMarker + 8, text, HeaderStop(text, DataAt(text, c)));
      shown, cut := Slice(value, cursor, start) + Encode(MARKER), true;
    }
  }

  lemma DataAtBounds(text: string, c: nat)
    requires c <= |text| && Find(text[c..], Data) >= 0
    ensures DataAt(text, c) <= |text| && HeaderStop(text, DataAt(text, c)) <= |text|
  {
  }

  /** The character at which the next `data:` starts, where there is one. */
  function DataAt(text: string, c: nat): (a: nat)
    requires c <= |text| && Find(text[c..], Data) >= 0
    ensures c <= a && a + 5 <= |text|
  {
    c + Find(text[c..], Data)
  }

  /** The character at which the turn that starts at `c` ends. */
  function TurnEnd(text: string, c: nat): (n: nat)
    requires c <= |text|
    ensures c <= n <= |text|
  {
    c + |Taken(Turn(text[c..]))|
  }

  lemma Advanced(s: string, i: nat, j: nat)
    requires i < j <= |s|
    ensures Offset(s, i) < Offset(s, j) <= |Encode(s)|
  {
    hide Encode, Offset;
    OffsetGrows(s, i, j);
    Between(s, j, |s|);
  }

  /** Slicing the bytes at two character offsets is legal and gives the bytes of the characters between. */
  lemma Sliced(s: string, i: nat, j: nat)
    requires i <= j <= |s|
    ensures Offset(s, i) <= Offset(s, j) && Boundary(Encode(s), Offset(s, i)) && Boundary(Encode(s), Offset(s, j))
    ensures Slice(Encode(s), Offset(s, i), Offset(s, j)) == Encode(s[i..j])
  {
    hide Encode, Offset, Boundary;
    OffsetBoundary(s, i);
    OffsetBoundary(s, j);
    Between(s, i, j);
  }

  lemma DataBytes(text: string, c: nat, a: nat)
    requires c <= a && c <= |text| && a - c == Find(text[c..], Data)
    ensures a + 5 <= |text| && Offset(text, a + 5) == Offset(text, a) + 5
  {
    hide Encode, Offset, TagAt, Find;
    assert TagAt(text[c..], a - c, Data) by { FindTag(text[c..], Data); }
    TagAtFrom(text, c, a, Data);
    TagLiteral(text, a, Data);
  }

  lemma FindTag(s: string, tag: Tag)
    requires Find(s, tag) >= 0
    ensures TagAt(s, Find(s, tag), tag)
  {
  }

  lemma TagAtFrom(s: string, c: nat, i: nat, tag: Tag)
    requires c <= i && c <= |s| && TagAt(s[c..], i - c, tag)
    ensures TagAt(s, i, tag)
  {
  }

  lemma HeaderBytes(text: string, a: nat)
    requires a <= |text| && Find(text[a..], Header) >= 0
    ensures var h := a + Find(text[a..], Header);
            h + 8 <= |text| && Offset(text, h + 8) == Offset(text, h) + 8
  {
    hide Encode, Offset, TagAt, Find;
    FindTag(text[a..], Header);
    TagAtFrom(text, a, a + Find(text[a..], Header), Header);
    TagLiteral(text, a + Find(text[a..], Header), Header);
  }

  /** The loop over `cursor` and `output`. */
  method Scan(value: seq<Byte>, ghost text: string) returns (output: seq<Byte>, redacted: bool)
    requires value == Encode(text)
    ensures output == Encode(Rendered(Pieces(text))) && redacted == HasCut(Pieces(text))
  {
    hide Turn, Pieces, Rendered, HasCut, Taken, Shown, Find, Encode, Offset, Boundary, Lowered, FindBytes;
    var lower := Lowered(value);
    output, redacted := [], false;
    var cursor := 0;
    ghost var c, out := 0, "";
    assert text[0..] == text;
    EncodeNone();
    Between(text, 0, |text|);
    var start := NextData(value, lower, 0, text, 0);
    while start >= 0
      invariant 0 <= c <= |text| && cursor == Offset(text, c) && output == Encode(out)
      invariant out + Rendered(Pieces(text[c..])) == Rendered(Pieces(text))
      invariant (redacted || HasCut(Pieces(text[c..]))) == HasCut(Pieces(text))
      invariant start >= 0 <==> Find(text[c..], Data) >= 0
      invariant start >= 0 ==> start == Offset(text, DataAt(text, c))
      decreases |value| - cursor
    {
      var shown, next, cut := TakeTurn(value, lower, cursor, start, text, c);
      ghost var n := TurnEnd(text, c);
      assert Taken(Turn(text[c..])) == text[c..n] by { TakenIs(text, c); }
      ScanOnward(text, c, n);
      EncodeAppend(out, Shown(Turn(text[c..])));
      output := output + shown;
      out := out + Shown(Turn(text[c..]));
      cursor, c := next, n;
      redacted := redacted || cut;
      start := NextData(value, lower, cursor, text, c);
    }
    TurnRest(text[c..]);
    Sliced(text, c, |text|);
    Between(text, c, |text|);
    assert text[c..|text|] == text[c..];
    EncodeAppend(out, text[c..]);
    output := output + Slice(value, cursor, |value|);
  }

  lemma TakenIs(text: string, c: nat)
    requires c <= |text|
    ensures Taken(Turn(text[c..])) == text[c..TurnEnd(text, c)]
  {
    hide Turn;
    var n := |Taken(Turn(text[c..]))|;
    assert text[c..][..n] == text[c..c + n];
  }

  lemma EncodeNone()
    ensures Encode([]) == []
  {
  }

  /** `lower[cursor..].find("data:")`, as an offset into the whole. */
  method NextData(value: seq<Byte>, lower: seq<Byte>, cursor: nat, ghost text: string, ghost c: nat) returns (start: int)
    requires value == Encode(text) && lower == Lowered(value) && c <= |text| && cursor == Offset(text, c)
    ensures start >= 0 <==> Find(text[c..], Data) >= 0
    ensures start >= 0 ==> start == Offset(text, DataAt(text, c))
  {
    hide Find, Encode, Offset, Boundary, Lowered, FindBytes;
    LoweredSlice(text, c, |text|);
    FindInSlice(text, c, |text|, Data);
    Between(text, c, |text|);
    assert text[c..|text|] == text[c..];
    LoweredSize(value);
    var relativeStart := FindBytes(Slice(lower, cursor, |lower|), Data, 0);
    start := if relativeStart < 0 then -1 else cursor + relativeStart;
  }

  lemma LoweredSize(bs: seq<Byte>)
    ensures |Lowered(bs)| == |bs|
  {
  }

  // ----- the standalone test

  /** `looks_like_standalone_base64`, on bytes. */
  predicate StandaloneBytes(bs: seq<Byte>) {
    |bs| >= 32 && |bs| % 4 == 0
    && (forall b :: b in bs ==> PayloadByte(b) && b != 45 && b != 95)
    && ((exists b :: b in bs && b in [43, 47, 61]) || |bs| >= 256)
  }

  lemma StandaloneIff(t: string)
    ensures StandaloneBytes(Encode(t)) <==> StandaloneBase64(t)
  {
    hide Encode;
    var bs := Encode(t);
    if StandaloneBytes(bs) {
      forall k | 0 <= k < |bs| ensures bs[k] < 0x80 { assert bs[k] in bs; }
      AsciiBytes(t, |bs|);
      SameLength(t);
    }
    if StandaloneBase64(t) {
      forall k | 0 <= k < |t| ensures t[k] as int < 0x80 { assert t[k] in t; CharPayload(t[k]); }
      AsciiChars(t, |t|);
      assert t[..|t|] == t;
    }
    if |bs| == |t| && forall k :: 0 <= k < |t| ==> t[k] as int == bs[k] < 0x80 { CodesStandalone(t, bs); }
  }

  lemma SameLength(t: string)
    requires Utf8Len(t) <= |t|
    ensures |Encode(t)| == Utf8Len(t) == |t|
  {
    LongerBytes(t);
  }

  lemma {:induction false} LongerBytes(t: string)
    ensures Utf8Len(t) >= |t|
  {
    if t == [] {
    } else {
      LongerBytes(t[1..]);
    }
  }

  lemma CodesStandalone(t: string, bs: seq<Byte>)
    requires |bs| == |t| && forall k :: 0 <= k < |t| ==> t[k] as int == bs[k] < 0x80
    ensures StandaloneBytes(bs) <==> StandaloneBase64(t)
  {
    forall k | 0 <= k < |t|
      ensures PayloadByte(bs[k]) <==> PayloadChar(t[k])
      ensures bs[k] in [45, 95] <==> t[k] in "-_"
      ensures bs[k] in [43, 47, 61] <==> t[k] in "+/="
    {
      CharPayload(t[k]);
    }
  }

  /** `str::trim`, which works on characters. */
  function TrimBytes(bs: seq<Byte>): seq<Byte> {
    Encode(Trim(Decode(bs)))
  }

  /**
   * The source's redaction, on bytes: for every text it terminates, never slices inside a character, and computes
   * `Redact`.
   */
  method RedactBinaryText(value: seq<Byte>, ghost text: string) returns (output: seq<Byte>, redacted: bool)
    requires value == Encode(text)
    ensures output == Encode(Redact(text).0) && redacted == Redact(text).1
  {
    hide Encode, Pieces, Rendered, HasCut, StandaloneBase64, StandaloneBytes, Trim, MARKER;
    if value == Encode(MARKER) {
      EncodeInjective(text, MARKER);
      return value, false;
    }
    output, redacted := Scan(value, text);
    DecodeEncode(Rendered(Pieces(text)));
    StandaloneIff(Trim(Rendered(Pieces(text))));
    if !redacted && StandaloneBytes(TrimBytes(output)) { return Encode(MARKER), true; }
  }
}
