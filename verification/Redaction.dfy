/** `redact_binary_text`: embedded base64 data URLs are replaced by a marker. */
module Redaction {
  import opened Prelude
  import opened Text

  const MARKER := "[binary/base64 omitted]"
  const WINDOW := 512

  /** The two fixed strings the scan looks for, without regard to ASCII case: `data:` and `;base64,`. */
  datatype Tag = Data | Header {
    function Size(): nat { if Data? then 5 else 8 }
  }

  predicate TagAt(s: string, i: int, tag: Tag) {
    0 <= i && i + tag.Size() <= |s|
    && match tag
       case Data =>
         Lower(s[i]) == 'd' && Lower(s[i + 1]) == 'a' && Lower(s[i + 2]) == 't' && Lower(s[i + 3]) == 'a'
         && s[i + 4] == ':'
       case Header =>
         s[i] == ';' && Lower(s[i + 1]) == 'b' && Lower(s[i + 2]) == 'a' && Lower(s[i + 3]) == 's'
         && Lower(s[i + 4]) == 'e' && s[i + 5] == '6' && s[i + 6] == '4' && s[i + 7] == ','
  }

  /** `find` on the lower-cased text: the first place the tag occurs, or -1. */
  function Find(s: string, tag: Tag): (r: int)
    ensures -1 <= r <= |s|
    ensures r >= 0 ==> TagAt(s, r, tag) && r + tag.Size() <= |s|
    ensures forall i :: 0 <= i < (if r < 0 then |s| else r) ==> !TagAt(s, i, tag)
  {
    FindFrom(s, tag, 0)
  }

  function FindFrom(s: string, tag: Tag, from: nat): (r: int)
    requires from <= |s|
    ensures r == -1 || from <= r < |s|
    ensures r >= 0 ==> TagAt(s, r, tag) && r + tag.Size() <= |s|
    ensures forall i :: from <= i < (if r < 0 then |s| else r) ==> !TagAt(s, i, tag)
    decreases |s| - from
  {
    if from == |s| then -1
    else if TagAt(s, from, tag) then from
    else FindFrom(s, tag, from + 1)
  }

  /** The specification of `Find` determines it. */
  lemma FindIs(s: string, tag: Tag, r: int)
    requires r >= 0 ==> TagAt(s, r, tag)
    requires r >= -1 && forall i :: 0 <= i < (if r < 0 then |s| else r) ==> !TagAt(s, i, tag)
    ensures Find(s, tag) == r
  {
  }

  /** What one turn of the scan does with the text in front of the cursor. */
  datatype Piece =
    | Skip(text: string)                 // up to and including a `data:` with no base64 header in its window
    | Cut(before: string, url: string)   // text kept, then a data URL that becomes the marker
    | Rest(text: string)                 // no further `data:`

  predicate PayloadChar(c: char) {
    '0' <= c <= '9' || 'a' <= c <= 'z' || 'A' <= c <= 'Z' || c in "+/=-_"
  }

  function PayloadEnd(s: string, from: nat): (e: nat)
    requires from <= |s|
    ensures from <= e <= |s|
    ensures forall i :: from <= i < e ==> PayloadChar(s[i])
    ensures e < |s| ==> !PayloadChar(s[e])
    decreases |s| - from
  {
    if from < |s| && PayloadChar(s[from]) then PayloadEnd(s, from + 1) else from
  }

  /** The size of a text, in bytes and in characters. */
  datatype Span = Span(bytes: nat, chars: nat)

  function Extent(t: string): Span {
    Span(Utf8Len(t), |t|)
  }

  /** The text from the start of `t` through its first base64 header. */
  function HeaderReach(t: string): (r: Option<Span>)
    ensures r.Some? ==> r.value.chars <= |t|
  {
    var j := Find(t, Header);
    if j < 0 then None else Some(Extent(t[..j + 8]))
  }

  predicate InWindow(reach: Option<Span>) {
    reach.Some? && reach.value.bytes <= WINDOW
  }

  function Taken(p: Piece): string {
    match p case Skip(t) => t case Cut(b, u) => b + u case Rest(t) => t
  }

  function Shown(p: Piece): string {
    match p case Skip(t) => t case Cut(b, _) => b + MARKER case Rest(t) => t
  }

  /** One turn of the scan over the text from the cursor on. */
  function Turn(s: string): (p: Piece)
    ensures |Taken(p)| <= |s| && Taken(p) == s[..|Taken(p)|]
    ensures if p.Rest? then p.text == s else |Taken(p)| >= 5
  {
    var i := Find(s, Data);
    if i < 0 then Rest(s)
    else if !InWindow(HeaderReach(s[i..])) then Skip(s[..i + 5])
    else
      var e := PayloadEnd(s, i + Find(s[i..], Header) + 8);
      assert s[..i] + s[i..e] == s[..e];
      Cut(s[..i], s[i..e])
  }

  function Pieces(s: string): (ps: seq<Piece>)
    ensures |ps| > 0 && forall p :: p in ps && p.Skip? ==> |p.text| >= 5
    decreases |s|
  {
    var p := Turn(s);
    if p.Rest? then [p] else [p] + Pieces(s[|Taken(p)|..])
  }

  function Source(ps: seq<Piece>): string {
    if ps == [] then [] else Taken(ps[0]) + Source(ps[1..])
  }

  function Rendered(ps: seq<Piece>): string {
    if ps == [] then [] else Shown(ps[0]) + Rendered(ps[1..])
  }

  predicate HasCut(ps: seq<Piece>) {
    exists p :: p in ps && p.Cut?
  }

  predicate StandaloneBase64(s: string) {
    |s| >= 32 && |s| % 4 == 0
    && (forall c :: c in s ==> PayloadChar(c) && c !in "-_")
    && ((exists c :: c in s && c in "+/=") || |s| >= 256)
  }

  function Redact(value: string): (string, bool) {
    if value == MARKER then (value, false)
    else
      var ps := Pieces(value);
      if !HasCut(ps) && StandaloneBase64(Trim(Rendered(ps))) then (MARKER, true)
      else (Rendered(ps), HasCut(ps))
  }

  lemma PiecesUnfold(s: string)
    ensures var p, rest := Turn(s), Pieces(s)[1..];
            Pieces(s)[0] == p && rest == (if p.Rest? then [] else Pieces(s[|Taken(p)|..]))
            && Rendered(Pieces(s)) == Shown(p) + Rendered(rest)
            && (HasCut(Pieces(s)) <==> p.Cut? || HasCut(rest))
  {
    hide Turn, Taken, Shown;
    var ps := Pieces(s);
    assert ps[0] in ps;
    if HasCut(ps[1..]) { var q :| q in ps[1..] && q.Cut?; assert q in ps; }
  }

  /** A turn that skips, in positions of the whole text. */
  lemma TurnSkipAt(value: string, cursor: nat, start: nat)
    requires cursor <= start && cursor <= |value| && start - cursor == Find(value[cursor..], Data)
    requires start <= |value| && !InWindow(HeaderReach(value[start..]))
    ensures start + 5 <= |value| && Turn(value[cursor..]) == Skip(value[cursor..start + 5])
  {
    hide Find, HeaderReach, InWindow, Turn;
    TailOf(value, cursor, start - cursor);
    TurnSkip(value[cursor..]);
    SliceOf(value, cursor, 0, start - cursor + 5);
  }

  /** A turn that cuts, in positions of the whole text; `k` is where the payload starts. */
  lemma TurnCutAt(value: string, cursor: nat, start: nat, k: nat)
    requires cursor <= start && cursor <= |value| && start - cursor == Find(value[cursor..], Data)
    requires start <= |value| && InWindow(HeaderReach(value[start..])) && k == start + Find(value[start..], Header) + 8
    ensures k <= |value| && Turn(value[cursor..]) == Cut(value[cursor..start], value[start..PayloadEnd(value, k)])
  {
    hide Find, HeaderReach, InWindow, Turn, PayloadEnd;
    var h := HeaderFound(value[start..]);
    var rest, i := value[cursor..], start - cursor;
    var n := PayloadEnd(value, k);
    TailOf(value, cursor, i);
    CutSlices(value, cursor, start, k);
    TurnCut(rest, i, k - cursor, value[cursor..start], value[start..n]);
  }

  lemma CutSlices(value: string, cursor: nat, start: nat, k: nat)
    requires cursor <= start <= k <= |value|
    ensures var rest := value[cursor..]; var n := PayloadEnd(value, k);
            start <= n <= |value| && value[cursor..start] == rest[..start - cursor]
            && value[start..n] == rest[start - cursor..PayloadEnd(rest, k - cursor)]
  {
    hide PayloadEnd;
    PayloadEndShift(value, cursor, k);
    PayloadEndBounds(value, k);
    SliceOf(value, cursor, 0, start - cursor);
    SliceOf(value, cursor, start - cursor, PayloadEnd(value, k) - cursor);
  }

  lemma TailOf(s: string, c: nat, i: nat)
    requires c + i <= |s|
    ensures s[c..][i..] == s[c + i..]
  {
  }

  lemma TurnSkip(s: string)
    requires Find(s, Data) >= 0 && !InWindow(HeaderReach(s[Find(s, Data)..]))
    ensures Find(s, Data) + 5 <= |s| && Turn(s) == Skip(s[..Find(s, Data) + 5])
  {
    hide HeaderReach, InWindow, PayloadEnd, TagAt;
  }

  lemma TurnCut(s: string, i: nat, k: nat, before: string, url: string)
    requires i == Find(s, Data) && InWindow(HeaderReach(s[i..])) && k == i + Find(s[i..], Header) + 8 <= |s|
    requires before == s[..i] && url == s[i..PayloadEnd(s, k)]
    ensures Turn(s) == Cut(before, url)
  {
    hide HeaderReach, InWindow, TagAt, PayloadChar, PayloadEnd, Find;
  }

  lemma SliceOf(s: string, c: nat, i: nat, j: nat)
    requires c <= |s| && i <= j <= |s| - c
    ensures s[c..][i..j] == s[c + i..c + j]
  {
  }

  lemma PayloadEndBounds(s: string, from: nat)
    requires from <= |s|
    ensures from <= PayloadEnd(s, from) <= |s|
  {
  }

  /** The scan from the cursor, after its first turn took the text up to `e`. */
  lemma ScanOnward(value: string, cursor: nat, e: nat)
    requires cursor <= e <= |value| && Taken(Turn(value[cursor..])) == value[cursor..e] && !Turn(value[cursor..]).Rest?
    ensures var p, ps := Turn(value[cursor..]), Pieces(value[e..]);
            Rendered(Pieces(value[cursor..])) == Shown(p) + Rendered(ps)
            && (HasCut(Pieces(value[cursor..])) <==> p.Cut? || HasCut(ps))
  {
    hide Turn, Rendered, HasCut, Shown, Taken;
    PiecesUnfold(value[cursor..]);
    assert value[cursor..][e - cursor..] == value[e..];
  }

  lemma HeaderFound(t: string) returns (h: nat)
    requires InWindow(HeaderReach(t))
    ensures h == Find(t, Header) && h + 8 <= |t|
  {
    h := Find(t, Header);
  }

  lemma TurnRest(s: string)
    requires Find(s, Data) < 0
    ensures Turn(s) == Rest(s) && Rendered(Pieces(s)) == s && !HasCut(Pieces(s))
  {
    PiecesUnfold(s);
  }

  lemma PayloadEndShift(s: string, k: nat, from: nat)
    requires k <= from <= |s|
    ensures PayloadEnd(s[k..], from - k) + k == PayloadEnd(s, from)
    decreases |s| - from
  {
    if from < |s| && PayloadChar(s[from]) { PayloadEndShift(s, k, from + 1); }
  }

  lemma FindPrefix(s: string, n: nat, tag: Tag)
    requires n <= |s|
    ensures var j := Find(s, tag);
            Find(s[..n], tag) == if j >= 0 && j + tag.Size() <= n then j else -1
  {
    var j := Find(s, tag);
    var r := if j >= 0 && j + tag.Size() <= n then j else -1;
    forall i | 0 <= i < (if r < 0 then n else r) ensures !TagAt(s[..n], i, tag) {
      assert !TagAt(s, i, tag) || i >= j;
    }
    FindIs(s[..n], tag, r);
  }

  /** Searching the window slice is searching the whole tail and keeping hits inside the window. */
  lemma WindowFind(value: string, start: nat, e: nat)
    requires start <= e <= |value| && Utf8Len(value[start..e]) <= WINDOW
    requires e == |value| || Utf8Len(value[start..e + 1]) > WINDOW
    ensures var t := value[start..];
            Find(value[start..e], Header) == (if InWindow(HeaderReach(t)) then Find(t, Header) else -1)
            && (Find(value[start..e], Header) >= 0 <==> InWindow(HeaderReach(t)))
  {
    hide Find, TagAt, Utf8Len;
    var t, n := value[start..], e - start;
    assert value[start..e] == t[..n];
    FindPrefix(t, n, Header);
    HeaderInside(t);
    if Find(t, Header) >= 0 { PrefixFits(value, start, e, Find(t, Header) + 8); }
  }

  lemma HeaderInside(t: string)
    ensures Find(t, Header) >= 0 ==> Find(t, Header) + 8 <= |t|
  {
  }

  /** A prefix fits the window exactly when it ends within the largest prefix that does. */
  lemma PrefixFits(value: string, start: nat, e: nat, k: nat)
    requires start <= e <= |value| && Utf8Len(value[start..e]) <= WINDOW && k <= |value| - start
    requires e == |value| || Utf8Len(value[start..e + 1]) > WINDOW
    ensures Utf8Len(value[start..][..k]) <= WINDOW <==> k <= e - start
  {
    hide Utf8Len;
    var t := value[start..];
    if k <= e - start {
      assert value[start..e] == t[..k] + value[start + k..e];
      Utf8LenAppend(t[..k], value[start + k..e]);
    } else {
      assert t[..k] == value[start..e + 1] + t[e + 1 - start..k];
      Utf8LenAppend(value[start..e + 1], t[e + 1 - start..k]);
    }
  }

  // ----- what the scan replaces

  /** A span that RFC 2397 section 3 calls a base64 data URL, with its payload taken to the end. */
  predicate DataUrl(u: string) {
    TagAt(u, 0, Data) && InWindow(HeaderReach(u))
    && forall i :: Find(u, Header) + 8 <= i < |u| ==> PayloadChar(u[i])
  }

  lemma TurnFacts(s: string)
    ensures var p := Turn(s);
            (p.Rest? ==> Find(s, Data) < 0)
            && (p.Skip? ==> var i := |p.text| - 5;
                  i == Find(s, Data) == Find(p.text, Data) && !InWindow(HeaderReach(s[i..])))
            && (p.Cut? ==> var i := |p.before|;
                  i == Find(s, Data) && Find(p.before, Data) < 0 && InWindow(HeaderReach(s[i..])) && DataUrl(p.url))
  {
    hide TagAt, Find, PayloadChar, HeaderReach, DataUrl;
    var i := Find(s, Data);
    if i >= 0 {
      FindPrefix(s, i + 5, Data);
      FindPrefix(s, i, Data);
      if Turn(s).Cut? { CutIsDataUrl(s, i); }
    }
  }

  lemma CutIsDataUrl(s: string, i: nat)
    requires i == Find(s, Data) && InWindow(HeaderReach(s[i..]))
    ensures var e := PayloadEnd(s, i + Find(s[i..], Header) + 8); DataUrl(s[i..e])
  {
    hide Find, PayloadEnd, PayloadChar, HeaderReach, InWindow, TagAt, DataUrl;
    var t := s[i..];
    var h := HeaderFound(t);
    TagStarts(s, i);
    UrlFromStart(t);
    PayloadEndShift(s, i, i + h + 8);
    assert s[i..PayloadEnd(s, i + h + 8)] == t[..PayloadEnd(t, h + 8)];
  }

  lemma UrlFromStart(t: string)
    requires TagAt(t, 0, Data) && InWindow(HeaderReach(t))
    ensures DataUrl(t[..PayloadEnd(t, Find(t, Header) + 8)])
  {
    hide Find, PayloadChar, Utf8Len;
    var k := Find(t, Header) + 8;
    var u := t[..PayloadEnd(t, k)];
    FindPrefix(t, |u|, Header);
    assert u[..k] == t[..k];
  }

  lemma TagStarts(s: string, i: nat)
    requires i == Find(s, Data)
    ensures TagAt(s[i..], 0, Data)
  {
  }

  /** The payload of a cut goes to its end. */
  lemma CutIsMaximal(s: string)
    requires Turn(s).Cut?
    ensures var n := |Taken(Turn(s))|; n == |s| || !PayloadChar(s[n])
  {
    hide Find, PayloadChar, HeaderReach;
  }

  /** What follows the piece does not go on with base64 characters. */
  predicate EndsPayload(after: string) {
    after == [] || !PayloadChar(after[0])
  }

  lemma {:induction false} SourceWhole(s: string)
    ensures Source(Pieces(s)) == s
    ensures !HasCut(Pieces(s)) ==> Rendered(Pieces(s)) == s
    decreases |s|
  {
    hide HasCut, Turn, Pieces;
    var p := Turn(s);
    PiecesUnfold(s);
    SourceUnfold(s);
    var n := |Taken(p)|;
    if p.Rest? {
      RenderedNone();
      assert Shown(p) + [] == s;
    } else {
      SourceWhole(s[n..]);
      assert s == s[..n] + s[n..];
    }
  }

  lemma SourceUnfold(s: string)
    ensures Source(Pieces(s)) == if Turn(s).Rest? then s else Taken(Turn(s)) + Source(Pieces(s[|Taken(Turn(s))|..]))
  {
    hide Turn;
    var p := Turn(s);
    assert p.Rest? ==> Pieces(s)[1..] == [] && Taken(p) + [] == s;
    assert !p.Rest? ==> Pieces(s)[1..] == Pieces(s[|Taken(p)|..]);
  }

  /** One piece that is cut: a data URL, with its payload taken to the end. */
  lemma {:induction false} CutPiece(s: string, i: nat)
    requires i < |Pieces(s)| && Pieces(s)[i].Cut?
    ensures DataUrl(Pieces(s)[i].url) && EndsPayload(Source(Pieces(s)[i + 1..]))
    decreases i
  {
    hide DataUrl, HasCut, Turn, EndsPayload, Pieces, Source, Rendered;
    var p := Turn(s);
    PiecesUnfold(s);
    TurnFacts(s);
    var rest := s[|Taken(p)|..];
    if i == 0 {
      CutEnds(s);
      SourceWhole(rest);
    } else {
      assert Pieces(s)[1..][i - 1] == Pieces(s)[i];
      assert Pieces(s)[1..][i..] == Pieces(s)[i + 1..];
      CutPiece(rest, i - 1);
    }
  }

  /** Every text is the concatenation of its pieces, and the only spans replaced are maximal data URLs. */
  lemma {:induction false} PiecesPartition(s: string)
    ensures Source(Pieces(s)) == s
    ensures forall i :: 0 <= i < |Pieces(s)| && Pieces(s)[i].Cut? ==>
              DataUrl(Pieces(s)[i].url) && EndsPayload(Source(Pieces(s)[i + 1..]))
    ensures !HasCut(Pieces(s)) ==> Rendered(Pieces(s)) == s
  {
    hide DataUrl, HasCut, EndsPayload, Pieces, Source, Rendered;
    SourceWhole(s);
    forall i | 0 <= i < |Pieces(s)| && Pieces(s)[i].Cut?
      ensures DataUrl(Pieces(s)[i].url) && EndsPayload(Source(Pieces(s)[i + 1..]))
    {
      CutPiece(s, i);
    }
  }

  lemma CutEnds(s: string)
    requires Turn(s).Cut?
    ensures EndsPayload(s[|Taken(Turn(s))|..])
  {
    hide Turn, Taken, PayloadChar;
    CutIsMaximal(s);
  }

  // ----- texts the redaction leaves alone

  /** A `data:` at `i` that the scan would take for a data URL. */
  predicate Hot(t: string, i: int) {
    TagAt(t, i, Data) && InWindow(HeaderReach(t[i..]))
  }

  ghost predicate Quiet(t: string) {
    forall i :: 0 <= i < |t| ==> !Hot(t, i)
  }

  lemma HotSuffix(t: string, k: nat, i: nat)
    requires k <= i < |t|
    ensures Hot(t, i) == Hot(t[k..], i - k)
  {
    assert t[k..][i - k..] == t[i..];
  }

  lemma QuietSuffix(t: string, k: nat)
    requires Quiet(t) && k <= |t|
    ensures Quiet(t[k..])
  {
    var u := t[k..];
    forall i | 0 <= i < |u| ensures !Hot(u, i) {
      HotSuffix(t, k, k + i);
      assert !Hot(t, k + i);
    }
  }

  lemma {:induction false} QuietKept(t: string)
    requires Quiet(t)
    ensures !HasCut(Pieces(t))
    decreases |t|
  {
    hide HasCut, Turn, TagAt, HeaderReach;
    var p := Turn(t);
    PiecesUnfold(t);
    TurnFacts(t);
    if Find(t, Data) >= 0 { assert !Hot(t, Find(t, Data)); }
    if p.Skip? {
      QuietSuffix(t, |p.text|);
      QuietKept(t[|p.text|..]);
    } else { NoCut(); }
  }

  lemma NoCut()
    ensures !HasCut([])
  {
  }

  /** A hot spot is always cut, and cutting always changes the text. */
  lemma LoudChanged(t: string)
    requires !Quiet(t)
    ensures HasCut(Pieces(t)) && Rendered(Pieces(t)) != t
  {
    hide HasCut, Pieces, Rendered, Quiet;
    LoudCut(t);
    CutsLoseColons(t);
  }

  lemma {:induction false} LoudCut(t: string)
    requires !Quiet(t)
    ensures HasCut(Pieces(t))
    decreases |t|
  {
    hide HasCut, Turn, HeaderReach, Pieces, Rendered, Find, DataUrl, InWindow;
    var k :| 0 <= k < |t| && Hot(t, k);
    var p := Turn(t);
    var i := Find(t, Data);
    PiecesUnfold(t);
    TurnFacts(t);
    if !p.Cut? {
      FirstTag(t, k);
      HotSuffix(t, i + 5, k);
      LoudCut(t[i + 5..]);
    }
  }

  /** The first tag is no later than any other, and tags do not overlap. */
  lemma FirstTag(t: string, k: nat)
    requires TagAt(t, k, Data)
    ensures var i := Find(t, Data); 0 <= i <= k && (k == i || k >= i + 5)
  {
    var i := Find(t, Data);
    assert i >= 0 ==> TagAt(t, i, Data);
  }

  function Colons(s: string): nat {
    multiset(s)[':']
  }

  /** Cutting loses the colon of every URL cut and adds none. */
  lemma {:induction false} CutsLoseColons(s: string)
    ensures Colons(Rendered(Pieces(s))) <= Colons(s)
    ensures HasCut(Pieces(s)) ==> Colons(Rendered(Pieces(s))) < Colons(s)
    decreases |s|
  {
    hide Turn, Pieces, Rendered, HasCut, DataUrl, Find, HeaderReach, InWindow, MARKER, MarkerLike;
    var p := Turn(s);
    PiecesUnfold(s);
    TurnFacts(s);
    NoCut();
    if p.Rest? {
      RenderedNone();
      assert Shown(p) + [] == s;
    } else {
      var n := |Taken(p)|;
      assert s == s[..n] + s[n..];
      CutsLoseColons(s[n..]);
      if p.Cut? {
        MarkerColonless();
        UrlColon(p.url);
      }
    }
  }

  lemma MarkerColonless()
    ensures Colons(MARKER) == 0
  {
    MarkerFacts();
  }

  lemma UrlColon(u: string)
    requires DataUrl(u)
    ensures Colons(u) > 0
  {
    assert u[4] == ':';
  }

  ghost predicate Settled(t: string) {
    Quiet(t) && !StandaloneBase64(Trim(t))
  }

  lemma MarkerFacts()
    ensures |MARKER| == 23 && MARKER[0] == '[' && MARKER[22] == ']'
    ensures MarkerLike(MARKER)
  {
  }

  lemma NotStandalone(t: string, c: char)
    requires c in t && !White(c) && !PayloadChar(c)
    ensures !StandaloneBase64(Trim(t))
  {
    hide Trim, White, PayloadChar;
    TrimKeeps(t, c);
  }

  lemma BracketNotStandalone(t: string)
    requires '[' in t
    ensures !StandaloneBase64(Trim(t))
  {
    hide Trim, StandaloneBase64;
    NotStandalone(t, '[');
  }

  lemma ColonlessQuiet(t: string)
    requires forall i :: 0 <= i < |t| ==> t[i] != ':'
    ensures Quiet(t)
  {
  }

  lemma MarkerSettled()
    ensures Settled(MARKER)
  {
    MarkerFacts();
    ColonlessQuiet(MARKER);
    BracketNotStandalone(MARKER);
  }

  /** What redaction returns is never itself taken for a bare base64 payload. */
  lemma RedactNotStandalone(s: string)
    ensures !StandaloneBase64(Trim(Redact(s).0))
  {
    hide StandaloneBase64, Pieces, Rendered, Quiet, Trim;
    MarkerSettled();
    if HasCut(Pieces(s)) {
      RenderedBracket(Pieces(s));
      BracketNotStandalone(Rendered(Pieces(s)));
    }
  }

  /** The fixed points of redaction are exactly the settled texts. */
  lemma RedactFixedIff(t: string)
    ensures Settled(t) ==> Redact(t) == (t, false)
    ensures Redact(t).0 == t ==> Settled(t)
  {
    PiecesPartition(t);
    if t == MARKER { MarkerSettled(); }
    else if Quiet(t) { QuietKept(t); }
    else { LoudChanged(t); }
  }

  // ----- when a second pass finds nothing: an exact condition on the input

  function Further(reach: Option<Span>, gap: Span): Option<Span> {
    match reach case None => None case Some(r) => Some(Span(r.bytes + gap.bytes, r.chars + gap.chars))
  }

  /** The extent of `data:`. */
  const DATA := Span(5, 5)

  /** The text of a piece that is kept, up to the marker if there is one. */
  function Head(p: Piece): string {
    match p case Skip(t) => t case Cut(b, _) => b case Rest(t) => t
  }

  /** The output up to the first base64 header that survives the scan. */
  function SurvivingReach(ps: seq<Piece>): Option<Span> {
    if ps == [] then None
    else if HeaderReach(Head(ps[0])).Some? then HeaderReach(Head(ps[0]))
    else Further(SurvivingReach(ps[1..]), Extent(Shown(ps[0])))
  }

  /** No skipped `data:` has a surviving base64 header pulled into its window by the cuts after it. */
  predicate Stable(ps: seq<Piece>) {
    ps == [] || (Stable(ps[1..]) && (ps[0].Skip? ==> !InWindow(Further(SurvivingReach(ps[1..]), DATA))))
  }

  /** The same, where only the output from character `lo` up to `hi` is going to be kept. */
  predicate StableIn(ps: seq<Piece>, lo: int, hi: int) {
    ps == []
    || (StableIn(ps[1..], lo - |Shown(ps[0])|, hi - |Shown(ps[0])|)
        && (ps[0].Skip? && lo <= |ps[0].text| - 5 ==>
              !Caught(Further(SurvivingReach(ps[1..]), DATA), hi - (|ps[0].text| - 5))))
  }

  /** A header in the window whose end lies within `room` characters. */
  predicate Caught(reach: Option<Span>, room: int) {
    InWindow(reach) && reach.value.chars <= room
  }

  /** Characters of output. */
  function Size(ps: seq<Piece>): (n: nat)
    ensures n == |Rendered(ps)|
  {
    if ps == [] then 0 else |Shown(ps[0])| + Size(ps[1..])
  }

  predicate Separated(u: string, v: string, tag: Tag) {
    u == [] || v == []
    || u[|u| - 1] == (if tag.Header? then ':' else ']') || u[|u| - 1] in "]\n" || v[0] in "[\n"
  }

  lemma TagAtAppend(u: string, v: string, tag: Tag, i: int)
    requires Separated(u, v, tag)
    ensures TagAt(u + v, i, tag) <==> TagAt(u, i, tag) || TagAt(v, i - |u|, tag)
  {
    if i < |u| < i + tag.Size() <= |u + v| {
      assert 0 <= i ==> (u + v)[|u| - 1] == u[|u| - 1] && (u + v)[|u|] == v[0];
    }
  }

  lemma FindAppend(u: string, v: string, tag: Tag)
    requires Separated(u, v, tag)
    ensures var a, b := Find(u, tag), Find(v, tag);
            Find(u + v, tag) == if a >= 0 then a else if b >= 0 then |u| + b else -1
  {
    hide Separated;
    var a, b := Find(u, tag), Find(v, tag);
    var r := if a >= 0 then a else if b >= 0 then |u| + b else -1;
    forall i | 0 <= i < (if r < 0 then |u + v| else r) ensures !TagAt(u + v, i, tag) {
      TagAtAppend(u, v, tag, i);
      assert i < |u| ==> !TagAt(u, i, tag);
      assert i >= |u| ==> !TagAt(v, i - |u|, tag);
    }
    FindIs(u + v, tag, r);
  }

  lemma HeaderReachAppend(u: string, v: string)
    requires Separated(u, v, Header)
    ensures HeaderReach(u + v) == if HeaderReach(u).Some? then HeaderReach(u) else Further(HeaderReach(v), Extent(u))
  {
    hide TagAt, Find, Utf8Len, Separated;
    FindAppend(u, v, Header);
    var a, b := Find(u, Header), Find(v, Header);
    if a >= 0 {
      assert (u + v)[..a + 8] == u[..a + 8];
    } else if b >= 0 {
      TakeAppend(u, v, b + 8);
    }
  }

  lemma TakeAppend(u: string, v: string, n: nat)
    requires n <= |v|
    ensures Utf8Len((u + v)[..|u| + n]) == Utf8Len(u) + Utf8Len(v[..n])
  {
    hide Utf8Len;
    assert (u + v)[..|u| + n] == u + v[..n];
    Utf8LenAppend(u, v[..n]);
  }

  lemma NoHeader(t: string)
    requires forall i :: 0 <= i < |t| ==> t[i] != ';'
    ensures HeaderReach(t) == None
  {
  }

  lemma {:induction false} AsciiLen(t: string)
    requires forall i :: 0 <= i < |t| ==> t[i] as int < 0x80
    ensures Utf8Len(t) == |t|
  {
    if t == [] {
    } else {
      AsciiLen(t[1..]);
    }
  }

  lemma {:induction false} SurvivingReachRendered(s: string)
    ensures SurvivingReach(Pieces(s)) == HeaderReach(Rendered(Pieces(s)))
    decreases |s|
  {
    hide Turn, Find, TagAt, HeaderReach, Rendered, HasCut;
    var p := Turn(s);
    PiecesUnfold(s);
    TurnFacts(s);
    var rest := Pieces(s)[1..];
    if p.Rest? {
      RenderedNone();
      assert Shown(p) + Rendered(rest) == s;
    } else {
      SurvivingReachRendered(s[|Taken(p)|..]);
      if p.Skip? {
        DataEndsWithColon(p.text);
        HeaderReachAppend(p.text, Rendered(rest));
      } else {
        MarkerFacts();
        ReachAround(p.before, MARKER, Rendered(rest));
      }
    }
  }

  lemma RenderedNone()
    ensures Rendered([]) == [] && SurvivingReach([]) == None
  {
  }

  lemma DataEndsWithColon(u: string)
    requires |u| >= 5 && Find(u, Data) == |u| - 5
    ensures u[|u| - 1] == ':'
  {
  }

  predicate MarkerLike(m: string) {
    |m| > 0 && m[0] == '[' && m[|m| - 1] == ']'
    && forall i :: 0 <= i < |m| ==> m[i] != ':' && m[i] != ';' && m[i] as int < 0x80
  }

  lemma ReachAround(b: string, m: string, r: string)
    requires MarkerLike(m)
    ensures HeaderReach(b + m + r) ==
            if HeaderReach(b).Some? then HeaderReach(b) else Further(HeaderReach(r), Extent(b + m))
  {
    hide HeaderReach;
    NoHeader(m);
    HeaderReachAppend(m, r);
    HeaderReachAppend(b, m + r);
    Utf8LenAppend(b, m);
    assert b + m + r == b + (m + r);
  }

  /** A hot spot of the part of the text that is kept. */
  predicate HotIn(t: string, i: int, lo: int, hi: int) {
    TagAt(t, i, Data) && lo <= i && Caught(HeaderReach(t[i..]), hi - i)
  }

  ghost predicate QuietIn(t: string, lo: int, hi: int) {
    forall i :: 0 <= i < |t| ==> !HotIn(t, i, lo, hi)
  }

  /** Where everything is kept, every hot spot is kept. */
  lemma QuietInAll(t: string, lo: int, hi: int)
    requires lo <= 0 && |t| <= hi
    ensures QuietIn(t, lo, hi) <==> Quiet(t)
  {
    hide TagAt;
    forall i | 0 <= i < |t| ensures HotIn(t, i, lo, hi) <==> Hot(t, i) { }
  }

  /** Whether text in front of a rest brings a hot spot depends only on what starts in that text. */
  lemma QuietInAppend(u: string, r: string, lo: int, hi: int)
    ensures QuietIn(u + r, lo, hi) <==>
            QuietIn(r, lo - |u|, hi - |u|) && forall i :: 0 <= i < |u| ==> !HotIn(u + r, i, lo, hi)
  {
    hide HeaderReach, Caught, TagAt;
    var t, a, b := u + r, lo - |u|, hi - |u|;
    forall i | |u| <= i < |t| ensures HotIn(t, i, lo, hi) == HotIn(r, i - |u|, a, b) {
      TagShift(u, r, i);
      assert t[i..] == r[i - |u|..];
    }
    if QuietIn(t, lo, hi) {
      forall j | 0 <= j < |r| ensures !HotIn(r, j, a, b) { assert !HotIn(t, |u| + j, lo, hi); }
    }
  }

  lemma TagShift(u: string, r: string, i: int)
    requires i >= |u|
    ensures TagAt(u + r, i, Data) == TagAt(r, i - |u|, Data)
  {
  }

  /** In front of a skipped `data:` nothing is hot; the `data:` itself is hot when a header follows closely. */
  lemma SkippedHotIff(u: string, r: string, lo: int, hi: int)
    requires |u| >= 5 && Find(u, Data) == |u| - 5
    ensures QuietIn(u + r, lo, hi) <==>
            QuietIn(r, lo - |u|, hi - |u|)
            && (lo <= |u| - 5 ==> !Caught(Further(HeaderReach(r), DATA), hi - (|u| - 5)))
  {
    hide HeaderReach, Caught;
    var i := |u| - 5;
    var t, d := u + r, u[|u| - 5..];
    assert TagAt(t, i, Data);
    assert t[i..] == d + r;
    NoHeader(d);
    AsciiLen(d);
    HeaderReachAppend(d, r);
    assert HotIn(t, i, lo, hi) <==> lo <= i && Caught(Further(HeaderReach(r), DATA), hi - i);
    forall k | 0 <= k < |u| && k != i ensures !TagAt(t, k, Data) {
      if k < i { assert !TagAt(u, k, Data); } else { assert t[k] == u[k]; }
    }
    QuietInAppend(u, r, lo, hi);
  }

  lemma CutCold(b: string, m: string, r: string, lo: int, hi: int)
    requires Find(b, Data) < 0 && MarkerLike(m)
    ensures QuietIn(b + m + r, lo, hi) <==> QuietIn(r, lo - |b + m|, hi - |b + m|)
  {
    hide HeaderReach, Caught;
    var u, t := b + m, b + m + r;
    assert t == b + (m + r);
    forall k | 0 <= k < |u| ensures !TagAt(t, k, Data) {
      TagAtAppend(b, m + r, Data, k);
      TagAtAppend(m, r, Data, k - |b|);
      assert k < |b| ==> !TagAt(b, k, Data);
    }
    QuietInAppend(u, r, lo, hi);
  }

  /** What is kept of the output has nothing left to cut exactly when the input's pieces say so. */
  lemma {:induction false} RenderedQuietIn(s: string, lo: int, hi: int)
    ensures QuietIn(Rendered(Pieces(s)), lo, hi) <==> StableIn(Pieces(s), lo, hi)
    decreases |s|
  {
    hide Turn, Find, TagAt, HeaderReach, Rendered, HasCut, QuietIn, SurvivingReach, Pieces, Caught;
    var p := Turn(s);
    PiecesUnfold(s);
    TurnFacts(s);
    if p.Rest? {
      RenderedNone();
      assert Shown(p) + [] == s;
      NoDataQuiet(s, lo, hi);
    } else {
      var t := s[|Taken(p)|..];
      RenderedQuietIn(t, lo - |Shown(p)|, hi - |Shown(p)|);
      QuietTurn(p, t, lo, hi);
    }
  }

  lemma QuietTurn(p: Piece, t: string, lo: int, hi: int)
    requires p.Skip? ==> |p.text| >= 5 && Find(p.text, Data) == |p.text| - 5
    requires p.Cut? ==> Find(p.before, Data) < 0
    requires !p.Rest?
    ensures QuietIn(Shown(p) + Rendered(Pieces(t)), lo, hi) <==>
            QuietIn(Rendered(Pieces(t)), lo - |Shown(p)|, hi - |Shown(p)|)
            && (p.Skip? && lo <= |p.text| - 5 ==>
                  !Caught(Further(SurvivingReach(Pieces(t)), DATA), hi - (|p.text| - 5)))
  {
    hide Find, HeaderReach, Rendered, QuietIn, SurvivingReach, Pieces, MarkerLike, Caught;
    SurvivingReachRendered(t);
    var r := Rendered(Pieces(t));
    if p.Skip? { SkippedHotIff(p.text, r, lo, hi); } else { MarkerFacts(); CutCold(p.before, MARKER, r, lo, hi); }
  }

  lemma {:induction false} ReachWithin(ps: seq<Piece>)
    ensures SurvivingReach(ps).Some? ==> SurvivingReach(ps).value.chars <= Size(ps)
  {
    hide Find, Utf8Len;
    if ps == [] {
    } else {
      ReachWithin(ps[1..]);
    }
  }

  /** Keeping less leaves less to cut again; keeping everything is stability. */
  lemma {:induction false} StableInAll(ps: seq<Piece>, lo: int, hi: int)
    requires forall p :: p in ps && p.Skip? ==> |p.text| >= 5
    ensures Stable(ps) ==> StableIn(ps, lo, hi)
    ensures lo <= 0 && Size(ps) <= hi ==> (StableIn(ps, lo, hi) <==> Stable(ps))
  {
    hide SurvivingReach, Rendered;
    if ps == [] {
    } else {
      StableInAll(ps[1..], lo - |Shown(ps[0])|, hi - |Shown(ps[0])|);
      ReachWithin(ps[1..]);
    }
  }

  lemma RenderedQuietIff(s: string)
    ensures Quiet(Rendered(Pieces(s))) <==> Stable(Pieces(s))
  {
    hide Quiet, QuietIn, Stable, StableIn, Pieces, Rendered;
    var n := Size(Pieces(s));
    RenderedQuietIn(s, 0, n);
    QuietInAll(Rendered(Pieces(s)), 0, n);
    StableInAll(Pieces(s), 0, n);
  }

  lemma NoDataQuiet(s: string, lo: int, hi: int)
    requires Find(s, Data) < 0
    ensures QuietIn(s, lo, hi)
  {
  }

  lemma {:induction false} RenderedBracket(ps: seq<Piece>)
    requires HasCut(ps)
    ensures '[' in Rendered(ps)
  {
    var p :| p in ps && p.Cut?;
    if ps[0].Cut? {
      MarkerFacts();
      assert Rendered(ps)[|ps[0].before|] == MARKER[0];
    } else {
      assert p in ps[1..];
      RenderedBracket(ps[1..]);
    }
  }

  // ----- what the caller is told

  /** The flag tells exactly whether the text was changed. */
  lemma RedactFlagIff(s: string)
    ensures Redact(s).1 <==> Redact(s).0 != s
  {
    hide Pieces, Rendered, HasCut, StandaloneBase64, Trim, Colons;
    PiecesPartition(s);
    CutsLoseColons(s);
  }

  /** A data URL on its own becomes exactly the marker, and is reported. */
  lemma WholeUrl(u: string)
    requires DataUrl(u)
    ensures Redact(u) == ("[binary/base64 omitted]", true)
  {
    hide Pieces, Rendered, HasCut, StandaloneBase64, Trim, DataUrl, Turn, Taken, Shown;
    UrlTurn(u);
    PiecesUnfold(u);
    TurnRest([]);
    assert u[|u|..] == [];
    assert MARKER + [] == MARKER;
    UrlIsNotMarker(u);
  }

  lemma UrlTurn(u: string)
    requires DataUrl(u)
    ensures Turn(u) == Cut([], u) && |Taken(Turn(u))| == |u| && Shown(Turn(u)) == MARKER
  {
    hide Turn, DataUrl, MARKER;
    UrlIsCut(u);
    assert [] + u == u && [] + MARKER == MARKER;
  }

  lemma UrlIsCut(u: string)
    requires DataUrl(u)
    ensures Turn(u) == Cut([], u)
  {
    hide TagAt, HeaderReach, InWindow, PayloadChar, PayloadEnd, Turn, Find;
    DataAtStart(u);
    assert u[0..] == u;
    var h := HeaderFound(u);
    PayloadAll(u, h + 8);
    assert u[..0] == [] && u[0..|u|] == u;
    TurnCut(u, 0, h + 8, [], u);
  }

  lemma DataAtStart(u: string)
    requires TagAt(u, 0, Data)
    ensures Find(u, Data) == 0
  {
    hide TagAt;
    FindIs(u, Data, 0);
  }

  lemma UrlIsNotMarker(u: string)
    requires DataUrl(u)
    ensures u != MARKER
  {
    MarkerFacts();
  }

  lemma PayloadAll(s: string, from: nat)
    requires from <= |s| && forall i :: from <= i < |s| ==> PayloadChar(s[i])
    ensures PayloadEnd(s, from) == |s|
    decreases |s| - from
  {
    if from == |s| {
    } else {
      PayloadAll(s, from + 1);
    }
  }

  /** The characters a payload is made of: both base64 alphabets and the padding. */
  lemma PayloadAlphabet(c: char)
    ensures PayloadChar(c) <==>
            'A' <= c <= 'Z' || 'a' <= c <= 'z' || '0' <= c <= '9' || c == '+' || c == '/' || c == '=' || c == '-' || c == '_'
  {
  }

  /** A bare payload: at least 32 base64 characters, a multiple of four, and either long or visibly base64. */
  lemma BarePayloadIff(s: string)
    requires Find(s, Data) < 0 && s != MARKER
    ensures Redact(s) == (if StandaloneBase64(Trim(s)) then ("[binary/base64 omitted]", true) else (s, false))
    ensures var t := Trim(s);
            StandaloneBase64(t) <==>
            |t| >= 32 && |t| % 4 == 0 && (forall c :: c in t ==> PayloadChar(c) && c != '-' && c != '_')
            && (|t| >= 256 || '+' in t || '/' in t || '=' in t)
  {
    hide Pieces, Rendered, HasCut, Trim, PayloadChar;
    TurnRest(s);
    StandaloneIs(Trim(s));
  }

  lemma StandaloneIs(t: string)
    ensures StandaloneBase64(t) <==>
            |t| >= 32 && |t| % 4 == 0 && (forall c :: c in t ==> PayloadChar(c) && c != '-' && c != '_')
            && (|t| >= 256 || '+' in t || '/' in t || '=' in t)
  {
    hide PayloadChar;
  }

  /** The text after `n` passes of redaction. */
  function Passes(s: string, n: nat): string
    decreases n
  {
    if n == 0 then s else Passes(Redact(s).0, n - 1)
  }

  /** One pass on an unsettled text loses a colon, or replaces a bare payload by the marker. */
  lemma PassProgress(s: string)
    requires !Settled(s)
    ensures Colons(Redact(s).0) < Colons(s) || (StandaloneBase64(Trim(s)) && Redact(s).0 == MARKER)
  {
    hide Quiet, Pieces, Rendered, HasCut, StandaloneBase64, Trim, Colons, MARKER;
    PiecesPartition(s);
    MarkerSettled();
    if Quiet(s) { QuietKept(s); } else { LoudChanged(s); }
    CutsLoseColons(s);
  }

  lemma PassesNext(s: string, n: nat)
    ensures Passes(s, 0) == s && Passes(s, n + 1) == Passes(Redact(s).0, n)
  {
    hide Redact;
  }

  /** Repeated redaction settles: after no more passes than the text has colons, or one if it is a bare payload. */
  lemma {:induction false} PassesSettle(s: string) returns (n: nat)
    ensures n <= Colons(s) || (n == 1 && StandaloneBase64(Trim(s)))
    ensures Settled(Passes(s, n)) && Redact(Passes(s, n)) == (Passes(s, n), false)
    decreases Colons(s)
  {
    hide Settled, Redact, Passes, StandaloneBase64, Trim, Colons, MARKER;
    var r := Redact(s).0;
    n := 0;
    PassesNext(s, 0);
    PassesNext(r, 0);
    if Settled(s) {
      RedactFixedIff(s);
    } else {
      PassProgress(s);
      if r == MARKER {
        n := 1;
        MarkerSettled();
        RedactFixedIff(MARKER);
      } else {
        RedactNotStandalone(s);
        var k := PassesSettle(r);
        PassesNext(s, k);
        n := k + 1;
      }
    }
  }

  /** Redacting twice is redacting once exactly when no cut pulls a surviving header into an earlier window. */
  lemma RedactIdempotentIff(value: string)
    ensures Settled(Redact(value).0) <==> Stable(Pieces(value))
    ensures Redact(Redact(value).0).0 == Redact(value).0 <==> Stable(Pieces(value))
  {
    var ps := Pieces(value);
    PiecesPartition(value);
    RenderedQuietIff(value);
    RedactFixedIff(Redact(value).0);
    MarkerSettled();
    if value == MARKER {
      QuietKept(MARKER);
    } else if HasCut(ps) {
      RenderedBracket(ps);
      BracketNotStandalone(Rendered(ps));
    } else if !Quiet(value) {
      LoudChanged(value);
    }
  }

  predicate Spaces(s: string) {
    forall i :: 0 <= i < |s| ==> s[i] == ' '
  }

  predicate Ascii(s: string) {
    forall i :: 0 <= i < |s| ==> s[i] as int < 0x80
  }

  lemma TurnSkips(s: string, j: nat)
    requires Ascii(s) && TagAt(s, 0, Data) && TagAt(s, j, Header) && j + 8 > WINDOW
    requires forall i :: 0 <= i < j ==> s[i] != ';'
    ensures Turn(s) == Skip(s[..5])
  {
    hide TagAt, HeaderReach;
    assert s[0..] == s;
    FirstHeader(s, j);
    FindIs(s, Data, 0);
  }

  lemma TurnCuts(s: string, i: nat, j: nat)
    requires Ascii(s) && TagAt(s, i, Data) && TagAt(s, j, Header) && i <= j && j + 8 - i <= WINDOW
    requires forall k :: 0 <= k < i ==> s[k] == ' '
    requires forall k :: i <= k < j ==> s[k] != ';'
    requires j + 8 < |s| && s[j + 8] == ';'
    ensures Turn(s) == Cut(s[..i], s[i..j + 8])
  {
    hide TagAt, HeaderReach;
    CutHeader(s, i, j);
    FindIs(s, Data, i) by { NoTagIn(s, i); }
    assert PayloadEnd(s, j + 8) == j + 8;
  }

  lemma NoTagIn(s: string, i: nat)
    requires i <= |s| && forall k :: 0 <= k < i ==> s[k] == ' '
    ensures forall k :: 0 <= k < i ==> !TagAt(s, k, Data)
  {
  }

  lemma CutHeader(s: string, i: nat, j: nat)
    requires Ascii(s) && TagAt(s, j, Header) && i <= j && forall k :: i <= k < j ==> s[k] != ';'
    ensures Find(s[i..], Header) == j - i && HeaderReach(s[i..]) == Some(Span(j - i + 8, j - i + 8))
  {
    hide HeaderReach;
    FirstHeader(s[i..], j - i);
  }

  /** A text on which redaction is not idempotent: cutting the inner URL pulls the last header up to the first `data:`. */
  lemma SecondPassRedacts(gap: string, mime: string)
    requires Spaces(gap) && Spaces(mime) && |gap| == 100 && |mime| == 450
    ensures var value := "data:" + gap + "data:" + mime + ";base64,;base64,";
            !Stable(Pieces(value)) && Redact(Redact(value).0).0 != Redact(value).0 && Nested(value)
  {
    var value := "data:" + gap + "data:" + mime + ";base64,;base64,";
    NestedShape(value, gap, mime);
    RedactIdempotentIff(value);
    NestedUnstable(value);
  }

  predicate Nested(v: string) {
    Ascii(v) && |v| == 576 && TagAt(v, 0, Data) && TagAt(v, 105, Data) && TagAt(v, 560, Header) && TagAt(v, 568, Header)
    && (forall k :: 5 <= k < 105 ==> v[k] == ' ') && (forall k :: 110 <= k < 560 ==> v[k] == ' ')
  }

  lemma NestedShape(v: string, gap: string, mime: string)
    requires Spaces(gap) && Spaces(mime) && |gap| == 100 && |mime| == 450
    requires v == "data:" + gap + "data:" + mime + ";base64,;base64,"
    ensures Nested(v)
  {
  }

  /** The window is 512 bytes: a header that ends there is seen, one byte further it is not. */
  lemma WindowEdge(gap: string)
    requires Spaces(gap)
    ensures var s := "data:" + gap + ";base64,";
            if |gap| <= 499 then Redact(s) == ("[binary/base64 omitted]", true) else Redact(s) == (s, false)
  {
    hide TagAt, HeaderReach, InWindow, StandaloneBase64, Trim, Hot;
    var s := "data:" + gap + ";base64,";
    EdgeShape(s, gap);
    FirstHeader(s, 5 + |gap|);
    if |gap| <= 499 {
      assert DataUrl(s) by { EdgeInWindow(s); }
      WholeUrl(s);
    } else {
      forall i | 0 <= i < |s| ensures !Hot(s, i) { EdgeCold(s, i); }
      NotStandalone(s, ':');
      RedactFixedIff(s);
    }
  }

  predicate Edge(s: string, n: nat) {
    |s| == n + 13 && Ascii(s) && TagAt(s, 0, Data) && TagAt(s, n + 5, Header) && s[4] == ':'
    && (forall k :: 5 <= k < n + 5 ==> s[k] == ' ') && (forall k :: 0 <= k < n + 5 ==> s[k] != ';')
  }

  lemma EdgeShape(s: string, gap: string)
    requires Spaces(gap) && s == "data:" + gap + ";base64,"
    ensures Edge(s, |gap|) && !White(':') && !PayloadChar(':') && ':' in s
  {
    assert s[4] == ':';
  }

  lemma EdgeInWindow(s: string)
    requires TagAt(s, 0, Data) && HeaderReach(s) == Some(Span(|s|, |s|)) && |s| <= WINDOW && Find(s, Header) + 8 == |s|
    ensures DataUrl(s)
  {
    hide TagAt, Utf8Len;
  }

  lemma EdgeCold(s: string, i: nat)
    requires |s| > WINDOW && i < |s| && Edge(s, |s| - 13) && HeaderReach(s) == Some(Span(|s|, |s|))
    ensures !Hot(s, i)
  {
    hide HeaderReach;
    if i == 0 { assert s[0..] == s; }
  }

  /** The pieces of the nested text. */
  lemma NestedPieces(v: string)
    requires Nested(v)
    ensures Pieces(v) == [Skip(v[..5]), Cut(v[5..105], v[105..568]), Rest(v[568..])] && |v| == 576
    ensures SurvivingReach(Pieces(v)[1..]) == Some(Span(131, 131))
  {
    hide Turn, TagAt, HeaderReach, Pieces, Rendered, HasCut, SurvivingReach, Ascii, Shown, Nested;
    NestedFirst(v);
    PiecesUnfold(v);
    NestedRest(v);
    assert Pieces(v) == [Pieces(v)[0]] + Pieces(v)[1..];
  }

  lemma NestedFirst(v: string)
    requires Nested(v)
    ensures |v| == 576 && Turn(v) == Skip(v[..5])
  {
    hide Turn, TagAt, HeaderReach, Ascii;
    NestedNoSemicolon(v);
    TurnSkips(v, 560);
  }

  lemma NestedRest(v: string)
    requires Nested(v)
    ensures |v| == 576 && Pieces(v[5..]) == [Cut(v[5..105], v[105..568]), Rest(v[568..])]
    ensures SurvivingReach(Pieces(v[5..])) == Some(Span(131, 131))
  {
    hide Turn, TagAt, HeaderReach, Pieces, Rendered, HasCut, SurvivingReach, Ascii, Shown;
    NestedOuter(v);
    var outer, last := v[5..], v[568..];
    assert outer[..100] == v[5..105] && outer[100..563] == v[105..568];
    BlankReach(outer[..100]);
    assert outer[563..] == last;
    CutReach(outer, outer[..100], outer[100..563], last);
    RestReach(last);
    CutThenRest(outer, outer[..100], outer[100..563], last);
  }

  lemma CutThenRest(s: string, b: string, u: string, last: string)
    requires Turn(s) == Cut(b, u) && last == s[|b + u|..] && Turn(last) == Rest(last)
    ensures Pieces(s) == [Cut(b, u), Rest(last)]
  {
    hide Turn;
  }

  lemma PairIn(a: Piece, b: Piece, lo: int, hi: int)
    requires !a.Skip? && !b.Skip?
    ensures StableIn([a, b], lo, hi) && Size([a, b]) == |Shown(a)| + |Shown(b)|
  {
    assert [a, b][1..] == [b] && [b][1..] == [];
    assert StableIn([b], lo - |Shown(a)|, hi - |Shown(a)|) && Size([b]) == |Shown(b)|;
  }

  /** The nested text is cut again exactly where both its first `data:` and the header that moved up are kept. */
  lemma NestedStableIn(v: string, lo: int, hi: int)
    requires Nested(v)
    ensures Size(Pieces(v)) == 136
    ensures StableIn(Pieces(v), lo, hi) <==> lo > 0 || hi < 136
  {
    hide Pieces, SurvivingReach, MARKER, Rendered, Nested;
    NestedPieces(v);
    MarkerFacts();
    var ps := Pieces(v);
    var rest := ps[1..];
    assert |Shown(ps[1])| == 123 && |Shown(ps[2])| == 8;
    PairIn(ps[1], ps[2], lo - 5, hi - 5);
    assert rest == [ps[1], ps[2]];
  }

  lemma NestedUnstable(v: string)
    requires Nested(v)
    ensures !Stable(Pieces(v))
  {
    hide Pieces, Stable, StableIn, Rendered;
    NestedStableIn(v, 0, 136);
    StableInAll(Pieces(v), 0, 136);
  }

  lemma RestReach(s: string)
    requires Turn(s) == Rest(s) && HeaderReach(s).Some?
    ensures SurvivingReach(Pieces(s)) == HeaderReach(s)
  {
    hide Turn, HeaderReach;
  }

  lemma BlankReach(b: string)
    requires Spaces(b)
    ensures HeaderReach(b) == None && Utf8Len(b) == |b|
  {
    NoHeader(b);
    AsciiLen(b);
  }

  lemma CutReach(s: string, b: string, u: string, rest: string)
    requires Turn(s) == Cut(b, u) && HeaderReach(b) == None && Utf8Len(b) == |b| && rest == s[|b + u|..]
    ensures SurvivingReach(Pieces(s)) == Further(SurvivingReach(Pieces(rest)), Span(|b| + 23, |b| + 23))
  {
    hide Turn, HeaderReach, Utf8Len, Pieces, SurvivingReach, Rendered, HasCut, Shown;
    assert Taken(Turn(s)) == b + u;
    PiecesUnfold(s);
    CutReachStep(Pieces(s));
  }

  lemma CutReachStep(ps: seq<Piece>)
    requires |ps| > 0 && ps[0].Cut? && HeaderReach(ps[0].before) == None
    ensures var n := Utf8Len(ps[0].before) + 23;
            SurvivingReach(ps) == Further(SurvivingReach(ps[1..]), Span(n, |ps[0].before| + 23))
  {
    hide HeaderReach, Utf8Len, MARKER, Extent, Further;
    MarkedExtent(ps[0].before);
    assert SurvivingReach(ps) == Further(SurvivingReach(ps[1..]), Extent(ps[0].before + MARKER));
  }

  lemma MarkedExtent(b: string)
    ensures Extent(b + MARKER) == Span(Utf8Len(b) + 23, |b| + 23)
  {
    hide Utf8Len, MARKER, MarkerLike;
    MarkerSize();
    Utf8LenAppend(b, MARKER);
  }

  lemma MarkerSize()
    ensures |MARKER| == 23 && Utf8Len(MARKER) == 23
  {
    MarkerFacts();
    AsciiLen(MARKER);
  }

  lemma NestedNoSemicolon(v: string)
    requires Nested(v)
    ensures forall k :: 0 <= k < 560 ==> v[k] != ';'
    ensures v[568] == ';'
  {
  }

  lemma TagFrom(s: string, c: nat, i: nat, tag: Tag)
    requires c <= i && TagAt(s, i, tag)
    ensures c <= |s| && TagAt(s[c..], i - c, tag)
  {
  }

  lemma NestedOuter(v: string)
    requires Nested(v)
    ensures Turn(v[5..]) == Cut(v[5..][..100], v[5..][100..563]) && |v[5..][100..563]| == 463
    ensures Turn(v[568..]) == Rest(v[568..]) && HeaderReach(v[568..]) == Some(Span(8, 8))
  {
    hide HeaderReach, Turn, TagAt;
    NestedNoSemicolon(v);
    TagFrom(v, 5, 105, Data);
    TagFrom(v, 5, 560, Header);
    assert v[5..][563] == v[568];
    TurnCuts(v[5..], 100, 555);
    NestedEnd(v);
  }

  lemma NestedEnd(v: string)
    requires Nested(v)
    ensures Turn(v[568..]) == Rest(v[568..]) && HeaderReach(v[568..]) == Some(Span(8, 8))
  {
    hide HeaderReach;
    TagFrom(v, 568, 568, Header);
    FirstHeader(v[568..], 0);
    FindIs(v[568..], Data, -1);
  }

  lemma FirstHeader(t: string, j: nat)
    requires TagAt(t, j, Header) && forall i :: 0 <= i < |t| ==> t[i] as int < 0x80
    requires forall i :: 0 <= i < j ==> t[i] != ';'
    ensures Find(t, Header) == j && HeaderReach(t) == Some(Span(j + 8, j + 8))
  {
    FindIs(t, Header, j);
    AsciiLen(t[..j + 8]);
  }

  /** Without a `data:` anywhere a second pass finds nothing. */
  lemma NoDataStable(value: string)
    requires Find(value, Data) < 0
    ensures Stable(Pieces(value))
    ensures Redact(value).0 == value || Redact(value) == (MARKER, true)
  {
    TurnRest(value);
  }
}
