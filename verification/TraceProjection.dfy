/** Bounding of tool data for durable conversation history: `bound_value` and its text rules. */
module TraceProjection {
  import opened Prelude
  import opened Text
  import opened Json
  import opened Redaction

  const SUFFIX := "\n...[truncated for conversation history]"
  const EARLIER := "[earlier output omitted]\n"
  const NESTED := "[nested value omitted from conversation history]"
  const OMITTED_KEY := "binaryomittedfromhistory"
  const MAX_ITEMS := 32
  const MAX_FIELDS := 64
  const MAX_DEPTH := 8

  /** A projected value and whether the projection lost anything. */
  datatype Projected = Projected(value: Json, truncated: bool)

  // ----- text

  function Truncate(s: string, limit: nat, tail: bool): (string, bool) {
    if |s| <= limit then (s, false)
    else if tail then (EARLIER + s[|s| - limit..], true)
    else (s[..limit] + SUFFIX, true)
  }

  function BoundText(s: string, limit: nat, tail: bool): (string, bool) {
    var (r, redacted) := Redact(s);
    var (t, cut) := Truncate(r, limit, tail);
    (t, redacted || cut)
  }

  lemma SuffixFacts()
    ensures |SUFFIX| == 40 && SUFFIX[0] == '\n' && '[' in SUFFIX
    ensures forall i :: 0 <= i < |SUFFIX| ==> SUFFIX[i] != ':' && SUFFIX[i] != ';'
  {
    SuffixPlain(':');
    SuffixPlain(';');
    assert SUFFIX[4] == '[';
  }

  lemma SuffixPlain(c: char)
    requires c == ':' || c == ';'
    ensures forall i :: 0 <= i < |SUFFIX| ==> SUFFIX[i] != c
  {
  }

  lemma EarlierFacts()
    ensures |EARLIER| == 25 && EARLIER[24] == '\n' && '[' in EARLIER
    ensures forall i :: 0 <= i < |EARLIER| ==> EARLIER[i] != ':' && EARLIER[i] != ';'
  {
    assert EARLIER[0] == '[';
  }

  /** A truncated text is over-long on purpose, and truncating it again finds the same cut. */
  lemma TruncateIdempotent(s: string, limit: nat, tail: bool)
    ensures var r := Truncate(s, limit, tail); Truncate(r.0, limit, tail) == r
  {
    hide SUFFIX, EARLIER;
    SuffixFacts();
    EarlierFacts();
    if |s| > limit {
      if tail { assert (EARLIER + s[|s| - limit..])[|EARLIER|..] == s[|s| - limit..]; }
      else { assert (s[..limit] + SUFFIX)[..limit] == s[..limit]; }
    }
  }

  // ----- what a second redaction finds in a truncated text

  /** A cut text has the hot spots of the original whose tag and header both lie before the cut. */
  lemma HeadQuietIff(s: string, n: nat, end: string)
    requires n <= |s| && end != [] && end[0] == '\n'
    requires forall i :: 0 <= i < |end| ==> end[i] != ':' && end[i] != ';'
    ensures Quiet(s[..n] + end) <==> QuietIn(s, 0, n)
  {
    hide TagAt, HeaderReach;
    var t := s[..n] + end;
    forall i | 0 <= i ensures Hot(t, i) <==> i < |s| && HotIn(s, i, 0, n) { HeadHotIff(s, n, end, i); }
    if Quiet(t) {
      forall i | 0 <= i < |s| ensures !HotIn(s, i, 0, n) {
        if i < |t| { assert !Hot(t, i); } else { NotHotBeyond(s, i, n); }
      }
    }
  }

  lemma NotHotBeyond(s: string, i: nat, n: nat)
    requires n <= i <= |s|
    ensures !HotIn(s, i, 0, n)
  {
    hide TagAt;
  }

  lemma HeadHotIff(s: string, n: nat, end: string, i: nat)
    requires n <= |s| && end != [] && end[0] == '\n'
    requires forall i :: 0 <= i < |end| ==> end[i] != ':' && end[i] != ';'
    ensures Hot(s[..n] + end, i) <==> i < |s| && HotIn(s, i, 0, n)
  {
    hide TagAt, HeaderReach, Utf8Len;
    var u := s[..n];
    TagAtAppend(u, end, Data, i);
    NoDataIn(end, i - n);
    TagPrefixIff(s, n, i);
    if i < n {
      assert (u + end)[i..] == u[i..] + end;
      NoHeader(end);
      HeaderReachAppend(u[i..], end);
      assert u[i..] == s[i..][..n - i];
      ReachPrefix(s[i..], n - i);
    } else if i <= |s| { NotHotBeyond(s, i, n); }
  }

  lemma NoDataIn(s: string, i: int)
    requires forall i :: 0 <= i < |s| ==> s[i] != ':'
    ensures !TagAt(s, i, Data)
  {
  }

  lemma TagPrefixIff(s: string, n: nat, i: int)
    requires n <= |s|
    ensures TagAt(s[..n], i, Data) <==> TagAt(s, i, Data) && i + 5 <= n
    ensures TagAt(s, i, Data) ==> i < |s|
  {
  }

  /** The first header of a prefix is the first header of the text, if it ends within the prefix. */
  lemma ReachPrefix(s: string, n: nat)
    requires n <= |s|
    ensures HeaderReach(s[..n]) ==
            if HeaderReach(s).Some? && HeaderReach(s).value.chars <= n then HeaderReach(s) else None
    ensures HeaderReach(s).Some? ==> HeaderReach(s).value.chars >= 8
  {
    hide TagAt, Find, Utf8Len;
    FindPrefix(s, n, Header);
    var j := Find(s, Header);
    if j >= 0 && j + 8 <= n { assert s[..n][..j + 8] == s[..j + 8]; }
  }

  /** A tail has the hot spots of the original that start in it. */
  lemma TailQuietIff(s: string, k: nat, front: string)
    requires k <= |s| && front != [] && front[|front| - 1] == '\n'
    requires forall i :: 0 <= i < |front| ==> front[i] != ':'
    ensures Quiet(front + s[k..]) <==> QuietIn(s, k, |s|)
  {
    hide TagAt, HeaderReach, Caught, Quiet;
    var r := s[k..];
    var t := front + r;
    forall i | 0 <= i < |front| ensures !TagAt(t, i, Data) {
      TagAtAppend(front, r, Data, i);
      NoDataIn(front, i);
      NotBefore(r, i - |front|);
    }
    QuietInAll(t, 0, |t|);
    QuietInAppend(front, r, 0, |t|);
    QuietInAll(r, -|front|, |r|);
    assert s[..k] + r == s;
    QuietInAppend(s[..k], r, k, |s|);
    QuietInAll(r, 0, |r|);
  }

  lemma NotBefore(s: string, i: int)
    requires i < 0
    ensures !TagAt(s, i, Data)
  {
  }

  lemma QuietEverywhere(s: string, lo: int, hi: int)
    requires Quiet(s)
    ensures QuietIn(s, lo, hi)
  {
    hide TagAt, HeaderReach;
    forall i | 0 <= i < |s| ensures !HotIn(s, i, lo, hi) { assert !Hot(s, i); }
  }

  /** Truncation never makes a settled text redactable. */
  lemma TruncateSettled(s: string, limit: nat, tail: bool)
    requires Settled(s)
    ensures Settled(Truncate(s, limit, tail).0)
  {
    hide Truncate, StandaloneBase64, Trim, Quiet, QuietIn;
    if |s| > limit {
      TruncatedQuietIff(s, limit, tail);
      QuietEverywhere(s, 0, limit);
      QuietEverywhere(s, |s| - limit, |s|);
      TruncatedBracket(s, limit, tail);
      BracketNotStandalone(Truncate(s, limit, tail).0);
    } else { ShortKept(s, limit, tail); }
  }

  lemma TruncatedBracket(s: string, limit: nat, tail: bool)
    requires |s| > limit
    ensures '[' in Truncate(s, limit, tail).0
  {
    hide SUFFIX, EARLIER;
    SuffixFacts();
    EarlierFacts();
  }

  lemma TruncatedQuietIff(s: string, limit: nat, tail: bool)
    requires |s| > limit
    ensures Quiet(Truncate(s, limit, tail).0) <==> if tail then QuietIn(s, |s| - limit, |s|) else QuietIn(s, 0, limit)
  {
    hide SUFFIX, EARLIER, Quiet, QuietIn;
    if tail {
      EarlierFacts();
      TailQuietIff(s, |s| - limit, EARLIER);
    } else {
      SuffixFacts();
      HeadQuietIff(s, limit, SUFFIX);
    }
  }

  // ----- bounding a bounded text

  /**
   * The exact condition, on the text before the call: no skipped `data:` that the truncation keeps has, in its window,
   * a surviving header that the truncation keeps.
   */
  predicate Lasts(s: string, limit: nat, tail: bool) {
    var ps := Pieces(s);
    if tail then StableIn(ps, Size(ps) - limit, Size(ps)) else StableIn(ps, 0, limit)
  }

  /** A bare base64 payload holds no `data:`. */
  lemma StandaloneNoData(s: string)
    requires StandaloneBase64(Trim(s))
    ensures Find(s, Data) < 0
  {
    hide Trim, StandaloneBase64;
    var i := Find(s, Data);
    if i >= 0 {
      assert s[i + 4] == ':';
      NotStandalone(s, ':');
    }
  }

  /** The condition says what a second pass would look for in the result. */
  lemma LastsIffQuiet(s: string, limit: nat, tail: bool)
    ensures Lasts(s, limit, tail) <==> Quiet(BoundText(s, limit, tail).0)
  {
    hide Quiet, QuietIn, StableIn, Pieces, Rendered, Truncate, HasCut, StandaloneBase64, Trim, Stable;
    var ps := Pieces(s);
    var r := Rendered(ps);
    if Redact(s).0 == r {
      if |r| <= limit {
        assert Truncate(r, limit, tail).0 == r by { ShortKept(r, limit, tail); }
        RenderedQuietIff(s);
        StableInAll(ps, 0, limit);
        StableInAll(ps, Size(ps) - limit, Size(ps));
      } else {
        TruncatedQuietIff(r, limit, tail);
        RenderedQuietIn(s, 0, limit);
        RenderedQuietIn(s, |r| - limit, |r|);
      }
    } else {
      MarkerPieces(s);
      StableInAll(ps, 0, limit);
      StableInAll(ps, Size(ps) - limit, Size(ps));
      MarkerSettled();
      TruncateSettled(MARKER, limit, tail);
    }
  }

  lemma ShortKept(s: string, limit: nat, tail: bool)
    requires |s| <= limit
    ensures Truncate(s, limit, tail).0 == s
  {
  }

  /** Where redaction answers with the bare marker, the scan found no `data:` at all. */
  lemma MarkerPieces(s: string)
    requires Redact(s).0 != Rendered(Pieces(s))
    ensures Redact(s).0 == MARKER && Stable(Pieces(s))
  {
    hide StandaloneBase64, Trim, Rendered, Pieces, Stable, HasCut;
    PiecesPartition(s);
    if s == MARKER { QuietKept(s) by { MarkerSettled(); } }
    else {
      StandaloneNoData(s);
      NoDataStable(s);
    }
  }

  /** Truncation adds no colon. */
  lemma TruncateColons(s: string, limit: nat, tail: bool)
    ensures Colons(Truncate(s, limit, tail).0) <= Colons(s)
  {
    hide SUFFIX, EARLIER;
    SuffixFacts();
    EarlierFacts();
    if |s| > limit {
      assert s == s[..limit] + s[limit..];
      assert s == s[..|s| - limit] + s[|s| - limit..];
    }
  }

  lemma BoundTextSettled(s: string, limit: nat, tail: bool)
    ensures !StandaloneBase64(Trim(BoundText(s, limit, tail).0))
  {
    hide SUFFIX, EARLIER, Redact, StandaloneBase64, Trim;
    RedactNotStandalone(s);
    SuffixFacts();
    EarlierFacts();
    if |Redact(s).0| > limit { BracketNotStandalone(BoundText(s, limit, tail).0); }
  }

  /**
   * Bounding a bounded text changes nothing exactly when it lasts; it then reports a loss only where the first
   * pass did.
   */
  lemma BoundTextFixedIff(s: string, limit: nat, tail: bool)
    ensures var r := BoundText(s, limit, tail); var again := BoundText(r.0, limit, tail);
            (again.0 == r.0 <==> Lasts(s, limit, tail)) && (Lasts(s, limit, tail) && again.1 ==> r.1)
  {
    hide Truncate, Quiet, StandaloneBase64, Pieces, Rendered, HasCut, Trim, Lasts;
    var r := BoundText(s, limit, tail).0;
    LastsIffQuiet(s, limit, tail);
    BoundTextSettled(s, limit, tail);
    TruncateIdempotent(Redact(s).0, limit, tail);
    RedactFixedIff(r);
    if !Quiet(r) {
      MarkerSettled();
      LoudChanged(r);
      CutsLoseColons(r);
      TruncateColons(Rendered(Pieces(r)), limit, tail);
    }
  }

  /** A text redaction settles in one pass lasts under every limit; one that fits the limit lasts only then. */
  lemma StableLasts(s: string, limit: nat, tail: bool)
    ensures Stable(Pieces(s)) ==> Lasts(s, limit, tail)
    ensures Size(Pieces(s)) <= limit ==> (Lasts(s, limit, tail) <==> Stable(Pieces(s)))
  {
    hide Pieces, Stable, StableIn;
    var ps := Pieces(s);
    StableInAll(ps, 0, limit);
    StableInAll(ps, Size(ps) - limit, Size(ps));
  }

  /** What truncation keeps: the first or the last `limit` characters, beside a fixed notice. */
  lemma TruncateKeeps(s: string, limit: nat, tail: bool)
    ensures |s| <= limit ==> Truncate(s, limit, tail) == (s, false)
    ensures |s| > limit ==>
              Truncate(s, limit, tail).1
              && Truncate(s, limit, tail).0 ==
                 if tail then "[earlier output omitted]\n" + s[|s| - limit..]
                 else s[..limit] + "\n...[truncated for conversation history]"
  {
  }

  /** The flag of a bounded text tells exactly whether it was changed, or was over the limit to begin with. */
  lemma BoundTextFlagIff(s: string, limit: nat, tail: bool)
    ensures BoundText(s, limit, tail).1 <==> BoundText(s, limit, tail).0 != s || |s| > limit
  {
    hide Redact, SUFFIX, EARLIER, Colons;
    RedactFlagIff(s);
    if Redact(s).1 { RedactedStaysChanged(s, limit, tail); }
  }

  /** Truncation never restores what redaction took. */
  lemma RedactedStaysChanged(s: string, limit: nat, tail: bool)
    requires Redact(s).0 != s
    ensures Truncate(Redact(s).0, limit, tail).0 != s
  {
    hide Truncate, Pieces, Rendered, HasCut, StandaloneBase64, Trim, Colons;
    var r := Redact(s).0;
    PiecesPartition(s);
    CutsLoseColons(s);
    TruncateColons(r, limit, tail);
    if |r| <= limit { ShortKept(r, limit, tail); }
    else if '[' in s { BracketNotStandalone(s); }
    else { TruncatedBracket(r, limit, tail); }
  }

  /** A text is bounded without a flag exactly when it is settled and within the limit; it then comes back as it is. */
  lemma BoundTextUnflaggedIff(s: string, limit: nat, tail: bool)
    ensures !BoundText(s, limit, tail).1 <==> Settled(s) && |s| <= limit
    ensures !BoundText(s, limit, tail).1 ==> BoundText(s, limit, tail).0 == s
  {
    hide Redact, Settled, Truncate;
    BoundTextFlagIff(s, limit, tail);
    RedactFixedIff(s);
    RedactFlagIff(s);
    if |s| <= limit { ShortUnflagged(s, limit, tail); }
    if |s| > limit { BoundTextFlagIff(s, limit, tail); }
  }

  lemma ShortUnflagged(s: string, limit: nat, tail: bool)
    requires |s| <= limit
    ensures Truncate(s, limit, tail) == (s, false)
  {
  }

  /** The text after `n` passes of bounding. */
  function BoundPasses(s: string, limit: nat, tail: bool, n: nat): string
    decreases n
  {
    if n == 0 then s else BoundPasses(BoundText(s, limit, tail).0, limit, tail, n - 1)
  }

  /** Bounding a bounded text that does not last loses a colon. */
  lemma BoundProgress(s: string, limit: nat, tail: bool)
    requires !Lasts(s, limit, tail)
    ensures var t := BoundText(s, limit, tail).0; Colons(BoundText(t, limit, tail).0) < Colons(t)
  {
    hide Truncate, Quiet, Pieces, Rendered, HasCut, Lasts, StandaloneBase64, Trim, Colons, MARKER;
    var t := BoundText(s, limit, tail).0;
    LastsIffQuiet(s, limit, tail);
    MarkerSettled();
    LoudChanged(t);
    CutsLoseColons(t);
    TruncateColons(Rendered(Pieces(t)), limit, tail);
  }

  lemma {:induction false} BoundedSettles(s: string, limit: nat, tail: bool) returns (n: nat)
    ensures var t := BoundText(s, limit, tail).0; var u := BoundPasses(t, limit, tail, n);
            n <= Colons(t) && BoundText(u, limit, tail).0 == u
    decreases Colons(BoundText(s, limit, tail).0)
  {
    hide BoundText, Lasts, Colons;
    var t := BoundText(s, limit, tail).0;
    BoundTextFixedIff(s, limit, tail);
    if Lasts(s, limit, tail) {
      n := 0;
    } else {
      BoundProgress(s, limit, tail);
      var k := BoundedSettles(t, limit, tail);
      n := k + 1;
    }
  }

  /** However often a text is projected, it settles: after the first pass, no more passes than there are colons. */
  lemma BoundPassesSettle(s: string, limit: nat, tail: bool) returns (n: nat)
    ensures n <= Colons(s) + 1
    ensures var u := BoundPasses(s, limit, tail, n); BoundText(u, limit, tail).0 == u
  {
    hide Truncate, Redact, Colons;
    var k := BoundedSettles(s, limit, tail);
    n := k + 1;
    BoundColons(s, limit, tail);
  }

  lemma BoundColons(s: string, limit: nat, tail: bool)
    ensures Colons(BoundText(s, limit, tail).0) <= Colons(s)
  {
    hide Truncate, Pieces, Rendered, HasCut, StandaloneBase64, Trim, MARKER, Colons;
    CutsLoseColons(s);
    MarkerColonless();
    TruncateColons(Redact(s).0, limit, tail);
  }

  /** Bounding the nested text again changes it exactly when the limit leaves room for the header that moved up. */
  lemma NestedLastsIff(v: string, limit: nat, tail: bool)
    requires Nested(v)
    ensures Lasts(v, limit, tail) <==> limit < 136
  {
    hide Pieces, StableIn, Nested, Rendered;
    NestedStableIn(v, 0, limit);
    NestedStableIn(v, 136 - limit, 136);
  }

  /** A bounded text is the original, or carries a bracketed notice. */
  lemma BoundTextKept(s: string, limit: nat, tail: bool)
    ensures BoundText(s, limit, tail).0 == s || '[' in BoundText(s, limit, tail).0
  {
    hide SUFFIX, EARLIER, Redact;
    SuffixFacts();
    EarlierFacts();
    RedactKept(s);
  }

  lemma RedactKept(s: string)
    ensures Redact(s).0 == s || '[' in Redact(s).0
  {
    hide Pieces, Rendered, HasCut, StandaloneBase64;
    PiecesPartition(s);
    MarkerFacts();
    if HasCut(Pieces(s)) { RenderedBracket(Pieces(s)); }
  }

  lemma BoundTextSize(s: string, limit: nat, tail: bool)
    ensures |BoundText(s, limit, tail).0| <= limit + |SUFFIX|
  {
    hide SUFFIX, EARLIER, Redact;
    SuffixFacts();
    EarlierFacts();
  }

  // ----- values

  predicate Alphanumeric(c: char) {
    '0' <= c <= '9' || 'a' <= c <= 'z' || 'A' <= c <= 'Z'
  }

  function CanonicalKey(key: string): string {
    if key == [] then [] else KeyChar(key[0]) + CanonicalKey(key[1..])
  }

  function KeyChar(c: char): string {
    if Alphanumeric(c) then [Lower(c)] else []
  }

  predicate Contains(s: string, pat: string) {
    pat <= s || (s != [] && Contains(s[1..], pat))
  }

  predicate Hidden(key: string) {
    CanonicalKey(key) in ["reasoning", "hiddenthinking", "chainofthought", "internalreasoning"]
  }

  predicate BinaryKey(key: string) {
    var c := CanonicalKey(key);
    Contains(c, "base64") || Contains(c, "dataurl") || Contains(c, "binarybytes") || Contains(c, "imagebytes")
  }

  predicate OmissionNote(key: string, value: Json) {
    CanonicalKey(key) == OMITTED_KEY && value == JBool(true)
  }

  function Room(depth: nat): nat {
    if depth < MAX_DEPTH then MAX_DEPTH - depth else 0
  }

  function Bound(value: Json, limit: nat, depth: nat): Projected
    decreases Room(depth), 0, 0
  {
    if depth >= MAX_DEPTH then Projected(JString(NESTED), true)
    else match value
      case JObject(ms) =>
        var n := if |ms| <= MAX_FIELDS then |ms| else MAX_FIELDS;
        var r := BoundMembers(ms[..n], limit, depth + 1);
        Projected(JObject(r.0), |ms| > MAX_FIELDS || r.1)
      case JArray(xs) =>
        var n := if |xs| <= MAX_ITEMS then |xs| else MAX_ITEMS;
        var r := BoundItems(xs[..n], limit, depth + 1);
        Projected(JArray(r.0), |xs| > MAX_ITEMS || r.1)
      case JString(s) =>
        var r := BoundText(s, limit, false);
        Projected(JString(r.0), r.1)
      case _ => Projected(value, false)
  }

  /** One object field: dropped, replaced, or bounded one level down. */
  function BoundField(m: Member, limit: nat, depth: nat): Option<Projected>
    decreases Room(depth), 1, 0
  {
    if Hidden(m.key) then None
    else if BinaryKey(m.key) then Some(Projected(JString(MARKER), true))
    else if OmissionNote(m.key, m.value) then Some(Projected(m.value, true))
    else Some(Bound(m.value, limit, depth))
  }

  function BoundMembers(ms: seq<Member>, limit: nat, depth: nat): (seq<Member>, bool)
    decreases Room(depth), 2, |ms|
  {
    if ms == [] then ([], false)
    else
      var m := ms[|ms| - 1];
      var (out, truncated) := BoundMembers(ms[..|ms| - 1], limit, depth);
      match BoundField(m, limit, depth)
      case None => (out, true)
      case Some(p) => (Put(out, m.key, p.value), truncated || p.truncated)
  }

  function BoundItems(xs: seq<Json>, limit: nat, depth: nat): (r: (seq<Json>, bool))
    ensures |r.0| == |xs|
    decreases Room(depth), 2, |xs|
  {
    if xs == [] then ([], false)
    else
      var (out, truncated) := BoundItems(xs[..|xs| - 1], limit, depth);
      var p := Bound(xs[|xs| - 1], limit, depth);
      (out + [p.value], truncated || p.truncated)
  }

  /** Every text in the value is one that redaction settles in one pass. */
  predicate StableTexts(value: Json) {
    match value
    case JString(s) => Stable(Pieces(s))
    case JArray(xs) => forall i :: 0 <= i < |xs| ==> StableTexts(xs[i])
    case JObject(ms) => forall i :: 0 <= i < |ms| ==> StableTexts(ms[i].value)
    case _ => true
  }

  predicate NoDataTexts(value: Json) {
    match value
    case JString(s) => Find(s, Data) < 0
    case JArray(xs) => forall i :: 0 <= i < |xs| ==> NoDataTexts(xs[i])
    case JObject(ms) => forall i :: 0 <= i < |ms| ==> NoDataTexts(ms[i].value)
    case _ => true
  }

  /** Values without a `data:` in any text meet the condition. */
  lemma {:induction false} NoDataStableTexts(value: Json)
    requires NoDataTexts(value)
    ensures StableTexts(value)
  {
    hide Stable, Pieces;
    match value
    case JString(s) => NoDataStable(s);
    case JArray(xs) => forall i | 0 <= i < |xs| ensures StableTexts(xs[i]) { NoDataStableTexts(xs[i]); }
    case JObject(ms) => forall i | 0 <= i < |ms| ensures StableTexts(ms[i].value) { NoDataStableTexts(ms[i].value); }
    case _ =>
  }

  /** Every text that survives into the bounded value lasts. */
  predicate Lasting(value: Json, limit: nat, depth: nat)
    decreases value, 0
  {
    depth >= MAX_DEPTH
    || match value
       case JString(s) => Lasts(s, limit, false)
       case JArray(xs) => forall i :: 0 <= i < |xs| && i < MAX_ITEMS ==> Lasting(xs[i], limit, depth + 1)
       case JObject(ms) => forall i :: 0 <= i < |ms| && i < MAX_FIELDS ==> LastingField(ms[i], limit, depth + 1)
       case _ => true
  }

  predicate LastingField(m: Member, limit: nat, depth: nat)
    decreases m, 1
  {
    Hidden(m.key) || BinaryKey(m.key) || OmissionNote(m.key, m.value) || Lasting(m.value, limit, depth)
  }

  lemma {:induction false} StableLasting(value: Json, limit: nat, depth: nat)
    requires StableTexts(value)
    ensures Lasting(value, limit, depth)
  {
    hide Stable, Pieces, Lasts, Hidden, BinaryKey, OmissionNote;
    match value
    case JString(s) => StableLasts(s, limit, false);
    case JArray(xs) =>
      forall i | 0 <= i < |xs| ensures Lasting(xs[i], limit, depth + 1) { StableLasting(xs[i], limit, depth + 1); }
    case JObject(ms) =>
      forall i | 0 <= i < |ms| ensures Lasting(ms[i].value, limit, depth + 1) { StableLasting(ms[i].value, limit, depth + 1); }
    case _ =>
  }

  /** A second pass on a projected value reproduces it and reports a loss only if the first one did. */
  predicate Repeats(p: Projected, again: Projected) {
    again.value == p.value && (again.truncated ==> p.truncated)
  }

  predicate FieldFixed(m: Member, truncated: bool, limit: nat, depth: nat) {
    match BoundField(m, limit, depth)
    case None => false
    case Some(again) => again.value == m.value && (again.truncated ==> truncated)
  }

  /** `bound_value` is a fixed point on its own output at the same depth. */
  lemma {:induction false} BoundFixed(value: Json, limit: nat, depth: nat)
    requires Lasting(value, limit, depth)
    ensures var p := Bound(value, limit, depth); Repeats(p, Bound(p.value, limit, depth))
    decreases Room(depth), 0, 0
  {
    hide BoundText, BoundMembers, BoundItems, Lasts;
    if depth < MAX_DEPTH {
      match value
      case JString(s) => BoundTextFixedIff(s, limit, false);
      case JArray(xs) =>
        var n := if |xs| <= MAX_ITEMS then |xs| else MAX_ITEMS;
        var r := BoundItemsFixed(xs[..n], limit, depth + 1);
        assert r[..|r|] == r;
      case JObject(ms) =>
        var n := if |ms| <= MAX_FIELDS then |ms| else MAX_FIELDS;
        var r, t := BoundMembersFixed(ms[..n], limit, depth + 1);
        SortedFixed(r, t, limit, depth + 1);
        assert r[..|r|] == r;
      case _ =>
    }
  }

  lemma {:induction false} BoundItemsFixed(xs: seq<Json>, limit: nat, depth: nat) returns (r: seq<Json>)
    requires forall i :: 0 <= i < |xs| ==> Lasting(xs[i], limit, depth)
    ensures r == BoundItems(xs, limit, depth).0
    ensures var again := BoundItems(r, limit, depth);
            again.0 == r && (again.1 ==> BoundItems(xs, limit, depth).1)
    decreases Room(depth), 2, |xs|
  {
    hide Bound, Lasting;
    if xs == [] { r := []; return; }
    var front := BoundItemsFixed(xs[..|xs| - 1], limit, depth);
    BoundFixed(xs[|xs| - 1], limit, depth);
    r := BoundItems(xs, limit, depth).0;
    assert r[..|r| - 1] == front;
  }

  /** The bounded members are ordered by key, no more than came in, and each is a fixed point. */
  lemma {:induction false} BoundMembersFixed(ms: seq<Member>, limit: nat, depth: nat)
    returns (r: seq<Member>, t: bool)
    requires forall i :: 0 <= i < |ms| ==> LastingField(ms[i], limit, depth)
    ensures (r, t) == BoundMembers(ms, limit, depth)
    ensures Sorted(r) && |r| <= |ms|
    ensures forall i :: 0 <= i < |r| ==> FieldFixed(r[i], t, limit, depth)
    decreases Room(depth), 2, |ms|
  {
    hide Bound, LastingField, Put, Sorted, Hidden, BinaryKey, MARKER, FieldFixed, Less;
    var whole := BoundMembers(ms, limit, depth);
    r, t := whole.0, whole.1;
    if ms == [] { SortedNone(); return; }
    var m := ms[|ms| - 1];
    var out, t0 := BoundMembersFixed(ms[..|ms| - 1], limit, depth);
    match BoundField(m, limit, depth)
    case None =>
      forall i | 0 <= i < |r| ensures FieldFixed(r[i], t, limit, depth) { FlagGrows(r[i], t0, t, limit, depth); }
    case Some(p) =>
      PutSorted(out, m.key, p.value);
      FieldAgain(m, p, limit, depth);
      forall i | 0 <= i < |r| ensures FieldFixed(r[i], t, limit, depth) {
        assert r[i] in r;
        if r[i] == Member(m.key, p.value) { FlagGrows(r[i], p.truncated, t, limit, depth); }
        else {
          var k :| 0 <= k < |out| && out[k] == r[i];
          FlagGrows(out[k], t0, t, limit, depth);
        }
      }
  }

  lemma SortedNone()
    ensures Sorted([])
  {
  }

  lemma FlagGrows(m: Member, t0: bool, t: bool, limit: nat, depth: nat)
    requires FieldFixed(m, t0, limit, depth) && (t0 ==> t)
    ensures FieldFixed(m, t, limit, depth)
  {
  }

  lemma FieldAgain(m: Member, p: Projected, limit: nat, depth: nat)
    requires LastingField(m, limit, depth) && BoundField(m, limit, depth) == Some(p)
    ensures FieldFixed(Member(m.key, p.value), p.truncated, limit, depth)
    decreases Room(depth), 1, 0
  {
    hide BoundMembers, BoundItems, BoundText, Lasting, Hidden, BinaryKey;
    if Lasting(m.value, limit, depth) { BoundFixed(m.value, limit, depth); }
  }

  /** Ordered members that are fixed points one by one are a fixed point together. */
  lemma {:induction false} SortedFixed(ms: seq<Member>, t: bool, limit: nat, depth: nat)
    requires Sorted(ms) && forall i :: 0 <= i < |ms| ==> FieldFixed(ms[i], t, limit, depth)
    ensures var again := BoundMembers(ms, limit, depth); again.0 == ms && (again.1 ==> t)
  {
    hide BoundField, Put, Less;
    if ms == [] {
    } else {
      var front, m := ms[..|ms| - 1], ms[|ms| - 1];
      SortedFixed(front, t, limit, depth);
      PutLast(front, m.key, m.value);
      assert FieldFixed(m, t, limit, depth);
      assert front + [m] == ms;
    }
  }

  // ----- and only then

  lemma BoundItemAt(xs: seq<Json>, limit: nat, depth: nat, i: nat)
    requires i < |xs|
    ensures BoundItems(xs, limit, depth).0[i] == Bound(xs[i], limit, depth).value
    decreases |xs|
  {
    hide Bound;
    if i < |xs| - 1 { BoundItemAt(xs[..|xs| - 1], limit, depth, i); }
  }

  /** What the bounded members hold under a key is the bounded field that was there. */
  lemma {:induction false} BoundMembersGet(ms: seq<Member>, limit: nat, depth: nat, k: string)
    requires DistinctKeys(ms)
    ensures Sorted(BoundMembers(ms, limit, depth).0)
    ensures Get(BoundMembers(ms, limit, depth).0, k) ==
            match Get(ms, k)
            case None => None
            case Some(v) => match BoundField(Member(k, v), limit, depth) case None => None case Some(p) => Some(p.value)
    decreases |ms|
  {
    hide BoundField, Get, Put, Sorted, Less;
    if ms == [] {
      SortedNone();
      GetNone(k);
    } else {
      var front, m := ms[..|ms| - 1], ms[|ms| - 1];
      BoundMembersGet(front, limit, depth, k);
      assert front + [m] == ms;
      GetSnoc(front, m, k);
      GetIsMember(front, m.key);
      match BoundField(m, limit, depth)
      case None => if k == m.key { NotInFront(ms); }
      case Some(p) =>
        var out := BoundMembers(front, limit, depth).0;
        PutSorted(out, m.key, p.value);
        GetPut(out, m.key, p.value, k);
    }
  }

  lemma GetNone(k: string)
    ensures Get([], k) == None
  {
  }

  lemma NotInFront(ms: seq<Member>)
    requires DistinctKeys(ms) && ms != []
    ensures Get(ms[..|ms| - 1], ms[|ms| - 1].key) == None
  {
    GetIsMember(ms[..|ms| - 1], ms[|ms| - 1].key);
  }

  /** A value whose bounded form survives a second pass is lasting. */
  lemma {:induction false} FixedLasting(value: Json, limit: nat, depth: nat)
    requires Ordered(value)
    requires Bound(Bound(value, limit, depth).value, limit, depth).value == Bound(value, limit, depth).value
    ensures Lasting(value, limit, depth)
    decreases value
  {
    hide BoundText, BoundMembers, BoundItems, Lasts, BoundField, Less, LastingField, Sorted, Get;
    if depth < MAX_DEPTH {
      match value
      case JString(s) => BoundTextFixedIff(s, limit, false);
      case JArray(xs) =>
        var n := if |xs| <= MAX_ITEMS then |xs| else MAX_ITEMS;
        var r := BoundItems(xs[..n], limit, depth + 1).0;
        assert r[..n] == r;
        forall i | 0 <= i < n ensures Lasting(xs[i], limit, depth + 1) {
          BoundItemAt(xs[..n], limit, depth + 1, i);
          BoundItemAt(r, limit, depth + 1, i);
          assert xs[i] in xs;
          FixedLasting(xs[i], limit, depth + 1);
        }
      case JObject(ms) =>
        var n := if |ms| <= MAX_FIELDS then |ms| else MAX_FIELDS;
        var r := BoundMembers(ms[..n], limit, depth + 1).0;
        MembersShrink(ms[..n], limit, depth + 1);
        assert r[..|r|] == r;
        SortedDistinct(ms);
        assert DistinctKeys(ms[..n]);
        forall i | 0 <= i < n ensures LastingField(ms[i], limit, depth + 1) {
          FieldBoundAgain(ms[..n], r, limit, depth + 1, i);
          assert ms[i] in ms;
          if BoundedPlainly(ms[i]) { FixedLasting(ms[i].value, limit, depth + 1); }
          FieldLasting(ms[i], limit, depth + 1);
        }
      case _ =>
    }
  }

  /** The field is kept and bounded like any value. */
  predicate BoundedPlainly(m: Member) {
    !Hidden(m.key) && !BinaryKey(m.key) && !OmissionNote(m.key, m.value)
  }

  lemma FieldLasting(m: Member, limit: nat, depth: nat)
    requires BoundedPlainly(m) ==> Lasting(m.value, limit, depth)
    ensures LastingField(m, limit, depth)
  {
  }

  lemma MembersShrink(ms: seq<Member>, limit: nat, depth: nat)
    ensures |BoundMembers(ms, limit, depth).0| <= |ms|
    decreases |ms|
  {
    hide BoundField;
    if ms == [] {
    } else {
      MembersShrink(ms[..|ms| - 1], limit, depth);
    }
  }

  lemma FieldBoundAgain(ms: seq<Member>, r: seq<Member>, limit: nat, depth: nat, i: nat)
    requires DistinctKeys(ms) && r == BoundMembers(ms, limit, depth).0 && BoundMembers(r, limit, depth).0 == r && i < |ms|
    ensures BoundedPlainly(ms[i]) ==>
              Bound(Bound(ms[i].value, limit, depth).value, limit, depth).value == Bound(ms[i].value, limit, depth).value
  {
    hide BoundMembers, BoundItems, BoundText, Get, Hidden, BinaryKey, Sorted, DistinctKeys, OmissionNote;
    var m := ms[i];
    GetOwn(ms, i);
    BoundMembersGet(ms, limit, depth, m.key);
    SortedDistinct(r);
    BoundMembersGet(r, limit, depth, m.key);
    if BoundedPlainly(m) {
      var v := Bound(m.value, limit, depth).value;
      assert Get(r, m.key) == Some(v);
      assert BoundField(Member(m.key, v), limit, depth).Some?;
      if OmissionNote(m.key, v) { TrueOnly(m, limit, depth); }
    }
  }

  lemma TrueOnly(m: Member, limit: nat, depth: nat)
    requires OmissionNote(m.key, Bound(m.value, limit, depth).value)
    ensures OmissionNote(m.key, m.value)
  {
    hide CanonicalKey, BoundMembers, BoundItems, BoundText;
  }

  /** Bounding is a fixed point on a value's bounded form exactly when every text that survives into it lasts. */
  lemma BoundFixedIff(value: Json, limit: nat, depth: nat)
    requires Ordered(value)
    ensures var p := Bound(value, limit, depth); var again := Bound(p.value, limit, depth);
            (again.value == p.value <==> Lasting(value, limit, depth)) && (again.value == p.value ==> Repeats(p, again))
  {
    hide Bound, Lasting;
    if Lasting(value, limit, depth) { BoundFixed(value, limit, depth); }
    if Bound(Bound(value, limit, depth).value, limit, depth).value == Bound(value, limit, depth).value {
      FixedLasting(value, limit, depth);
    }
  }

  // ----- what is kept

  predicate Scalar(value: Json) {
    value.JNull? || value.JBool? || value.JInt? || value.JFloat?
  }

  /** Null, booleans and numbers come through as they are, down to the eighth level. */
  lemma BoundScalar(value: Json, limit: nat, depth: nat)
    requires Scalar(value)
    ensures Bound(value, limit, depth) ==
            if depth < 8 then Projected(value, false)
            else Projected(JString("[nested value omitted from conversation history]"), true)
  {
  }

  /** An array keeps its first 32 items, each bounded one level down, in order. */
  lemma BoundArrayKeeps(xs: seq<Json>, limit: nat, depth: nat, i: nat)
    requires depth < 8
    ensures var r := Bound(JArray(xs), limit, depth).value;
            r.JArray? && |r.items| == (if |xs| <= 32 then |xs| else 32)
            && (i < |r.items| ==> r.items[i] == Bound(xs[i], limit, depth + 1).value)
  {
    hide Bound;
    BoundArrayIs(xs, limit, depth);
    var n := if |xs| <= MAX_ITEMS then |xs| else MAX_ITEMS;
    if i < n { BoundItemAt(xs[..n], limit, depth + 1, i); }
  }

  lemma BoundArrayIs(xs: seq<Json>, limit: nat, depth: nat)
    requires depth < 8
    ensures var n := if |xs| <= MAX_ITEMS then |xs| else MAX_ITEMS;
            Bound(JArray(xs), limit, depth).value == JArray(BoundItems(xs[..n], limit, depth + 1).0)
  {
  }

  /** What an object in key order shows under the key of its `i`-th member; members from the 65th on are dropped. */
  lemma BoundObjectKeeps(ms: seq<Member>, limit: nat, depth: nat, i: nat)
    requires depth < 8 && Sorted(ms) && i < |ms|
    ensures var r := Bound(JObject(ms), limit, depth).value; var m := ms[i];
            r.JObject?
            && Get(r.members, m.key) ==
               if i >= 64 || Hidden(m.key) then None
               else if BinaryKey(m.key) then Some(JString("[binary/base64 omitted]"))
               else if OmissionNote(m.key, m.value) then Some(JBool(true))
               else Some(Bound(m.value, limit, depth + 1).value)
  {
    hide Bound, BoundMembers, Get, Sorted, Hidden, BinaryKey, MARKER;
    BoundObjectIs(ms, limit, depth);
    var n := if |ms| <= MAX_FIELDS then |ms| else MAX_FIELDS;
    var front, m := ms[..n], ms[i];
    FrontSorted(ms, n);
    SortedDistinct(front);
    BoundMembersGet(front, limit, depth + 1, m.key);
    FieldIs(m, limit, depth + 1);
    if i < n {
      GetOwn(front, i);
    } else {
      FrontLacks(ms, n, i);
    }
  }

  lemma BoundObjectIs(ms: seq<Member>, limit: nat, depth: nat)
    requires depth < 8
    ensures var n := if |ms| <= MAX_FIELDS then |ms| else MAX_FIELDS;
            Bound(JObject(ms), limit, depth).value == JObject(BoundMembers(ms[..n], limit, depth + 1).0)
  {
  }

  lemma FrontSorted(ms: seq<Member>, n: nat)
    requires Sorted(ms) && n <= |ms|
    ensures Sorted(ms[..n])
  {
    hide Less;
  }

  lemma FrontLacks(ms: seq<Member>, n: nat, i: nat)
    requires Sorted(ms) && n <= i < |ms|
    ensures Get(ms[..n], ms[i].key) == None
  {
    hide Less;
    SortedDistinct(ms);
    GetIsMember(ms[..n], ms[i].key);
  }

  lemma FieldIs(m: Member, limit: nat, depth: nat)
    ensures match BoundField(m, limit, depth)
            case None => Hidden(m.key)
            case Some(p) =>
              !Hidden(m.key)
              && p.value == if BinaryKey(m.key) then JString("[binary/base64 omitted]")
                            else if OmissionNote(m.key, m.value) then JBool(true)
                            else Bound(m.value, limit, depth).value
  {
    hide Hidden, BinaryKey, BoundMembers, BoundItems, BoundText;
  }

  /** A value the projection has nothing to take from. */
  ghost predicate Fits(value: Json, limit: nat, depth: nat)
    decreases value
  {
    depth < 8
    && match value
       case JString(s) => Settled(s) && |s| <= limit
       case JArray(xs) => |xs| <= 32 && forall i :: 0 <= i < |xs| ==> Fits(xs[i], limit, depth + 1)
       case JObject(ms) => |ms| <= 64 && forall i :: 0 <= i < |ms| ==> FieldFits(ms[i], limit, depth + 1)
       case _ => true
  }

  ghost predicate FieldFits(m: Member, limit: nat, depth: nat) {
    !Hidden(m.key) && !BinaryKey(m.key) && !OmissionNote(m.key, m.value) && Fits(m.value, limit, depth)
  }

  /** Nothing is reported exactly when there is nothing to take; the value then comes back as it is. */
  lemma {:induction false} BoundUnflaggedIff(value: Json, limit: nat, depth: nat)
    requires Ordered(value)
    ensures !Bound(value, limit, depth).truncated <==> Fits(value, limit, depth)
    ensures !Bound(value, limit, depth).truncated ==> Bound(value, limit, depth).value == value
    decreases Room(depth), 0, 0
  {
    hide BoundText, BoundItems, BoundMembers, Settled, Sorted, FieldFits, Less;
    if depth >= MAX_DEPTH {
    } else {
      match value
      case JString(s) => BoundTextUnflaggedIff(s, limit, false);
      case JArray(xs) =>
        if |xs| <= MAX_ITEMS {
          assert xs[..|xs|] == xs;
          ItemsUnflaggedIff(xs, limit, depth + 1);
        }
      case JObject(ms) =>
        if |ms| <= MAX_FIELDS {
          assert ms[..|ms|] == ms;
          MembersUnflaggedIff(ms, limit, depth + 1);
        }
      case _ =>
    }
  }

  lemma {:induction false} ItemsUnflaggedIff(xs: seq<Json>, limit: nat, depth: nat)
    requires forall i :: 0 <= i < |xs| ==> Ordered(xs[i])
    ensures !BoundItems(xs, limit, depth).1 <==> forall i :: 0 <= i < |xs| ==> Fits(xs[i], limit, depth)
    ensures !BoundItems(xs, limit, depth).1 ==> BoundItems(xs, limit, depth).0 == xs
    decreases Room(depth), 2, |xs|
  {
    hide Bound, Fits, Ordered;
    if xs == [] {
    } else {
      var front, x := xs[..|xs| - 1], xs[|xs| - 1];
      ItemsUnflaggedIff(front, limit, depth);
      BoundUnflaggedIff(x, limit, depth);
      assert xs == front + [x];
    }
  }

  lemma {:induction false} MembersUnflaggedIff(ms: seq<Member>, limit: nat, depth: nat)
    requires Sorted(ms) && forall i :: 0 <= i < |ms| ==> Ordered(ms[i].value)
    ensures !BoundMembers(ms, limit, depth).1 <==> forall i :: 0 <= i < |ms| ==> FieldFits(ms[i], limit, depth)
    ensures !BoundMembers(ms, limit, depth).1 ==> BoundMembers(ms, limit, depth).0 == ms
    decreases Room(depth), 2, |ms|
  {
    hide BoundField, Put, Less, FieldFits, Ordered, Sorted;
    if ms == [] {
    } else {
      var front, m := ms[..|ms| - 1], ms[|ms| - 1];
      FrontSorted(ms, |ms| - 1);
      MembersUnflaggedIff(front, limit, depth);
      FieldUnflaggedIff(m, limit, depth);
      assert ms == front + [m];
      LastAbove(ms);
      PutLast(front, m.key, m.value);
    }
  }

  lemma LastAbove(ms: seq<Member>)
    requires Sorted(ms) && ms != []
    ensures var front := ms[..|ms| - 1]; forall i :: 0 <= i < |front| ==> Less(front[i].key, ms[|ms| - 1].key)
  {
    hide Less;
  }

  lemma FieldUnflaggedIff(m: Member, limit: nat, depth: nat)
    requires Ordered(m.value)
    ensures match BoundField(m, limit, depth)
            case None => !FieldFits(m, limit, depth)
            case Some(p) => (!p.truncated <==> FieldFits(m, limit, depth)) && (!p.truncated ==> p.value == m.value)
    decreases Room(depth), 1, 0
  {
    hide Bound, Hidden, BinaryKey, OmissionNote, Fits, Ordered;
    BoundUnflaggedIff(m.value, limit, depth);
  }

  // ----- which keys

  lemma {:induction false} CanonicalKeyAppend(a: string, b: string)
    ensures CanonicalKey(a + b) == CanonicalKey(a) + CanonicalKey(b)
  {
    hide KeyChar;
    if a == [] {
      assert a + b == b;
    } else {
      var rest := a[1..];
      assert (a + b)[1..] == rest + b && (a + b)[0] == a[0];
      CanonicalKeyAppend(rest, b);
      Regrouped(KeyChar(a[0]), CanonicalKey(rest), CanonicalKey(b));
    }
  }

  lemma Regrouped(x: string, y: string, z: string)
    ensures x + (y + z) == x + y + z
  {
  }

  /** Keys are compared without regard to ASCII case and to anything but letters and digits. */
  lemma CanonicalKeyChar(c: char)
    ensures CanonicalKey([c]) == if 'A' <= c <= 'Z' then [(c as int + 32) as char]
                                 else if 'a' <= c <= 'z' || '0' <= c <= '9' then [c] else []
  {
    assert [c][1..] == [];
  }

  lemma {:induction false} CanonicalKeyPlain(k: string)
    requires forall i :: 0 <= i < |k| ==> 'a' <= k[i] <= 'z' || '0' <= k[i] <= '9'
    ensures CanonicalKey(k) == k
  {
    if k == [] {
    } else {
      CanonicalKeyPlain(k[1..]);
      assert KeyChar(k[0]) == [k[0]];
      assert [k[0]] + k[1..] == k;
    }
  }

  /** The four names of hidden reasoning, in any spelling. */
  lemma HiddenIff(key: string)
    ensures Hidden(key) <==> var c := CanonicalKey(key);
            c == "reasoning" || c == "hiddenthinking" || c == "chainofthought" || c == "internalreasoning"
  {
  }

  lemma {:induction false} ContainsIff(s: string, pat: string)
    ensures Contains(s, pat) <==> exists i :: 0 <= i <= |s| && pat <= s[i..]
  {
    if pat <= s {
      assert s[0..] == s;
    } else if s == [] {
    } else {
      ContainsIff(s[1..], pat);
      if Contains(s[1..], pat) {
        var i :| 0 <= i <= |s[1..]| && pat <= s[1..][i..];
        assert s[i + 1..] == s[1..][i..];
      }
      forall i | 0 <= i <= |s| && pat <= s[i..] ensures Contains(s, pat) {
        assert s[0..] == s;
        assert s[1..][i - 1..] == s[i..];
      }
    }
  }

  /** A field is binary when its name holds one of four words, in any spelling. */
  lemma BinaryKeyIff(key: string)
    ensures BinaryKey(key) <==> var c := CanonicalKey(key);
            Contains(c, "base64") || Contains(c, "dataurl") || Contains(c, "binarybytes") || Contains(c, "imagebytes")
    ensures OmissionNote(key, JBool(true)) <==> CanonicalKey(key) == "binaryomittedfromhistory"
  {
  }

  // ----- size of the projected view

  /** Nesting of arrays and objects. */
  ghost predicate Within(value: Json, height: nat, text: nat)
    decreases value
  {
    match value
    case JString(s) => |s| <= text
    case JArray(xs) =>
      height > 0 && |xs| <= MAX_ITEMS && forall x :: x in xs ==> Within(x, height - 1, text)
    case JObject(ms) =>
      height > 0 && |ms| <= MAX_FIELDS
      && forall i :: 0 <= i < |ms| ==> !Hidden(ms[i].key) && Within(ms[i].value, height - 1, text)
    case _ => true
  }

  /** The longest text the projection can leave: a truncated one, or the fixed notice for deep values. */
  function TextRoom(limit: nat): nat {
    if limit + |SUFFIX| >= |NESTED| then limit + |SUFFIX| else |NESTED|
  }

  /** Whatever the input, the view is at most eight levels deep, short in every list, and free of hidden reasoning. */
  lemma {:induction false} BoundWithin(value: Json, limit: nat, depth: nat)
    ensures Within(Bound(value, limit, depth).value, Room(depth), TextRoom(limit))
    decreases Room(depth), 0, 0
  {
    hide BoundText, Hidden, SUFFIX, NESTED;
    if depth < MAX_DEPTH {
      match value
      case JString(s) => BoundTextSize(s, limit, false);
      case JArray(xs) =>
        var n := if |xs| <= MAX_ITEMS then |xs| else MAX_ITEMS;
        BoundItemsWithin(xs[..n], limit, depth + 1);
      case JObject(ms) =>
        var n := if |ms| <= MAX_FIELDS then |ms| else MAX_FIELDS;
        BoundMembersWithin(ms[..n], limit, depth + 1);
      case _ =>
    }
  }

  lemma {:induction false} BoundItemsWithin(xs: seq<Json>, limit: nat, depth: nat)
    ensures forall x :: x in BoundItems(xs, limit, depth).0 ==> Within(x, Room(depth), TextRoom(limit))
    decreases Room(depth), 2, |xs|
  {
    hide TextRoom, BoundText;
    if xs == [] {
    } else {
      BoundItemsWithin(xs[..|xs| - 1], limit, depth);
      BoundWithin(xs[|xs| - 1], limit, depth);
    }
  }

  lemma {:induction false} BoundMembersWithin(ms: seq<Member>, limit: nat, depth: nat)
    ensures var r := BoundMembers(ms, limit, depth).0;
            |r| <= |ms|
            && forall i :: 0 <= i < |r| ==> !Hidden(r[i].key) && Within(r[i].value, Room(depth), TextRoom(limit))
    decreases Room(depth), 2, |ms|
  {
    hide TextRoom, BoundText, Hidden, BinaryKey, Put, MARKER;
    if ms == [] {
    } else {
      var m := ms[|ms| - 1];
      BoundMembersWithin(ms[..|ms| - 1], limit, depth);
      var out := BoundMembers(ms[..|ms| - 1], limit, depth).0;
      BoundWithin(m.value, limit, depth);
      FixedTextsWithin(m.value, limit, depth);
      match BoundField(m, limit, depth)
      case None => assert BoundMembers(ms, limit, depth).0 == out;
      case Some(p) =>
        var r := Put(out, m.key, p.value);
        forall i | 0 <= i < |r|
          ensures !Hidden(r[i].key) && Within(r[i].value, Room(depth), TextRoom(limit))
        {
          assert r[i] in r;
          if r[i] != Member(m.key, p.value) {
            var k :| 0 <= k < |out| && out[k] == r[i];
            assert Within(out[k].value, Room(depth), TextRoom(limit));
          }
        }
    }
  }

  lemma FixedTextsWithin(value: Json, limit: nat, depth: nat)
    ensures Within(JString(MARKER), Room(depth), TextRoom(limit))
    ensures value == JBool(true) ==> Within(value, Room(depth), TextRoom(limit))
  {
    MarkerFacts();
    SuffixFacts();
    EarlierFacts();
  }
}
