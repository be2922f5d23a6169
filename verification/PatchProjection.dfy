/** The durable view of an apply_patch call: content and edits become sizes, digests and line counts. */
module PatchProjection {
  import opened Prelude
  import opened Text
  import opened Json
  import opened Redaction
  import opened TraceProjection
  import opened ToolProjection

  const DIGEST_PREFIX := "file-change-sha256-v1:"

  const PATCH: seq<Field> := [
    Field("action", TITLE), Field("operation", GENERIC), Field("filePath", PATH), Field("transactionId", GENERIC),
    Field("expectedDraftRevision", GENERIC), Field("index", GENERIC), Field("strategy", TITLE),
    Field("summary", SUMMARY), Field("contentBytes", GENERIC), Field("editCount", GENERIC),
    Field("contentDigest", GENERIC), Field("editsDigest", GENERIC)]

  /** The parts of the host outside this model: the wire schema and the digests. */
  datatype Host = Host(wireValid: Json -> bool, contentDigest: string -> string, editsDigest: seq<Json> -> Option<string>)

  const NO_REQUEST := JObject([Member("request", JObject([]))])

  predicate DigestText(d: string) {
    |d| == |DIGEST_PREFIX| + 64 && d[..|DIGEST_PREFIX|] == DIGEST_PREFIX
    && forall i :: |DIGEST_PREFIX| <= i < |d| ==> '0' <= d[i] <= '9' || 'a' <= d[i] <= 'f'
  }

  /** Digests have their published form, and the wire schema refuses an empty request. */
  ghost predicate SoundHost(h: Host) {
    !h.wireValid(NO_REQUEST)
    && (forall s :: DigestText(h.contentDigest(s)))
    && forall xs :: h.editsDigest(xs).Some? ==> DigestText(h.editsDigest(xs).value)
  }

  function Saturate(n: nat): (r: nat)
    ensures n <= 18446744073709551615 ==> r == n
    ensures n > 18446744073709551615 ==> r == 18446744073709551615
  {
    if n > U64_MAX then U64_MAX else n
  }

  function AsU64(v: Option<Json>): Option<nat> {
    match v case Some(JInt(i)) => (if 0 <= i <= U64_MAX then Some(i) else None) case _ => None
  }

  function OrZero(n: Option<nat>): nat {
    match n case Some(k) => k case None => 0
  }

  /** `str::lines().count()`. */
  function Newlines(s: string): nat {
    if s == [] then 0 else (if s[0] == '\n' then 1 else 0) + Newlines(s[1..])
  }

  function LineCount(s: string): nat {
    if s == [] then 0 else Newlines(s) + (if s[|s| - 1] == '\n' then 0 else 1)
  }

  function Lines(ms: seq<Member>, k: string): nat {
    match Str(ms, k) case Some(s) => LineCount(s) case None => 0
  }

  /** Lines added and deleted by structured edits. */
  function EditStats(edits: seq<Json>): (r: (nat, nat))
    ensures r.0 <= U64_MAX && r.1 <= U64_MAX
  {
    if edits == [] then (0, 0)
    else
      var (a, d) := EditStats(edits[..|edits| - 1]);
      var (more, less) := EditLines(edits[|edits| - 1]);
      (Saturate(a + more), Saturate(d + less))
  }

  /** Lines added and deleted by one edit; what is not an object counts for nothing. */
  function EditLines(edit: Json): (nat, nat) {
    match edit
    case JObject(e) =>
      if Str(e, "kind") == Some("replace") then (Lines(e, "newText"), Lines(e, "oldText")) else (Lines(e, "text"), 0)
    case _ => (0, 0)
  }

  predicate Allowed(k: string) {
    k in ["validatedRequest", "action", "operation", "filePath", "strategy", "transactionId", "index",
          "expectedDraftRevision", "contentBytes", "contentDigest", "editCount", "editsDigest",
          "changeRepresentation", "additions", "deletions", "summary"]
  }

  predicate HostValidated(input: seq<Member>) {
    Flag(input, "validatedRequest") && forall m :: m in input ==> Allowed(m.key)
  }

  function Request(value: Json): Option<seq<Member>> {
    match value
    case JObject(ms) => (match Get(ms, "request") case Some(JObject(r)) => Some(r) case _ => None)
    case _ => None
  }

  /** How the change is represented, and its line counts. */
  datatype Change = Change(kind: string, additions: nat, deletions: nat)

  function ChangeOf(input: seq<Member>): Change {
    match (Str(input, "content"), Get(input, "edits"))
    case (Some(s), _) => Change("content", Saturate(LineCount(s)), 0)
    case (_, Some(JArray(es))) => Change("edits", EditStats(es).0, EditStats(es).1)
    case _ =>
      match Str(input, "changeRepresentation")
      case Some(r) => Change(r, OrZero(AsU64(Get(input, "additions"))), OrZero(AsU64(Get(input, "deletions"))))
      case None => Change(if AsU64(Get(input, "editCount")).Some? then "edits" else "metadata_only", 0, 0)
  }

  /** The sizes and digests that stand for the content or the edits. */
  function Stand(h: Host, input: seq<Member>, ms: seq<Member>): seq<Member> {
    match (Str(input, "content"), Get(input, "edits"))
    case (Some(s), _) =>
      Put(Put(ms, "contentBytes", JInt(Saturate(Utf8Len(s)))), "contentDigest", JString(h.contentDigest(s)))
    case (_, Some(JArray(es))) =>
      var n := Put(ms, "editCount", JInt(Saturate(|es|)));
      (match h.editsDigest(es) case Some(d) => Put(n, "editsDigest", JString(d)) case None => n)
    case _ => ms
  }

  const START := Built([Member("validatedRequest", JBool(true))], false)

  function RequestView(h: Host, input: seq<Member>): seq<Member> {
    var c := Stand(h, input, CopyAll(input, PATCH, START).members);
    var change := ChangeOf(input);
    Put(Put(Put(c, "changeRepresentation", JString(change.kind)), "additions", JInt(change.additions)),
        "deletions", JInt(change.deletions))
  }

  function ApplyPatchCall(h: Host, value: Json): Projected {
    match Request(value)
    case None => Projected(NO_REQUEST, true)
    case Some(input) =>
      if !h.wireValid(value) && !HostValidated(input) then Projected(NO_REQUEST, true)
      else
        var lost := CopyAll(input, PATCH, START).truncated || ChangeOf(input).kind != "metadata_only";
        Projected(JObject([Member("request", JObject(RequestView(h, input)))]), lost)
  }

  // ----- digests are settled text

  lemma DigestKept(d: string)
    requires DigestText(d)
    ensures BoundText(d, GENERIC, false) == (d, false)
  {
    hide Redact, StandaloneBase64;
    DigestSettled(d);
    RedactFixedIff(d);
  }

  lemma PrefixFacts()
    ensures |DIGEST_PREFIX| == 22 && DIGEST_PREFIX[21] == ':' && DIGEST_PREFIX[20] == '1'
    ensures forall i :: 0 <= i < 21 ==> DIGEST_PREFIX[i] != ':'
  {
  }

  lemma DigestSettled(d: string)
    requires DigestText(d)
    ensures Settled(d)
  {
    hide DIGEST_PREFIX, StandaloneBase64, HeaderReach;
    PrefixFacts();
    forall i | 0 <= i < 22 ensures d[i] == DIGEST_PREFIX[i] { assert d[..22][i] == d[i]; }
    NotStandalone(d, d[21]);
  }

  // ----- the projected request, key by key

  predicate StandKey(k: string) {
    k in ["contentBytes", "contentDigest", "editCount", "editsDigest"]
  }

  /** A value that bounding at the generic limit leaves alone. */
  predicate Plain(v: Json) {
    Bound(v, GENERIC, 0).value == v
  }

  /** The field is overwritten by a size or digest of the content or edits. */
  predicate Replaced(h: Host, input: seq<Member>, k: string) {
    match (Str(input, "content"), Get(input, "edits"))
    case (Some(_), _) => k == "contentBytes" || k == "contentDigest"
    case (_, Some(JArray(es))) => k == "editCount" || (k == "editsDigest" && h.editsDigest(es).Some?)
    case _ => false
  }

  lemma StandGet(h: Host, input: seq<Member>, ms: seq<Member>, k: string)
    requires SoundHost(h) && Sorted(ms)
    ensures Sorted(Stand(h, input, ms))
    ensures var r := Get(Stand(h, input, ms), k);
            if Replaced(h, input, k) then StandKey(k) && r.Some? && Plain(r.value) else r == Get(ms, k)
  {
    hide Get, Put, Utf8Len, DigestText, BoundText, Sorted;
    match (Str(input, "content"), Get(input, "edits"))
    case (Some(s), _) =>
      var b, d := JInt(Saturate(Utf8Len(s))), h.contentDigest(s);
      var m := Put(ms, "contentBytes", b);
      DigestKept(d);
      PutSorted(ms, "contentBytes", b);
      PutSorted(m, "contentDigest", JString(d));
      GetPut(ms, "contentBytes", b, k);
      GetPut(m, "contentDigest", JString(d), k);
    case (_, Some(JArray(es))) =>
      var n := JInt(Saturate(|es|));
      var m := Put(ms, "editCount", n);
      PutSorted(ms, "editCount", n);
      GetPut(ms, "editCount", n, k);
      if h.editsDigest(es).Some? {
        var d := h.editsDigest(es).value;
        DigestKept(d);
        PutSorted(m, "editsDigest", JString(d));
        GetPut(m, "editsDigest", JString(d), k);
      }
    case _ =>
  }

  lemma ViewGet(h: Host, input: seq<Member>, k: string)
    requires SoundHost(h)
    ensures var c := Stand(h, input, CopyAll(input, PATCH, START).members); var change := ChangeOf(input);
            Get(RequestView(h, input), k) ==
            if k == "changeRepresentation" then Some(JString(change.kind))
            else if k == "additions" then Some(JInt(change.additions))
            else if k == "deletions" then Some(JInt(change.deletions))
            else Get(c, k)
    ensures Sorted(RequestView(h, input))
  {
    hide Get, Put, CopyAll, Stand, ChangeOf, PATCH, Sorted;
    StartFacts();
    CopyAllShape(input, PATCH, START);
    StandGet(h, input, CopyAll(input, PATCH, START).members, k);
    var c := Stand(h, input, CopyAll(input, PATCH, START).members);
    var change := ChangeOf(input);
    var m := Put(c, "changeRepresentation", JString(change.kind));
    var n := Put(m, "additions", JInt(change.additions));
    PutSorted(c, "changeRepresentation", JString(change.kind));
    PutSorted(m, "additions", JInt(change.additions));
    PutSorted(n, "deletions", JInt(change.deletions));
    GetPut(c, "changeRepresentation", JString(change.kind), k);
    GetPut(m, "additions", JInt(change.additions), k);
    GetPut(n, "deletions", JInt(change.deletions), k);
  }

  lemma StartFacts()
    ensures Sorted(START.members)
    ensures forall k :: Get(START.members, k) == if k == "validatedRequest" then Some(JBool(true)) else None
  {
  }

  lemma PatchTable()
    ensures Distinct(PATCH) && Absent(PATCH, "validatedRequest") && Absent(PATCH, "content") && Absent(PATCH, "edits")
    ensures Absent(PATCH, "changeRepresentation") && Absent(PATCH, "additions") && Absent(PATCH, "deletions")
    ensures forall i :: 0 <= i < |PATCH| ==> Allowed(PATCH[i].key) && (StandKey(PATCH[i].key) ==> PATCH[i].limit == GENERIC)
  {
    hide PATCH, Distinct, Absent, Allowed, StandKey;
    PatchDistinct();
    PatchKeys();
    PatchAbsent("validatedRequest");
    PatchAbsent("content");
    PatchAbsent("edits");
    PatchAbsent("changeRepresentation");
    PatchAbsent("additions");
    PatchAbsent("deletions");
  }

  lemma PatchAbsent(k: string)
    requires k in ["validatedRequest", "content", "edits", "changeRepresentation", "additions", "deletions"]
    ensures Absent(PATCH, k)
  {
  }

  lemma PatchDistinct()
    ensures Distinct(PATCH)
  {
  }

  lemma PatchKeys()
    ensures forall i :: 0 <= i < |PATCH| ==> Allowed(PATCH[i].key) && (StandKey(PATCH[i].key) ==> PATCH[i].limit == GENERIC)
  {
  }

  /** Keys the second pass must not find in a projected request. */
  lemma PayloadGone(h: Host, input: seq<Member>, k: string)
    requires SoundHost(h) && !Allowed(k)
    ensures Get(RequestView(h, input), k) == None
  {
    hide Get, CopyAll, Stand, ChangeOf, PATCH, RequestView, Plain, DigestText;
    PatchTable();
    StartFacts();
    ViewGet(h, input, k);
    CopyAllShape(input, PATCH, START);
    StandGet(h, input, CopyAll(input, PATCH, START).members, k);
    CopyAllAbsent(input, PATCH, START, k);
  }

  lemma RequestValidated(h: Host, input: seq<Member>)
    requires SoundHost(h)
    ensures HostValidated(RequestView(h, input))
  {
    hide Get, CopyAll, Stand, ChangeOf, PATCH, RequestView, Plain, DigestText, SoundHost, Allowed;
    var out := RequestView(h, input);
    PatchTable();
    StartFacts();
    NotSpecial();
    ViewGet(h, input, "validatedRequest");
    CopyAllShape(input, PATCH, START);
    StandGet(h, input, CopyAll(input, PATCH, START).members, "validatedRequest");
    CopyAllAbsent(input, PATCH, START, "validatedRequest");
    forall m | m in out ensures Allowed(m.key) {
      if !Allowed(m.key) {
        PayloadGone(h, input, m.key);
        GetIsMember(out, m.key);
      }
    }
  }

  lemma NotSpecial()
    ensures !StandKey("validatedRequest")
  {
  }

  /** The second pass reads the change straight from the first one's fields. */
  lemma ChangeAgain(h: Host, input: seq<Member>)
    requires SoundHost(h)
    ensures var out := RequestView(h, input);
            ChangeOf(out) == ChangeOf(input) && forall ms :: Stand(h, out, ms) == ms
  {
    hide Get, CopyAll, RequestView, EditStats, LineCount, DigestText;
    PayloadGone(h, input, "content");
    PayloadGone(h, input, "edits");
    ViewGet(h, input, "changeRepresentation");
    ViewGet(h, input, "additions");
    ViewGet(h, input, "deletions");
    ChangeFits(input);
  }

  lemma ChangeFits(input: seq<Member>)
    ensures ChangeOf(input).additions <= U64_MAX && ChangeOf(input).deletions <= U64_MAX
  {
    hide Get, EditStats, LineCount;
  }

  /** Every copied field of the request that is not replaced is lasting. */
  predicate RequestLasting(h: Host, input: seq<Member>) {
    forall i :: 0 <= i < |PATCH| && !Replaced(h, input, PATCH[i].key) ==> LastingAt(input, PATCH[i])
  }

  lemma RequestMirrors(h: Host, input: seq<Member>, i: nat)
    requires SoundHost(h) && RequestLasting(h, input) && i < |PATCH|
    ensures var out := RequestView(h, input);
            Get(out, PATCH[i].key) == BoundAt(out, PATCH[i])
            && (!Replaced(h, input, PATCH[i].key) && LossyAt(out, PATCH[i]) ==> LossyAt(input, PATCH[i]))
  {
    hide Get, CopyAll, Stand, ChangeOf, PATCH, RequestView, DigestText, SoundHost, Lasting, Bound, Sorted, Distinct, Replaced;
    var k := PATCH[i].key;
    PatchTable();
    StartFacts();
    ViewGet(h, input, k);
    CopyAllShape(input, PATCH, START);
    StandGet(h, input, CopyAll(input, PATCH, START).members, k);
    CopyAllPresent(input, PATCH, START, i);
    if Get(input, k).Some? && !Replaced(h, input, k) {
      assert LastingAt(input, PATCH[i]);
      BoundFixed(Get(input, k).value, PATCH[i].limit, 0);
    }
  }

  lemma RequestFixed(h: Host, input: seq<Member>)
    requires SoundHost(h) && RequestLasting(h, input)
    ensures var out := RequestView(h, input); RequestView(h, out) == out
  {
    hide Get, CopyAll, ChangeOf, Stand, PATCH, RequestView, DigestText, SoundHost, RequestLasting, Bound, Sorted, Distinct;
    var out := RequestView(h, input);
    var again := RequestView(h, out);
    ChangeAgain(h, input);
    forall k ensures Get(again, k) == Get(out, k) { RequestKeyFixed(h, input, k); }
    ViewGet(h, input, "action");
    ViewGet(h, out, "action");
    Extensional(again, out);
  }

  lemma RequestKeyFixed(h: Host, input: seq<Member>, k: string)
    requires SoundHost(h) && RequestLasting(h, input)
    ensures var out := RequestView(h, input); Get(RequestView(h, out), k) == Get(out, k)
  {
    hide Get, CopyAll, ChangeOf, Stand, PATCH, RequestView, DigestText, SoundHost, RequestLasting, Bound, Sorted, Distinct;
    var out := RequestView(h, input);
    ChangeAgain(h, input);
    ViewGet(h, input, k);
    ViewGet(h, out, k);
    PatchTable();
    StartFacts();
    NotSpecial();
    if Absent(PATCH, k) {
      CopyAllAbsent(input, PATCH, START, k);
      CopyAllAbsent(out, PATCH, START, k);
      StandAbsent(h, input, k);
    } else {
      var i :| 0 <= i < |PATCH| && PATCH[i].key == k;
      CopyAllPresent(out, PATCH, START, i);
      RequestMirrors(h, input, i);
    }
  }

  lemma StandAbsent(h: Host, input: seq<Member>, k: string)
    requires SoundHost(h) && Absent(PATCH, k)
    ensures var c := CopyAll(input, PATCH, START).members; Get(Stand(h, input, c), k) == Get(c, k)
  {
    hide Get, CopyAll, Stand, DigestText, SoundHost, Sorted;
    StartFacts();
    CopyAllShape(input, PATCH, START);
    StandGet(h, input, CopyAll(input, PATCH, START).members, k);
    assert PATCH[8].key == "contentBytes" && PATCH[9].key == "editCount" && PATCH[10].key == "contentDigest"
           && PATCH[11].key == "editsDigest";
  }

  /** Copying a projected request again loses something only where the first projection reported a loss. */
  lemma RequestLossAgain(h: Host, input: seq<Member>)
    requires SoundHost(h) && RequestLasting(h, input) && ChangeOf(input).kind == "metadata_only"
    ensures CopyAll(RequestView(h, input), PATCH, START).truncated ==> CopyAll(input, PATCH, START).truncated
  {
    hide Get, CopyAll, PATCH, RequestView, DigestText, SoundHost, RequestLasting, LossyAt, EditStats, LineCount;
    var out := RequestView(h, input);
    StartFacts();
    CopyAllShape(input, PATCH, START);
    CopyAllShape(out, PATCH, START);
    if Lossy(out, PATCH) {
      var i :| 0 <= i < |PATCH| && LossyAt(out, PATCH[i]);
      RequestMirrors(h, input, i);
      assert LossyAt(input, PATCH[i]);
    }
  }

  /** A request whose view is its own view was made of lasting fields. */
  lemma RequestFixedOnly(h: Host, input: seq<Member>)
    requires SoundHost(h) && OrderedMembers(input)
    requires var out := RequestView(h, input); RequestView(h, out) == out
    ensures RequestLasting(h, input)
  {
    hide Get, CopyAll, Stand, PATCH, RequestView, DigestText, SoundHost, Lasting, Bound, Sorted, Distinct, Replaced,
      ChangeOf, Ordered;
    var out := RequestView(h, input);
    PatchTable();
    StartFacts();
    ChangeAgain(h, input);
    forall i | 0 <= i < |PATCH| && !Replaced(h, input, PATCH[i].key) ensures LastingAt(input, PATCH[i]) {
      var k := PATCH[i].key;
      ViewGet(h, input, k);
      ViewGet(h, out, k);
      CopyAllShape(input, PATCH, START);
      StandGet(h, input, CopyAll(input, PATCH, START).members, k);
      CopyAllPresent(input, PATCH, START, i);
      CopyAllPresent(out, PATCH, START, i);
      if Get(input, k).Some? { FixedLasting(Get(input, k).value, PATCH[i].limit, 0); }
    }
  }

  /** The call is refused, or what survives of its request is lasting. */
  predicate ApplyPatchLasting(h: Host, value: Json) {
    match Request(value)
    case None => true
    case Some(input) => (!h.wireValid(value) && !HostValidated(input)) || RequestLasting(h, input)
  }

  /** The durable view of an apply_patch call projects to itself exactly when what survives of it is lasting. */
  lemma ApplyPatchCallFixedIff(h: Host, value: Json)
    requires SoundHost(h) && Ordered(value)
    ensures var p := ApplyPatchCall(h, value); var again := ApplyPatchCall(h, p.value);
            (again.value == p.value <==> ApplyPatchLasting(h, value)) && (again.value == p.value ==> Repeats(p, again))
  {
    hide RequestView, SoundHost, HostValidated, DigestText, CopyAll, ChangeOf, Ordered, RequestLasting, OrderedMembers;
    assert !h.wireValid(NO_REQUEST) by { SoundEmpty(h); }
    EmptyRequest();
    match Request(value)
    case None =>
    case Some(input) =>
      RequestOrdered(value);
      RequestValidated(h, input);
      if RequestLasting(h, input) { RequestAgain(h, input); }
      if RequestView(h, RequestView(h, input)) == RequestView(h, input) { RequestFixedOnly(h, input); }
  }

  /** Where every text settles in one pass, the view of any apply_patch call projects to itself. */
  lemma ApplyPatchCallFixed(h: Host, value: Json)
    requires SoundHost(h) && StableTexts(value)
    ensures ApplyPatchLasting(h, value)
    ensures var p := ApplyPatchCall(h, value); Repeats(p, ApplyPatchCall(h, p.value))
  {
    hide RequestView, SoundHost, HostValidated, DigestText, CopyAll, ChangeOf, LastingAt, PATCH, Replaced;
    assert !h.wireValid(NO_REQUEST) by { SoundEmpty(h); }
    EmptyRequest();
    match Request(value)
    case None =>
    case Some(input) =>
      RequestStable(value);
      StableFields(input, PATCH);
      RequestValidated(h, input);
      RequestAgain(h, input);
  }

  lemma RequestAgain(h: Host, input: seq<Member>)
    requires SoundHost(h) && RequestLasting(h, input)
    ensures var out := RequestView(h, input);
            RequestView(h, out) == out && ChangeOf(out) == ChangeOf(input)
            && (CopyAll(out, PATCH, START).truncated && ChangeOf(input).kind == "metadata_only" ==>
                  CopyAll(input, PATCH, START).truncated)
  {
    hide SoundHost, RequestLasting, RequestView, CopyAll, ChangeOf, PATCH;
    RequestFixed(h, input);
    ChangeAgain(h, input);
    if ChangeOf(input).kind == "metadata_only" { RequestLossAgain(h, input); }
  }

  // ----- line counts

  lemma {:induction false} NewlinesAppend(a: string, b: string)
    ensures Newlines(a + b) == Newlines(a) + Newlines(b)
  {
    if a == [] {
      assert a + b == b;
    } else {
      assert (a + b)[1..] == a[1..] + b;
      NewlinesAppend(a[1..], b);
    }
  }

  lemma {:induction false} NoNewlines(s: string)
    requires '\n' !in s
    ensures Newlines(s) == 0
  {
    if s == [] {
    } else {
      assert s[0] in s;
      NoNewlines(s[1..]);
    }
  }

  /** The empty text has no line, a text without line breaks has one, and lines add up at a line break. */
  lemma LineCountLaws(s: string, t: string)
    ensures LineCount([]) == 0
    ensures s != [] && '\n' !in s ==> LineCount(s) == 1 && LineCount(s + "\n") == 1
    ensures LineCount(s + "\n" + t) == LineCount(s + "\n") + LineCount(t)
  {
    hide Newlines;
    BreakCounts();
    NewlinesAppend(s, "\n");
    NewlinesAppend(s + "\n", t);
    if '\n' !in s { NoNewlines(s); }
    if t == [] { assert s + "\n" + t == s + "\n"; }
  }

  lemma BreakCounts()
    ensures Newlines("\n") == 1 && Newlines([]) == 0
  {
    assert "\n"[1..] == [];
  }

  /** A replacement adds the lines of its new text and deletes those of its old one; any other edit only adds. */
  lemma SingleEdit(e: seq<Member>)
    ensures Get(e, "kind") == Some(JString("replace")) ==>
              EditStats([JObject(e)]) == (Saturate(Lines(e, "newText")), Saturate(Lines(e, "oldText")))
    ensures Get(e, "kind") != Some(JString("replace")) ==> EditStats([JObject(e)]) == (Saturate(Lines(e, "text")), 0)
  {
    hide Get, Lines;
    assert [JObject(e)][..0] == [];
    assert EditStats([JObject(e)]) == (Saturate(EditLines(JObject(e)).0), Saturate(EditLines(JObject(e)).1));
  }

  /** A text counts its lines; anything else under the key counts for nothing. */
  lemma LinesIs(e: seq<Member>, k: string)
    ensures forall t :: Get(e, k) == Some(JString(t)) ==> Lines(e, k) == LineCount(t)
    ensures (forall t :: Get(e, k) != Some(JString(t))) ==> Lines(e, k) == 0
  {
    hide Get, LineCount;
  }

  /** One replacement, in full: two lines for one. */
  lemma ReplacementCounts(oldText: string, newText: string)
    requires oldText != [] && '\n' !in oldText && |newText| > 0 && '\n' !in newText
    ensures var e := [Member("kind", JString("replace")), Member("newText", JString(newText + "\n" + newText)),
                      Member("oldText", JString(oldText))];
            EditStats([JObject(e)]) == (2, 1)
  {
    hide Newlines, LineCount, Get, Sorted, EditStats;
    var e := [Member("kind", JString("replace")), Member("newText", JString(newText + "\n" + newText)),
              Member("oldText", JString(oldText))];
    assert Sorted(e) by { ReplacementSorted(e); }
    GetMember(e, 0);
    GetMember(e, 1);
    GetMember(e, 2);
    SingleEdit(e);
    LineCountLaws(newText, newText);
    LineCountLaws(oldText, []);
  }

  lemma ReplacementSorted(e: seq<Member>)
    requires |e| == 3 && e[0].key == "kind" && e[1].key == "newText" && e[2].key == "oldText"
    ensures Sorted(e)
  {
    assert Less("kind", "newText") && Less("newText", "oldText");
    LessTransitive("kind", "newText", "oldText");
  }

  /** The counts of two lists of edits are the capped sums of their counts. */
  lemma {:induction false} EditStatsAppend(a: seq<Json>, b: seq<Json>)
    ensures EditStats(a + b) ==
            (Saturate(EditStats(a).0 + EditStats(b).0), Saturate(EditStats(a).1 + EditStats(b).1))
    decreases |b|
  {
    hide EditLines, EditStats;
    if b == [] {
      NoEdits();
      EditsFit(a);
      assert a + b == a;
    } else {
      var front, e := b[..|b| - 1], b[|b| - 1];
      EditStatsAppend(a, front);
      assert a + b == a + front + [e] && b == front + [e];
      EditStatsSnoc(a + front, e);
      EditStatsSnoc(front, e);
    }
  }

  lemma NoEdits()
    ensures EditStats([]) == (0, 0)
  {
  }

  lemma EditsFit(es: seq<Json>)
    ensures EditStats(es).0 <= U64_MAX && EditStats(es).1 <= U64_MAX
  {
  }

  lemma EditStatsSnoc(es: seq<Json>, e: Json)
    ensures EditStats(es + [e]) ==
            (Saturate(EditStats(es).0 + EditLines(e).0), Saturate(EditStats(es).1 + EditLines(e).1))
  {
    hide EditLines;
    assert (es + [e])[..|es|] == es;
  }

  // ----- what a reader of history finds in a call

  const PATCH_SHOWN: seq<Group> := [
    Group(["action", "strategy"], 512),
    Group(["filePath"], 2048),
    Group(["summary"], 4000),
    Group(["operation", "transactionId", "expectedDraftRevision", "index", "contentBytes", "editCount", "contentDigest",
           "editsDigest"], 2000)]

  lemma PatchCovers()
    ensures Covers(PATCH, PATCH_SHOWN)
  {
    hide PATCH, PATCH_SHOWN, GroupIn, Listed;
    PatchListed();
    PatchGroup(0);
    PatchGroup(1);
    PatchGroup(2);
    PatchGroup(3);
    CoversByGroup(PATCH, PATCH_SHOWN);
  }

  lemma PatchListed()
    ensures |PATCH_SHOWN| == 4 && forall i :: 0 <= i < |PATCH| ==> Listed(PATCH_SHOWN, PATCH[i].key, PATCH[i].limit)
  {
    forall i | 0 <= i < |PATCH| ensures Listed(PATCH_SHOWN, PATCH[i].key, PATCH[i].limit) {
      if PATCH[i].limit == 512 { assert PATCH_SHOWN[0].limit == 512 && PATCH[i].key in PATCH_SHOWN[0].keys; }
      else if PATCH[i].limit == 2048 { assert PATCH_SHOWN[1].limit == 2048 && PATCH[i].key in PATCH_SHOWN[1].keys; }
      else if PATCH[i].limit == 4000 { assert PATCH_SHOWN[2].limit == 4000 && PATCH[i].key in PATCH_SHOWN[2].keys; }
      else { assert PATCH_SHOWN[3].limit == 2000 && PATCH[i].key in PATCH_SHOWN[3].keys; }
    }
  }

  lemma PatchGroup(j: nat)
    requires j < |PATCH_SHOWN|
    ensures GroupIn(PATCH, PATCH_SHOWN[j])
  {
    if j == 0 { } else if j == 1 { } else if j == 2 { } else { }
  }

  /** The content is shown by its size, its digest and its lines. */
  ghost predicate ContentShown(h: Host, input: seq<Member>, out: seq<Member>) {
    forall s :: Get(input, "content") == Some(JString(s)) ==>
      Get(out, "contentBytes") == Some(JInt(Saturate(Utf8Len(s))))
      && Get(out, "contentDigest") == Some(JString(h.contentDigest(s)))
      && Get(out, "changeRepresentation") == Some(JString("content"))
      && Get(out, "additions") == Some(JInt(Saturate(LineCount(s)))) && Get(out, "deletions") == Some(JInt(0))
  }

  /** Edits are shown by their number, their digest and their line counts. */
  ghost predicate EditsShown(h: Host, input: seq<Member>, out: seq<Member>) {
    forall es :: Str(input, "content") == None && Get(input, "edits") == Some(JArray(es)) ==>
      Get(out, "editCount") == Some(JInt(Saturate(|es|)))
      && (h.editsDigest(es).Some? ==> Get(out, "editsDigest") == Some(JString(h.editsDigest(es).value)))
      && Get(out, "changeRepresentation") == Some(JString("edits"))
      && Get(out, "additions") == Some(JInt(EditStats(es).0)) && Get(out, "deletions") == Some(JInt(EditStats(es).1))
  }

  /** The call carries neither content nor edits. */
  predicate NoPayload(input: seq<Member>) {
    Str(input, "content") == None && !(match Get(input, "edits") case Some(JArray(_)) => true case _ => false)
  }

  /** The number under a key, if it is an unsigned 64-bit integer, and zero otherwise. */
  predicate CountIs(input: seq<Member>, k: string, n: int) {
    match Get(input, k)
    case Some(JInt(i)) => n == if 0 <= i <= 18446744073709551615 then i else 0
    case _ => n == 0
  }

  predicate IsCount(v: Option<Json>) {
    match v case Some(JInt(i)) => 0 <= i <= 18446744073709551615 case _ => false
  }

  /** Without content or edits the earlier counts are kept, or the change is only metadata. */
  ghost predicate CountsShown(input: seq<Member>, out: seq<Member>) {
    NoPayload(input) ==>
      match Str(input, "changeRepresentation")
      case Some(r) =>
        Get(out, "changeRepresentation") == Some(JString(r))
        && (exists n :: CountIs(input, "additions", n) && Get(out, "additions") == Some(JInt(n)))
        && exists n :: CountIs(input, "deletions", n) && Get(out, "deletions") == Some(JInt(n))
      case None =>
        Get(out, "changeRepresentation") == Some(JString(if IsCount(Get(input, "editCount")) then "edits" else "metadata_only"))
        && Get(out, "additions") == Some(JInt(0)) && Get(out, "deletions") == Some(JInt(0))
  }

  lemma CountsAre(input: seq<Member>, k: string)
    ensures CountIs(input, k, OrZero(AsU64(Get(input, k))))
    ensures AsU64(Get(input, k)).Some? <==> IsCount(Get(input, k))
  {
    hide Get;
  }

  lemma ChangeShown(h: Host, input: seq<Member>)
    requires SoundHost(h)
    ensures var out := RequestView(h, input);
            ContentShown(h, input, out) && EditsShown(h, input, out) && CountsShown(input, out)
  {
    hide RequestView, SoundHost, ContentShown, EditsShown, CountsShown;
    ContentIsShown(h, input);
    EditsAreShown(h, input);
    CountsAreShown(h, input);
  }

  lemma CountsGet(h: Host, input: seq<Member>)
    requires SoundHost(h)
    ensures var out, change := RequestView(h, input), ChangeOf(input);
            Get(out, "changeRepresentation") == Some(JString(change.kind))
            && Get(out, "additions") == Some(JInt(change.additions)) && Get(out, "deletions") == Some(JInt(change.deletions))
  {
    hide Get, RequestView, SoundHost, ChangeOf, Stand, CopyAll;
    ViewGet(h, input, "changeRepresentation");
    ViewGet(h, input, "additions");
    ViewGet(h, input, "deletions");
  }

  lemma ContentIsShown(h: Host, input: seq<Member>)
    requires SoundHost(h)
    ensures ContentShown(h, input, RequestView(h, input))
  {
    hide Get, CopyAll, RequestView, LineCount, Utf8Len, SoundHost, ChangeOf, Stand;
    CountsGet(h, input);
    ChangeByContent(input);
    ViewGet(h, input, "contentBytes");
    ViewGet(h, input, "contentDigest");
    StandShown(h, input, CopyAll(input, PATCH, START).members);
  }

  lemma EditsAreShown(h: Host, input: seq<Member>)
    requires SoundHost(h)
    ensures EditsShown(h, input, RequestView(h, input))
  {
    hide Get, CopyAll, RequestView, EditStats, SoundHost, ChangeOf, Stand;
    CountsGet(h, input);
    ChangeByEdits(input);
    ViewGet(h, input, "editCount");
    ViewGet(h, input, "editsDigest");
    StandShown(h, input, CopyAll(input, PATCH, START).members);
  }

  lemma CountsAreShown(h: Host, input: seq<Member>)
    requires SoundHost(h)
    ensures CountsShown(input, RequestView(h, input))
  {
    hide Get, RequestView, SoundHost, ChangeOf, NoPayload, CountIs, IsCount, AsU64, OrZero;
    CountsGet(h, input);
    ChangeByCounts(input);
    CountsAre(input, "additions");
    CountsAre(input, "deletions");
    CountsAre(input, "editCount");
  }

  lemma ChangeByContent(input: seq<Member>)
    ensures forall s :: Get(input, "content") == Some(JString(s)) ==>
              ChangeOf(input) == Change("content", Saturate(LineCount(s)), 0)
  {
    hide Get, LineCount;
  }

  lemma ChangeByEdits(input: seq<Member>)
    ensures forall es :: Str(input, "content") == None && Get(input, "edits") == Some(JArray(es)) ==>
              ChangeOf(input) == Change("edits", EditStats(es).0, EditStats(es).1)
  {
    hide Get, EditStats;
  }

  lemma ChangeByCounts(input: seq<Member>)
    ensures NoPayload(input) ==>
              ChangeOf(input) ==
              match Str(input, "changeRepresentation")
              case Some(r) => Change(r, OrZero(AsU64(Get(input, "additions"))), OrZero(AsU64(Get(input, "deletions"))))
              case None => Change(if AsU64(Get(input, "editCount")).Some? then "edits" else "metadata_only", 0, 0)
  {
    hide Get;
  }

  lemma StandShown(h: Host, input: seq<Member>, ms: seq<Member>)
    ensures var r := Stand(h, input, ms);
            (forall s :: Get(input, "content") == Some(JString(s)) ==>
               Get(r, "contentBytes") == Some(JInt(Saturate(Utf8Len(s))))
               && Get(r, "contentDigest") == Some(JString(h.contentDigest(s))))
            && (forall es :: Str(input, "content") == None && Get(input, "edits") == Some(JArray(es)) ==>
                  Get(r, "editCount") == Some(JInt(Saturate(|es|)))
                  && (h.editsDigest(es).Some? ==> Get(r, "editsDigest") == Some(JString(h.editsDigest(es).value))))
  {
    hide Get, Put, Utf8Len;
    match (Str(input, "content"), Get(input, "edits"))
    case (Some(s), _) =>
      var b, d := JInt(Saturate(Utf8Len(s))), JString(h.contentDigest(s));
      GetPut(ms, "contentBytes", b, "contentBytes");
      GetPut(Put(ms, "contentBytes", b), "contentDigest", d, "contentBytes");
      GetPut(Put(ms, "contentBytes", b), "contentDigest", d, "contentDigest");
    case (_, Some(JArray(es))) =>
      var n := JInt(Saturate(|es|));
      GetPut(ms, "editCount", n, "editCount");
      if h.editsDigest(es).Some? {
        var d := JString(h.editsDigest(es).value);
        GetPut(Put(ms, "editCount", n), "editsDigest", d, "editCount");
        GetPut(Put(ms, "editCount", n), "editsDigest", d, "editsDigest");
      }
    case _ =>
  }

  /**
   * What history shows of an accepted call: the host's mark, the published fields, the change by its size, digest and
   * counts, and neither content nor edits; a loss is reported when a field lost something or a payload was replaced.
   */
  lemma RequestShows(h: Host, input: seq<Member>)
    requires SoundHost(h)
    ensures var out := RequestView(h, input);
            Get(out, "validatedRequest") == Some(JBool(true)) && Get(out, "content") == None && Get(out, "edits") == None
            && ContentShown(h, input, out) && EditsShown(h, input, out) && CountsShown(input, out)
            && (forall k, limit :: Listed(PATCH_SHOWN, k, limit) && !Replaced(h, input, k) ==>
                  Get(out, k) == Viewed(Get(input, k), limit))
            && Only(out, PATCH_SHOWN, ["validatedRequest", "changeRepresentation", "additions", "deletions"])
  {
    hide Get, CopyAll, RequestView, SoundHost, PATCH, PATCH_SHOWN, Listed, Published, Bound, Replaced, ContentShown,
      EditsShown, CountsShown, Covers, HostValidated;
    var out := RequestView(h, input);
    ChangeShown(h, input);
    MarkShown(h, input);
    PayloadGone(h, input, "content");
    PayloadGone(h, input, "edits");
    PatchCovers();
    forall k, limit | Listed(PATCH_SHOWN, k, limit) && !Replaced(h, input, k)
      ensures Get(out, k) == Viewed(Get(input, k), limit)
    {
      var i := CoveredAt(PATCH, PATCH_SHOWN, k, limit);
      PlainShown(h, input, i);
    }
    forall k | Get(out, k).Some?
      ensures Published(PATCH_SHOWN, k) || k in ["validatedRequest", "changeRepresentation", "additions", "deletions"]
    {
      if !Published(PATCH_SHOWN, k) && k !in ["validatedRequest", "changeRepresentation", "additions", "deletions"] {
        CoveredKeys(PATCH, PATCH_SHOWN, k);
        UnknownGone(h, input, k);
      }
    }
  }

  lemma CoveredAt(table: seq<Field>, groups: seq<Group>, k: string, limit: nat) returns (i: nat)
    requires Covers(table, groups) && Listed(groups, k, limit)
    ensures i < |table| && table[i] == Field(k, limit)
  {
    hide Listed;
    assert Field(k, limit) in table;
    i :| 0 <= i < |table| && table[i] == Field(k, limit);
  }

  lemma MarkShown(h: Host, input: seq<Member>)
    requires SoundHost(h)
    ensures Get(RequestView(h, input), "validatedRequest") == Some(JBool(true))
  {
    hide RequestView, SoundHost, Allowed;
    RequestValidated(h, input);
  }

  lemma PlainShown(h: Host, input: seq<Member>, i: nat)
    requires SoundHost(h) && i < |PATCH| && !Replaced(h, input, PATCH[i].key)
    ensures Get(RequestView(h, input), PATCH[i].key) == Viewed(Get(input, PATCH[i].key), PATCH[i].limit)
  {
    hide Get, CopyAll, Stand, ChangeOf, PATCH, RequestView, DigestText, SoundHost, Bound, Sorted, Distinct, Replaced;
    var k := PATCH[i].key;
    PatchTable();
    StartFacts();
    ViewGet(h, input, k);
    CopyAllShape(input, PATCH, START);
    StandGet(h, input, CopyAll(input, PATCH, START).members, k);
    CopyAllPresent(input, PATCH, START, i);
  }

  lemma UnknownGone(h: Host, input: seq<Member>, k: string)
    requires SoundHost(h) && Absent(PATCH, k) && k !in ["validatedRequest", "changeRepresentation", "additions", "deletions"]
    ensures Get(RequestView(h, input), k) == None
  {
    hide Get, CopyAll, Stand, ChangeOf, RequestView, DigestText, SoundHost, Sorted;
    StartFacts();
    ViewGet(h, input, k);
    StandAbsent(h, input, k);
    CopyAllAbsent(input, PATCH, START, k);
  }

  /** Which calls are refused, and what is reported of the others. */
  lemma CallReported(h: Host, value: Json)
    ensures Request(value) == None ==> ApplyPatchCall(h, value) == Projected(Call([]), true)
    ensures Request(value).Some? ==>
              var input := Request(value).value;
              if h.wireValid(value) || MarkedByHost(input)
              then ApplyPatchCall(h, value).value == Call(RequestView(h, input))
                   && (ApplyPatchCall(h, value).truncated <==>
                         Lost(input, PATCH_SHOWN) || ChangeOf(input).kind != "metadata_only")
              else ApplyPatchCall(h, value) == Projected(Call([]), true)
  {
    hide RequestView, CopyAll, ChangeOf, PATCH, PATCH_SHOWN, Lost, Lossy, Get, Covers, Sorted;
    PatchCovers();
    if Request(value).Some? {
      var input := Request(value).value;
      StartFacts();
      CopyAllShape(input, PATCH, START);
      LossyIffLost(input, PATCH, PATCH_SHOWN);
      MarkedIff(input);
    }
  }

  /** The mark is set and no key occurs that the host does not write. */
  ghost predicate MarkedByHost(input: seq<Member>) {
    Get(input, "validatedRequest") == Some(JBool(true))
    && forall m :: m in input ==>
         m.key in ["validatedRequest", "action", "operation", "filePath", "strategy", "transactionId", "index",
                   "expectedDraftRevision", "contentBytes", "contentDigest", "editCount", "editsDigest",
                   "changeRepresentation", "additions", "deletions", "summary"]
  }

  lemma MarkedIff(input: seq<Member>)
    ensures HostValidated(input) <==> MarkedByHost(input)
  {
    hide Get;
  }

  /** The request of a commit call with this summary. */
  function Commit(transaction: string, revision: nat, summary: string): (r: seq<Member>)
    ensures Sorted(r)
  {
    [Member("action", JString("commit")), Member("expectedDraftRevision", JInt(revision)),
     Member("summary", JString(summary)), Member("transactionId", JString(transaction))]
  }

  function Call(request: seq<Member>): Json {
    JObject([Member("request", JObject(request))])
  }

  /** An accepted call with a field that does not last changes when it is projected again. */
  lemma UnlastingChanges(h: Host, input: seq<Member>)
    requires SoundHost(h) && Ordered(JObject(input)) && !RequestLasting(h, input)
    requires h.wireValid(Call(input)) || HostValidated(input)
    ensures var p := ApplyPatchCall(h, Call(input)); ApplyPatchCall(h, p.value).value != p.value
  {
    hide SoundHost, RequestLasting, HostValidated, ApplyPatchCall, Ordered, Get;
    SingleMember("request", JObject(input));
    ApplyPatchCallFixedIff(h, Call(input));
    assert Request(Call(input)) == Some(input);
  }

  /**
   * A commit call that the wire schema accepts, with a 576-character summary, and whose view in history is redacted
   * further when it is projected again.
   */
  lemma ApplyPatchSecondPassRedacts(h: Host, transaction: string, revision: nat, v: string)
    requires SoundHost(h) && Nested(v) && h.wireValid(Call(Commit(transaction, revision, v)))
    ensures var p := ApplyPatchCall(h, Call(Commit(transaction, revision, v))); ApplyPatchCall(h, p.value).value != p.value
  {
    hide SoundHost, Nested, RequestLasting, ApplyPatchCall, Get, Ordered, Commit, Call, HostValidated;
    CommitFacts(transaction, revision, v);
    NotLastingSummary(h, Commit(transaction, revision, v), v);
    UnlastingChanges(h, Commit(transaction, revision, v));
  }

  lemma CommitFacts(transaction: string, revision: nat, v: string)
    ensures var r := Commit(transaction, revision, v);
            Ordered(JObject(r)) && Get(r, "summary") == Some(JString(v))
  {
    hide Get, Sorted, Less;
    var r := Commit(transaction, revision, v);
    GetMember(r, 2);
    MembersOrdered(r);
  }

  /** A request marked as validated by the host, with this summary. */
  function Marked(summary: string): seq<Member> {
    [Member("summary", JString(summary)), Member("validatedRequest", JBool(true))]
  }

  /** The same of a request already marked as validated by the host, whatever the wire schema says. */
  lemma ValidatedSecondPassRedacts(h: Host, v: string)
    requires SoundHost(h) && Nested(v)
    ensures var p := ApplyPatchCall(h, Call(Marked(v))); ApplyPatchCall(h, p.value).value != p.value
  {
    hide SoundHost, Nested, RequestLasting, ApplyPatchCall, Get, Ordered, Marked, Call, HostValidated;
    MarkedFacts(v);
    NotLastingSummary(h, Marked(v), v);
    UnlastingChanges(h, Marked(v));
  }

  lemma MarkedFacts(v: string)
    ensures Ordered(JObject(Marked(v))) && Get(Marked(v), "summary") == Some(JString(v)) && HostValidated(Marked(v))
  {
    hide Get, Sorted, Less;
    MarkedSorted(v);
    GetMember(Marked(v), 0);
    GetMember(Marked(v), 1);
    MembersOrdered(Marked(v));
  }

  lemma MarkedSorted(v: string)
    ensures Sorted(Marked(v))
  {
  }

  lemma MembersOrdered(ms: seq<Member>)
    requires Sorted(ms) && forall m :: m in ms ==> !m.value.JObject? && !m.value.JArray?
    ensures Ordered(JObject(ms))
  {
    hide Sorted;
  }

  lemma NotLastingSummary(h: Host, input: seq<Member>, v: string)
    requires Nested(v) && Get(input, "summary") == Some(JString(v))
    ensures !RequestLasting(h, input)
  {
    hide Nested, Lasts, Get, PATCH;
    NestedLastsIff(v, SUMMARY, false);
    SummaryField();
    assert !LastingAt(input, PATCH[7]) && !Replaced(h, input, PATCH[7].key);
  }

  lemma SummaryField()
    ensures |PATCH| > 7 && PATCH[7] == Field("summary", SUMMARY)
  {
  }

  lemma RequestOrdered(value: Json)
    requires Ordered(value) && Request(value).Some?
    ensures OrderedMembers(Request(value).value)
  {
    hide Get, Sorted;
    ObjectOrdered(value.members);
    ObjectOrdered(Request(value).value);
  }

  lemma SoundEmpty(h: Host)
    requires SoundHost(h)
    ensures !h.wireValid(NO_REQUEST)
  {
  }

  lemma EmptyRequest()
    ensures Request(NO_REQUEST) == Some([]) && !HostValidated([])
  {
  }

  lemma RequestStable(value: Json)
    requires StableTexts(value) && Request(value).Some?
    ensures StableMembers(Request(value).value)
  {
    hide Get;
    ObjectStable(value.members);
    ObjectStable(Request(value).value);
  }
}
