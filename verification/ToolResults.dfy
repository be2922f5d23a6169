/** Tool results in durable history: read, web_fetch and run_command, and why re-projection keeps them. */
module ToolResults {
  import opened Prelude
  import opened Text
  import opened Json
  import opened Redaction
  import opened TraceProjection
  import opened ToolProjection

  const READ: seq<Field> := [
    Field("path", PATH), Field("resourceUri", PATH), Field("status", TITLE), Field("code", TITLE),
    Field("errorCode", TITLE), Field("message", ERROR), Field("error", ERROR), Field("recovery", TITLE),
    Field("format", TITLE), Field("revision", GENERIC), Field("mimeType", TITLE), Field("sizeBytes", GENERIC),
    Field("startLine", GENERIC), Field("startColumn", GENERIC), Field("startByte", GENERIC),
    Field("endLine", GENERIC), Field("endColumn", GENERIC), Field("endByteExclusive", GENERIC),
    Field("totalLines", GENERIC), Field("totalBytes", GENERIC), Field("returnedBytes", GENERIC),
    Field("nextStartByte", GENERIC), Field("nextStartLine", GENERIC), Field("nextStartColumn", GENERIC),
    Field("pageCount", GENERIC), Field("sheetCount", GENERIC), Field("slideCount", GENERIC),
    Field("partCount", GENERIC), Field("extractor", TITLE), Field("truncatedReason", TITLE)]

  const WEB_FETCH: seq<Field> := [
    Field("url", URL), Field("requestedUrl", URL), Field("title", TITLE), Field("provider", TITLE),
    Field("source", URL), Field("status", TITLE), Field("code", TITLE), Field("errorCode", TITLE),
    Field("message", ERROR), Field("recovery", TITLE), Field("format", TITLE), Field("extractDepth", TITLE),
    Field("responseTime", GENERIC), Field("sourceStopReason", TITLE), Field("contentCoverage", GENERIC),
    Field("imagesCoverage", GENERIC), Field("failedResultsCoverage", GENERIC), Field("truncatedAtSource", GENERIC),
    Field("omittedBytes", GENERIC)]

  const REJECTED: seq<Field> := [
    Field("status", TITLE), Field("code", TITLE), Field("decisionBy", TITLE), Field("executionAttempted", TITLE),
    Field("retryable", TITLE), Field("userFeedback", GUIDANCE), Field("message", GUIDANCE)]

  const RUNNING: seq<Field> := [
    Field("status", TITLE), Field("sessionId", TITLE), Field("startedAt", GENERIC), Field("latestSequence", GENERIC)]

  const EXITED: seq<Field> := [
    Field("status", TITLE), Field("command", COMMAND), Field("cwd", PATH), Field("exitCode", GENERIC),
    Field("timedOut", GENERIC), Field("cancelled", GENERIC), Field("durationMs", GENERIC)]

  const EXITED_LATE: seq<Field> := [
    Field("error", GENERIC), Field("policyEvaluation", GENERIC), Field("artifactObservation", GENERIC),
    Field("inputFiles", GENERIC), Field("runtime", GENERIC)]

  // ----- what each kind of result publishes

  const READ_SHOWN: seq<Group> := [
    Group(["path", "resourceUri"], 2048),
    Group(["status", "code", "errorCode", "recovery", "format", "mimeType", "extractor", "truncatedReason"], 512),
    Group(["message", "error", "revision", "sizeBytes", "startLine", "startColumn", "startByte", "endLine", "endColumn",
           "endByteExclusive", "totalLines", "totalBytes", "returnedBytes", "nextStartByte", "nextStartLine",
           "nextStartColumn", "pageCount", "sheetCount", "slideCount", "partCount"], 2000)]

  const WEB_FETCH_SHOWN: seq<Group> := [
    Group(["url", "requestedUrl", "source"], 4096),
    Group(["title", "provider", "status", "code", "errorCode", "recovery", "format", "extractDepth", "sourceStopReason"], 512),
    Group(["message", "responseTime", "contentCoverage", "imagesCoverage", "failedResultsCoverage", "truncatedAtSource",
           "omittedBytes"], 2000)]

  const REJECTED_SHOWN: seq<Group> := [
    Group(["status", "code", "decisionBy", "executionAttempted", "retryable"], 512),
    Group(["userFeedback", "message"], 12000)]

  const RUNNING_SHOWN: seq<Group> := [
    Group(["status", "sessionId"], 512),
    Group(["startedAt", "latestSequence"], 2000)]

  const EXITED_SHOWN: seq<Group> := [
    Group(["status"], 512),
    Group(["command", "exitCode", "timedOut", "cancelled", "durationMs", "error", "policyEvaluation",
           "artifactObservation", "inputFiles", "runtime"], 2000),
    Group(["cwd"], 2048)]

  // ----- the summary of a body, shared by read and web_fetch results

  function Content(input: seq<Member>): Option<string> {
    if Get(input, "summary").Some? then Str(input, "summary")
    else if Get(input, "content").Some? then Str(input, "content")
    else Str(input, "text")
  }

  /** Whether the history body is shorter than the source: cut now, cut before, or never summarised before. */
  predicate Shortened(input: seq<Member>, cut: bool, note: string) {
    cut || Get(input, "summary").None? || Flag(input, note)
  }

  function Summarise(input: seq<Member>, c: Built, limit: nat, note: string): Built {
    match Content(input)
    case None => c
    case Some(s) =>
      var (summary, cut) := BoundText(s, limit, false);
      var short := Shortened(input, cut, note);
      Built(PutFlag(Put(c.members, "summary", JString(summary)), note, short), c.truncated || short)
  }

  function View(input: seq<Member>, table: seq<Field>, limit: nat, note: string): Built {
    Summarise(input, CopyAll(input, table, EMPTY), limit, note)
  }

  function Close(input: seq<Member>, c: Built): Projected {
    Projected(JObject(PutFlag(c.members, "truncated", Flag(input, "truncated") || c.truncated)), c.truncated)
  }

  function Failures(input: seq<Member>, c: Built): Built {
    match Get(input, "failedResults")
    case Some(JArray(xs)) =>
      var r := FailedList(xs);
      Built(Put(c.members, "failedResults", JArray(r.0)), c.truncated || r.1)
    case _ => c
  }

  /** The first ten failed results, each bounded, and whether anything was lost. */
  function FailedList(xs: seq<Json>): (seq<Json>, bool) {
    var n := if |xs| <= FAILED_RESULTS then |xs| else FAILED_RESULTS;
    var r := BoundItems(xs[..n], GENERIC, 0);
    (r.0, r.1 || |xs| > n)
  }

  function ReadResult(value: Json): Projected {
    match value
    case JObject(input) => Close(input, View(input, READ, READ_SUMMARY, "contentTruncatedInHistory"))
    case _ => Bound(value, GENERIC, 0)
  }

  function WebFetchResult(value: Json): Projected {
    match value
    case JObject(input) =>
      Close(input, Failures(input, View(input, WEB_FETCH, SUMMARY, "bodyTruncatedInHistory")))
    case _ => Bound(value, GENERIC, 0)
  }

  /** The projection of a read result, filling its map and flag in order. */
  method ProjectReadResult(value: Json) returns (p: Projected)
    ensures p == ReadResult(value)
  {
    hide READ, CopyAll, Bound;
    if !value.JObject? { return Bound(value, GENERIC, 0); }
    var input := value.members;
    var output := CopyFields(input, READ, EMPTY);
    output := SummariseBody(input, output, READ_SUMMARY, "contentTruncatedInHistory");
    p := Close(input, output);
  }

  method ProjectWebFetchResult(value: Json) returns (p: Projected)
    ensures p == WebFetchResult(value)
  {
    hide WEB_FETCH, CopyAll, Bound;
    if !value.JObject? { return Bound(value, GENERIC, 0); }
    var input := value.members;
    var output := CopyFields(input, WEB_FETCH, EMPTY);
    output := SummariseBody(input, output, SUMMARY, "bodyTruncatedInHistory");
    match Get(input, "failedResults") {
      case Some(JArray(failed)) =>
        var selected := FailedList(failed);
        output := Built(Put(output.members, "failedResults", JArray(selected.0)), output.truncated || selected.1);
      case _ =>
    }
    p := Close(input, output);
  }

  method SummariseBody(input: seq<Member>, c: Built, limit: nat, note: string) returns (r: Built)
    ensures r == Summarise(input, c, limit, note)
  {
    hide BoundText;
    var content := Content(input);
    if content.None? { return c; }
    var members, truncated := c.members, c.truncated;
    var summary := BoundText(content.value, limit, false);
    members := Put(members, "summary", JString(summary.0));
    var short := summary.1 || Get(input, "summary").None? || Flag(input, note);
    members := Put(members, note, JBool(short));
    truncated := truncated || short;
    r := Built(members, truncated);
  }

  /** The table leaves the keys of the summary alone. */
  predicate Apart(table: seq<Field>, note: string) {
    Distinct(table) && Absent(table, "summary") && Absent(table, "content") && Absent(table, "text")
    && Absent(table, "truncated") && Absent(table, note)
    && note !in ["summary", "content", "text", "truncated"]
  }

  lemma ViewGet(input: seq<Member>, table: seq<Field>, limit: nat, note: string, k: string)
    requires Apart(table, note)
    ensures var v, c := View(input, table, limit, note).members, CopyAll(input, table, EMPTY).members;
            Get(v, k) ==
            if Content(input).None? || (k != "summary" && k != note) then Get(c, k)
            else
              var (summary, cut) := BoundText(Content(input).value, limit, false);
              if k == note then Some(JBool(Shortened(input, cut, note))) else Some(JString(summary))
    ensures var v := View(input, table, limit, note).members;
            (k !in ["summary", note] && Absent(table, k) ==> Get(v, k) == None)
            && (Content(input).None? ==> Get(v, "summary") == None && Get(v, note) == None)
  {
    hide Get, Put, CopyAll, BoundText, Content, Shortened, Distinct;
    NoneSorted();
    var c := CopyAll(input, table, EMPTY);
    if Content(input).Some? {
      var (summary, cut) := BoundText(Content(input).value, limit, false);
      var m := Put(c.members, "summary", JString(summary));
      GetPut(c.members, "summary", JString(summary), k);
      GetPut(m, note, JBool(Shortened(input, cut, note)), k);
    }
    if Absent(table, k) { CopyAllAbsent(input, table, EMPTY, k); }
    CopyAllAbsent(input, table, EMPTY, "summary");
    CopyAllAbsent(input, table, EMPTY, note);
  }

  lemma ViewShape(input: seq<Member>, table: seq<Field>, limit: nat, note: string)
    ensures var v := View(input, table, limit, note);
            Sorted(v.members)
            && v.truncated == (Lossy(input, table) || (Content(input).Some?
                 && Shortened(input, BoundText(Content(input).value, limit, false).1, note)))
  {
    hide Get, Put, CopyAll, BoundText, Content, Shortened, Sorted, Lossy;
    NoneSorted();
    CopyAllShape(input, table, EMPTY);
    var c := CopyAll(input, table, EMPTY);
    if Content(input).Some? {
      var (summary, cut) := BoundText(Content(input).value, limit, false);
      PutSorted(c.members, "summary", JString(summary));
      PutSorted(Put(c.members, "summary", JString(summary)), note, JBool(Shortened(input, cut, note)));
    }
  }

  /** A map that holds what the view of `input` holds, outside keys the view never reads from its own output. */
  ghost predicate Carries(out: seq<Member>, v: seq<Member>) {
    forall k :: k != "truncated" && k != "failedResults" ==> Get(out, k) == Get(v, k)
  }

  /** What the second pass finds as content is the first pass's summary. */
  lemma ContentAgain(input: seq<Member>, out: seq<Member>, table: seq<Field>, limit: nat, note: string)
    requires Apart(table, note) && note != "failedResults"
    requires Carries(out, View(input, table, limit, note).members)
    ensures Content(out) ==
            if Content(input).None? then None else Some(BoundText(Content(input).value, limit, false).0)
    ensures Content(input).Some? ==>
              Get(out, "summary").Some?
              && (Flag(out, note) <==> Shortened(input, BoundText(Content(input).value, limit, false).1, note))
  {
    hide Get, BoundText, View, CopyAll, Shortened, Absent, Distinct;
    var v := View(input, table, limit, note).members;
    ViewGet(input, table, limit, note, "summary");
    ViewGet(input, table, limit, note, "content");
    ViewGet(input, table, limit, note, "text");
    ViewGet(input, table, limit, note, note);
    assert Get(out, "summary") == Get(v, "summary");
    assert Get(out, note) == Get(v, note);
    assert Get(out, "content") == Get(v, "content");
    assert Get(out, "text") == Get(v, "text");
  }

  lemma StableContent(input: seq<Member>, limit: nat)
    requires StableMembers(input)
    ensures LastingText(Content(input), limit, false)
  {
    hide Get, StableMembers, LastingText;
    StableText(input, "summary", limit, false);
    StableText(input, "content", limit, false);
    StableText(input, "text", limit, false);
  }

  /** Viewing a carried view again reproduces it, and loses something only if the first view did. */
  lemma ViewAgain(input: seq<Member>, out: seq<Member>, table: seq<Field>, limit: nat, note: string)
    requires LastingFields(input, table) && LastingText(Content(input), limit, false)
    requires Apart(table, note) && note != "failedResults" && Absent(table, "failedResults")
    requires Carries(out, View(input, table, limit, note).members)
    ensures View(out, table, limit, note).members == View(input, table, limit, note).members
    ensures View(out, table, limit, note).truncated ==> View(input, table, limit, note).truncated
  {
    var v, w := View(input, table, limit, note).members, View(out, table, limit, note).members;
    ViewShape(input, table, limit, note);
    ViewShape(out, table, limit, note);
    ContentAgain(input, out, table, limit, note);
    ViewCopyAgain(input, out, table, limit, note);
    ShortAgain(input, out, limit, note);
    forall k ensures Get(w, k) == Get(v, k) { ViewKeyAgain(input, out, table, limit, note, k); }
    hide *;
    SameAll(w, v);
    Extensional(w, v);
  }

  lemma SameAll(a: seq<Member>, b: seq<Member>)
    requires forall k :: Get(a, k) == Get(b, k)
    ensures SameLookups(a, b)
  {
  }

  lemma ShortAgain(input: seq<Member>, out: seq<Member>, limit: nat, note: string)
    requires LastingText(Content(input), limit, false)
    requires Content(out) == if Content(input).None? then None else Some(BoundText(Content(input).value, limit, false).0)
    requires Content(input).Some? ==>
               Get(out, "summary").Some?
               && (Flag(out, note) <==> Shortened(input, BoundText(Content(input).value, limit, false).1, note))
    ensures Content(input).Some? ==>
              BoundText(Content(out).value, limit, false).0 == Content(out).value
              && (Shortened(out, BoundText(Content(out).value, limit, false).1, note)
                  <==> Shortened(input, BoundText(Content(input).value, limit, false).1, note))
  {
    hide Get, BoundText, Content, Lasts;
    if Content(input).Some? { BoundTextFixedIff(Content(input).value, limit, false); }
  }

  /** The copied fields of the second pass are those of the first. */
  lemma ViewCopyAgain(input: seq<Member>, out: seq<Member>, table: seq<Field>, limit: nat, note: string)
    requires LastingFields(input, table) && Apart(table, note) && Absent(table, "failedResults")
    requires Carries(out, View(input, table, limit, note).members)
    ensures forall k :: Get(CopyAll(out, table, EMPTY).members, k) == Get(CopyAll(input, table, EMPTY).members, k)
    ensures Lossy(out, table) ==> Lossy(input, table)
  {
    hide Get, View, CopyAll, Lossy, LastingAt, Bound;
    var c := CopyAll(input, table, EMPTY).members;
    forall i | 0 <= i < |table| ensures Get(out, table[i].key) == Get(c, table[i].key) {
      ViewGet(input, table, limit, note, table[i].key);
    }
    CopyMirrors(input, out, table);
    NoneSorted();
    CopyAgain(input, out, table, EMPTY);
  }

  lemma ViewKeyAgain(input: seq<Member>, out: seq<Member>, table: seq<Field>, limit: nat, note: string, k: string)
    requires Apart(table, note)
    requires forall k :: Get(CopyAll(out, table, EMPTY).members, k) == Get(CopyAll(input, table, EMPTY).members, k)
    requires Content(out) == if Content(input).None? then None else Some(BoundText(Content(input).value, limit, false).0)
    requires Content(input).Some? ==>
               BoundText(Content(out).value, limit, false).0 == Content(out).value
               && (Shortened(out, BoundText(Content(out).value, limit, false).1, note)
                   <==> Shortened(input, BoundText(Content(input).value, limit, false).1, note))
    ensures Get(View(out, table, limit, note).members, k) == Get(View(input, table, limit, note).members, k)
  {
    hide Get, CopyAll, BoundText, Content, Shortened, Absent, Distinct, View;
    ViewGet(input, table, limit, note, k);
    ViewGet(out, table, limit, note, k);
    assert Get(CopyAll(out, table, EMPTY).members, k) == Get(CopyAll(input, table, EMPTY).members, k);
  }

  /** A view that is its own view shows that the fields and the body it was made from are lasting. */
  lemma ViewLasting(input: seq<Member>, out: seq<Member>, table: seq<Field>, limit: nat, note: string)
    requires OrderedMembers(input) && Apart(table, note) && note != "failedResults" && Absent(table, "failedResults")
    requires Carries(out, View(input, table, limit, note).members) && Carries(out, View(out, table, limit, note).members)
    ensures LastingFields(input, table) && LastingText(Content(input), limit, false)
  {
    hide Get, View, CopyAll, Bound, Content, BoundText, Lasts, Shortened, Ordered, Lasting;
    forall i | 0 <= i < |table|
      ensures Get(out, table[i].key) == Get(CopyAll(input, table, EMPTY).members, table[i].key)
      ensures Get(out, table[i].key) == Get(CopyAll(out, table, EMPTY).members, table[i].key)
    {
      ViewGet(input, table, limit, note, table[i].key);
      ViewGet(out, table, limit, note, table[i].key);
    }
    CopyMirrors(input, out, table);
    CopyMirrors(out, out, table);
    MirrorLasting(input, out, table);
    if Content(input).Some? {
      ContentAgain(input, out, table, limit, note);
      ViewGet(input, table, limit, note, "summary");
      ViewGet(out, table, limit, note, "summary");
      assert Get(out, "summary") == Get(View(out, table, limit, note).members, "summary");
      BoundTextFixedIff(Content(input).value, limit, false);
    }
  }

  // ----- read results

  lemma ReadTable()
    ensures Apart(READ, "contentTruncatedInHistory") && Absent(READ, "failedResults")
  {
    ReadDistinct();
  }

  lemma ReadDistinct()
    ensures Distinct(READ)
  {
    hide READ;
    ReadRows(0, 4);
    ReadRows(4, 8);
    ReadMiddleRows(8, 12);
    ReadMiddleRows(12, 16);
    ReadLateRows(16, 22);
    ReadLateRows(22, 30);
  }

  lemma ReadRows(lo: nat, hi: nat)
    requires (lo, hi) in [(0, 4), (4, 8)]
    ensures |READ| == 30 && forall i, j :: lo <= i < hi && i < j < 30 ==> READ[i].key != READ[j].key
  {
    if lo == 0 { } else { }
  }

  lemma ReadMiddleRows(lo: nat, hi: nat)
    requires (lo, hi) in [(8, 12), (12, 16)]
    ensures |READ| == 30 && forall i, j :: lo <= i < hi && i < j < 30 ==> READ[i].key != READ[j].key
  {
    if lo == 8 { } else { }
  }

  lemma ReadLateRows(lo: nat, hi: nat)
    requires (lo, hi) in [(16, 22), (22, 30)]
    ensures |READ| == 30 && forall i, j :: lo <= i < hi && i < j < 30 ==> READ[i].key != READ[j].key
  {
    if lo == 16 { } else { }
  }

  /** What of a read result survives into history is lasting. */
  predicate ReadLasting(value: Json) {
    match value
    case JObject(input) => LastingFields(input, READ) && LastingText(Content(input), READ_SUMMARY, false)
    case _ => Lasting(value, GENERIC, 0)
  }

  /** A lasting read result in history projects to itself. */
  lemma ReadResultFixed(value: Json)
    requires ReadLasting(value)
    ensures var p := ReadResult(value); Repeats(p, ReadResult(p.value))
  {
    hide READ, LastingFields, LastingText, View, Get, Put, Content;
    if value.JObject? {
      var input := value.members;
      var note := "contentTruncatedInHistory";
      ReadTable();
      var v := View(input, READ, READ_SUMMARY, note);
      var out := ReadResult(value).value.members;
      ClosedCarries(input, v);
      ViewAgain(input, out, READ, READ_SUMMARY, note);
    } else {
      BoundFixed(value, GENERIC, 0);
    }
  }

  lemma ReadResultFixedOnly(value: Json)
    requires Ordered(value) && ReadResult(ReadResult(value).value).value == ReadResult(value).value
    ensures ReadLasting(value)
  {
    hide READ, LastingFields, LastingText, View, Get, Put, Content, Ordered, OrderedMembers;
    if value.JObject? {
      var input := value.members;
      var note := "contentTruncatedInHistory";
      ReadTable();
      ObjectOrdered(input);
      var out := ReadResult(value).value.members;
      ClosedCarries(input, View(input, READ, READ_SUMMARY, note));
      ClosedCarries(out, View(out, READ, READ_SUMMARY, note));
      ViewLasting(input, out, READ, READ_SUMMARY, note);
    } else {
      BoundNotObject(value);
      FixedLasting(value, GENERIC, 0);
    }
  }

  /** A read result in history projects to itself exactly when what survives of it is lasting. */
  lemma ReadResultFixedIff(value: Json)
    requires Ordered(value)
    ensures var p := ReadResult(value); var again := ReadResult(p.value);
            (again.value == p.value <==> ReadLasting(value)) && (again.value == p.value ==> Repeats(p, again))
  {
    hide ReadResult, ReadLasting;
    if ReadLasting(value) { ReadResultFixed(value); }
    if ReadResult(ReadResult(value).value).value == ReadResult(value).value { ReadResultFixedOnly(value); }
  }

  lemma ClosedCarries(input: seq<Member>, c: Built)
    ensures var out := Close(input, c).value.members;
            (forall k :: k != "truncated" ==> Get(out, k) == Get(c.members, k))
            && (Flag(out, "truncated") <==> Flag(input, "truncated") || c.truncated)
  {
    hide Get, Put;
    var b := JBool(Flag(input, "truncated") || c.truncated);
    forall k ensures Get(Put(c.members, "truncated", b), k) == if k == "truncated" then Some(b) else Get(c.members, k) {
      GetPut(c.members, "truncated", b, k);
    }
  }

  // ----- web_fetch results

  lemma WebTable()
    ensures Apart(WEB_FETCH, "bodyTruncatedInHistory") && Absent(WEB_FETCH, "failedResults")
  {
    WebDistinct();
  }

  lemma WebDistinct()
    ensures Distinct(WEB_FETCH)
  {
    hide WEB_FETCH;
    WebRows(0, 4);
    WebRows(4, 9);
    WebRows(9, 19);
  }

  lemma WebRows(lo: nat, hi: nat)
    requires (lo, hi) in [(0, 4), (4, 9), (9, 19)]
    ensures |WEB_FETCH| == 19 && forall i, j :: lo <= i < hi && i < j < 19 ==> WEB_FETCH[i].key != WEB_FETCH[j].key
  {
    if lo == 0 { } else if lo == 4 { } else { }
  }

  lemma FailuresGet(input: seq<Member>, c: Built, k: string)
    requires Get(c.members, "failedResults") == None
    ensures var f := Failures(input, c);
            Get(f.members, k) ==
            match Get(input, "failedResults")
            case Some(JArray(xs)) =>
              if k == "failedResults" then Some(JArray(FailedList(xs).0)) else Get(c.members, k)
            case _ => Get(c.members, k)
  {
    hide Get, Put, FailedList;
    match Get(input, "failedResults")
    case Some(JArray(xs)) => GetPut(c.members, "failedResults", JArray(FailedList(xs).0), k);
    case _ =>
  }

  /** The failures that are listed are lasting. */
  predicate LastingFailures(input: seq<Member>) {
    match Get(input, "failedResults")
    case Some(JArray(xs)) => forall i :: 0 <= i < |xs| && i < FAILED_RESULTS ==> Lasting(xs[i], GENERIC, 0)
    case _ => true
  }

  /** A list of failures that lists itself again was made from lasting ones. */
  lemma FailedListLasting(xs: seq<Json>)
    requires Ordered(JArray(xs)) && FailedList(FailedList(xs).0).0 == FailedList(xs).0
    ensures forall i :: 0 <= i < |xs| && i < FAILED_RESULTS ==> Lasting(xs[i], GENERIC, 0)
  {
    hide Bound, Lasting;
    var n := if |xs| <= FAILED_RESULTS then |xs| else FAILED_RESULTS;
    var r := BoundItems(xs[..n], GENERIC, 0).0;
    assert r[..|r|] == r;
    forall i | 0 <= i < n ensures Lasting(xs[i], GENERIC, 0) {
      BoundItemAt(xs[..n], GENERIC, 0, i);
      BoundItemAt(r, GENERIC, 0, i);
      assert xs[i] in xs;
      FixedLasting(xs[i], GENERIC, 0);
    }
  }

  lemma FailuresLasting(input: seq<Member>)
    requires OrderedMembers(input)
    requires match Get(input, "failedResults")
             case Some(JArray(xs)) => FailedList(FailedList(xs).0).0 == FailedList(xs).0
             case _ => true
    ensures LastingFailures(input)
  {
    hide Get, FailedList, Lasting, Ordered;
    match Get(input, "failedResults")
    case Some(JArray(xs)) => FailedListLasting(xs);
    case _ =>
  }

  /** Listing the listed failures again changes nothing and loses something only if the first listing did. */
  lemma FailuresAgain(input: seq<Member>, out: seq<Member>, c: Built, d: Built)
    requires LastingFailures(input) && c.members == d.members && (d.truncated ==> c.truncated)
    requires Get(c.members, "failedResults") == None
    requires Get(out, "failedResults") == Get(Failures(input, c).members, "failedResults")
    ensures Failures(out, d).members == Failures(input, c).members
    ensures Failures(out, d).truncated ==> Failures(input, c).truncated
  {
    hide Get, Put, FailedList, Lasting;
    FailuresGet(input, c, "failedResults");
    match Get(input, "failedResults")
    case Some(JArray(xs)) => FailedListAgain(xs);
    case _ =>
  }

  lemma FailedListAgain(xs: seq<Json>)
    requires forall i :: 0 <= i < |xs| && i < FAILED_RESULTS ==> Lasting(xs[i], GENERIC, 0)
    ensures var r := FailedList(xs); var again := FailedList(r.0); again.0 == r.0 && (again.1 ==> r.1)
  {
    hide Bound, Lasting;
    var n := if |xs| <= FAILED_RESULTS then |xs| else FAILED_RESULTS;
    var r := BoundItemsFixed(xs[..n], GENERIC, 0);
    assert r[..|r|] == r;
  }

  predicate WebFetchLasting(value: Json) {
    match value
    case JObject(input) =>
      LastingFields(input, WEB_FETCH) && LastingText(Content(input), SUMMARY, false) && LastingFailures(input)
    case _ => Lasting(value, GENERIC, 0)
  }

  /** What a web_fetch result's projection holds, beside the view itself. */
  lemma WebCarries(input: seq<Member>, out: seq<Member>)
    requires JObject(out) == WebFetchResult(JObject(input)).value
    ensures Carries(out, View(input, WEB_FETCH, SUMMARY, "bodyTruncatedInHistory").members)
    ensures Get(out, "failedResults") == match Get(input, "failedResults")
                                         case Some(JArray(xs)) => Some(JArray(FailedList(xs).0))
                                         case _ => None
    ensures Get(View(input, WEB_FETCH, SUMMARY, "bodyTruncatedInHistory").members, "failedResults") == None
    ensures Get(out, "failedResults") ==
            Get(Failures(input, View(input, WEB_FETCH, SUMMARY, "bodyTruncatedInHistory")).members, "failedResults")
  {
    hide WEB_FETCH, View, Get, Put, Failures, FailedList;
    var note := "bodyTruncatedInHistory";
    WebTable();
    var v := View(input, WEB_FETCH, SUMMARY, note);
    ViewGet(input, WEB_FETCH, SUMMARY, note, "failedResults");
    ClosedCarries(input, Failures(input, v));
    forall k ensures k != "truncated" && k != "failedResults" ==> Get(out, k) == Get(v.members, k) {
      FailuresGet(input, v, k);
    }
    FailuresGet(input, v, "failedResults");
  }

  /** A lasting web_fetch result in history projects to itself. */
  lemma WebFetchResultFixed(value: Json)
    requires WebFetchLasting(value)
    ensures var p := WebFetchResult(value); Repeats(p, WebFetchResult(p.value))
  {
    hide WEB_FETCH, LastingFields, LastingText, LastingFailures, View, Get, Put, Failures, Content, Carries;
    if value.JObject? {
      var input := value.members;
      var note := "bodyTruncatedInHistory";
      WebTable();
      var v := View(input, WEB_FETCH, SUMMARY, note);
      var out := WebFetchResult(value).value.members;
      WebCarries(input, out);
      ViewAgain(input, out, WEB_FETCH, SUMMARY, note);
      FailuresAgain(input, out, v, View(out, WEB_FETCH, SUMMARY, note));
      ClosedCarries(input, Failures(input, v));
    } else {
      BoundFixed(value, GENERIC, 0);
    }
  }

  lemma WebFetchResultFixedOnly(value: Json)
    requires Ordered(value) && WebFetchResult(WebFetchResult(value).value).value == WebFetchResult(value).value
    ensures WebFetchLasting(value)
  {
    hide WEB_FETCH, LastingFields, LastingText, LastingFailures, View, Get, Failures, Content, Carries, OrderedMembers,
      FailedList, Ordered, Close;
    if value.JObject? {
      var input := value.members;
      WebTable();
      ObjectOrdered(input);
      assert WebFetchResult(value).value.JObject? by { CloseIsObject(); }
      var out := WebFetchResult(value).value.members;
      WebCarries(input, out);
      WebCarries(out, out);
      ViewLasting(input, out, WEB_FETCH, SUMMARY, "bodyTruncatedInHistory");
      FailuresLasting(input);
    } else {
      BoundNotObject(value);
      FixedLasting(value, GENERIC, 0);
    }
  }

  lemma CloseIsObject()
    ensures forall input, c :: Close(input, c).value.JObject?
  {
  }

  /** A web_fetch result in history projects to itself exactly when what survives of it is lasting. */
  lemma WebFetchResultFixedIff(value: Json)
    requires Ordered(value)
    ensures var p := WebFetchResult(value); var again := WebFetchResult(p.value);
            (again.value == p.value <==> WebFetchLasting(value)) && (again.value == p.value ==> Repeats(p, again))
  {
    hide WebFetchResult, WebFetchLasting;
    if WebFetchLasting(value) { WebFetchResultFixed(value); }
    if WebFetchResult(WebFetchResult(value).value).value == WebFetchResult(value).value { WebFetchResultFixedOnly(value); }
  }

  // ----- run_command results

  /** The text of a stream: under its source name, or under its history name in a projected result. */
  function StreamText(input: seq<Member>, source: string, tail: string): Option<string> {
    if Get(input, source).Some? then Str(input, source) else Str(input, tail)
  }

  /** One output stream: its tail under the history name, and a flag that stays set. */
  function Stream(input: seq<Member>, c: Built, source: string, tail: string, note: string): Built {
    match StreamText(input, source, tail)
    case None => c
    case Some(s) =>
      var (t, cut) := BoundText(s, OUTPUT_TAIL, true);
      Built(PutFlag(Put(c.members, tail, JString(t)), note, Flag(input, note) || cut), c.truncated || cut)
  }

  function Exited(input: seq<Member>): Built {
    var c := CopyAll(input, EXITED, EMPTY);
    var c := Stream(input, c, "stdout", "stdoutTail", "stdoutTruncated");
    var c := Stream(input, c, "stderr", "stderrTail", "stderrTruncated");
    CopyAll(input, EXITED_LATE, c)
  }

  function Running(input: seq<Member>): Built {
    var c := CopyAll(input, RUNNING, EMPTY);
    var text := Str(input, "output");
    var cut := text.Some? && BoundText(text.value, OUTPUT_TAIL, true).1;
    var m := if text.Some? then Put(c.members, "output", JString(BoundText(text.value, OUTPUT_TAIL, true).0)) else c.members;
    var n := if Get(input, "outputTruncated").Some? || cut
             then PutFlag(m, "outputTruncated", Flag(input, "outputTruncated") || cut) else m;
    Built(n, c.truncated || cut)
  }

  function RunCommandView(input: seq<Member>): Built {
    if Str(input, "status") == Some("rejected") then CopyAll(input, REJECTED, EMPTY)
    else if Str(input, "status") == Some("running") then Running(input)
    else Exited(input)
  }

  function RunCommandResult(value: Json): Projected {
    match value
    case JObject(input) =>
      var c := RunCommandView(input);
      Projected(JObject(c.members), c.truncated)
    case _ => Bound(value, GENERIC, 0)
  }

  const STREAMS := [("stdout", "stdoutTail", "stdoutTruncated"), ("stderr", "stderrTail", "stderrTruncated")]

  /** The exited branch, with its loop over the two streams. */
  method ProjectExited(input: seq<Member>) returns (r: Built)
    ensures r == Exited(input)
  {
    hide CopyAll, BoundText, EXITED, EXITED_LATE, Stream;
    var c := CopyFields(input, EXITED, EMPTY);
    r := c;
    for i := 0 to |STREAMS|
      invariant i == 0 ==> r == c
      invariant i == 1 ==> r == Stream(input, c, "stdout", "stdoutTail", "stdoutTruncated")
      invariant i == 2 ==> r == Stream(input, Stream(input, c, "stdout", "stdoutTail", "stdoutTruncated"),
                                       "stderr", "stderrTail", "stderrTruncated")
    {
      var (source, tail, note) := STREAMS[i];
      r := ProjectStream(input, r, source, tail, note);
    }
    r := CopyFields(input, EXITED_LATE, r);
  }

  method ProjectStream(input: seq<Member>, c: Built, source: string, tail: string, note: string) returns (r: Built)
    ensures r == Stream(input, c, source, tail, note)
  {
    hide BoundText;
    var text := StreamText(input, source, tail);
    if text.None? { return c; }
    var members, truncated := c.members, c.truncated;
    var bounded := BoundText(text.value, OUTPUT_TAIL, true);
    members := Put(members, tail, JString(bounded.0));
    members := Put(members, note, JBool(Flag(input, note) || bounded.1));
    truncated := truncated || bounded.1;
    r := Built(members, truncated);
  }

  method ProjectRunCommandResult(value: Json) returns (p: Projected)
    ensures p == RunCommandResult(value)
  {
    hide CopyAll, Bound, Exited, Running, REJECTED;
    if !value.JObject? { return Bound(value, GENERIC, 0); }
    var input := value.members;
    var c: Built;
    if Str(input, "status") == Some("rejected") { c := CopyFields(input, REJECTED, EMPTY); }
    else if Str(input, "status") == Some("running") { c := Running(input); }
    else { c := ProjectExited(input); }
    p := Projected(JObject(c.members), c.truncated);
  }

  lemma CommandTables()
    ensures Distinct(REJECTED) && Distinct(RUNNING) && Distinct(EXITED) && Distinct(EXITED_LATE)
    ensures |REJECTED| > 0 && |RUNNING| > 0 && |EXITED| > 0
    ensures REJECTED[0] == RUNNING[0] == EXITED[0] == Field("status", TITLE)
  {
  }

  /** A plain status word is its own projection, and no other status projects to it. */
  lemma StatusKept(input: seq<Member>, out: seq<Member>, word: string)
    requires word in ["rejected", "running"]
    requires Get(out, "status") == BoundAt(input, Field("status", TITLE))
    ensures Str(out, "status") == Some(word) <==> Str(input, "status") == Some(word)
  {
    hide Get, BoundText;
    match Get(input, "status")
    case Some(JString(s)) =>
      BoundTextKept(s, TITLE, false);
      if s == word { WordKept(word); }
      assert '[' !in word;
    case _ =>
  }

  lemma WordKept(word: string)
    requires word in ["rejected", "running"]
    ensures BoundText(word, TITLE, false) == (word, false)
  {
    hide Redact;
    assert forall i :: 0 <= i < |word| ==> word[i] != ':';
    ColonlessQuiet(word);
    ShortNotStandalone(word);
    RedactFixedIff(word);
  }

  lemma ShortNotStandalone(t: string)
    requires |t| < 32
    ensures !StandaloneBase64(Trim(t))
  {
  }

  lemma RunningGet(input: seq<Member>, k: string)
    ensures var text := Str(input, "output");
            var cut := text.Some? && BoundText(text.value, OUTPUT_TAIL, true).1;
            Get(Running(input).members, k) ==
            if k == "outputTruncated" && (Get(input, k).Some? || cut) then Some(JBool(Flag(input, k) || cut))
            else if k == "output" && text.Some? then Some(JString(BoundText(text.value, OUTPUT_TAIL, true).0))
            else Get(CopyAll(input, RUNNING, EMPTY).members, k)
    ensures Sorted(Running(input).members)
    ensures Running(input).truncated ==
            (Lossy(input, RUNNING) || (Str(input, "output").Some? && BoundText(Str(input, "output").value, OUTPUT_TAIL, true).1))
  {
    hide Get, Put, CopyAll, BoundText, Sorted, RUNNING;
    NoneSorted();
    CopyAllShape(input, RUNNING, EMPTY);
    var c := CopyAll(input, RUNNING, EMPTY).members;
    var text := Str(input, "output");
    var cut := text.Some? && BoundText(text.value, OUTPUT_TAIL, true).1;
    var m := c;
    if text.Some? {
      var t := JString(BoundText(text.value, OUTPUT_TAIL, true).0);
      GetPut(c, "output", t, k);
      PutSorted(c, "output", t);
      m := Put(c, "output", t);
    }
    var b := JBool(Flag(input, "outputTruncated") || cut);
    GetPut(m, "outputTruncated", b, k);
    PutSorted(m, "outputTruncated", b);
  }

  predicate RunningLasting(input: seq<Member>) {
    LastingFields(input, RUNNING) && LastingText(Str(input, "output"), OUTPUT_TAIL, true)
  }

  lemma RunningMirrors(input: seq<Member>)
    ensures Mirrors(input, Running(input).members, RUNNING)
    ensures Absent(RUNNING, "output") && Absent(RUNNING, "outputTruncated")
    ensures var text := Str(input, "output");
            Get(Running(input).members, "output") ==
            if text.None? then None else Some(JString(BoundText(text.value, OUTPUT_TAIL, true).0))
  {
    hide Get, CopyAll, BoundText, Sorted, Running, Bound;
    var out := Running(input).members;
    CommandTables();
    NoneSorted();
    assert Absent(RUNNING, "output") && Absent(RUNNING, "outputTruncated");
    var c := CopyAll(input, RUNNING, EMPTY).members;
    forall i | 0 <= i < |RUNNING| ensures Get(out, RUNNING[i].key) == Get(c, RUNNING[i].key) {
      RunningGet(input, RUNNING[i].key);
    }
    CopyMirrors(input, out, RUNNING);
    CopyAllAbsent(input, RUNNING, EMPTY, "output");
    RunningGet(input, "output");
  }

  lemma RunningFixed(input: seq<Member>)
    requires RunningLasting(input)
    ensures var out := Running(input).members; Running(out).members == out
    ensures Running(Running(input).members).truncated ==> Running(input).truncated
  {
    hide Get, CopyAll, BoundText, Sorted, Running, Bound, Lasts, RUNNING, LastingFields, Mirrors;
    var out := Running(input).members;
    CommandTables();
    NoneSorted();
    RunningMirrors(input);
    CopyAgain(input, out, RUNNING, EMPTY);
    CopyAllAbsent(input, RUNNING, EMPTY, "output");
    CopyAllAbsent(input, RUNNING, EMPTY, "outputTruncated");
    RunningGet(input, "output");
    RunningGet(input, "outputTruncated");
    var text := Str(input, "output");
    if text.Some? { BoundTextFixedIff(text.value, OUTPUT_TAIL, true); }
    var again := Running(out).members;
    RunningGet(out, "output");
    forall k ensures Get(again, k) == Get(out, k) {
      RunningGet(input, k);
      RunningGet(out, k);
    }
    Extensional(again, out);
  }

  lemma RunningFixedOnly(input: seq<Member>)
    requires OrderedMembers(input)
    requires var out := Running(input).members; Running(out).members == out
    ensures RunningLasting(input)
  {
    hide Get, BoundText, Running, Bound, Lasts, RUNNING, LastingFields, Mirrors, OrderedMembers;
    var out := Running(input).members;
    RunningMirrors(input);
    RunningMirrors(out);
    MirrorLasting(input, out, RUNNING);
    var text := Str(input, "output");
    if text.Some? { BoundTextFixedIff(text.value, OUTPUT_TAIL, true); }
  }

  lemma StreamGet(input: seq<Member>, c: Built, source: string, tail: string, note: string, k: string)
    requires tail != note && Sorted(c.members)
    ensures var text := StreamText(input, source, tail); var s := Stream(input, c, source, tail, note).members;
            Sorted(s)
            && Get(s, k) ==
            if text.Some? && k == note then Some(JBool(Flag(input, note) || BoundText(text.value, OUTPUT_TAIL, true).1))
            else if text.Some? && k == tail then Some(JString(BoundText(text.value, OUTPUT_TAIL, true).0))
            else Get(c.members, k)
  {
    hide Get, Put, BoundText, Sorted;
    var text := StreamText(input, source, tail);
    if text.Some? {
      var (t, cut) := BoundText(text.value, OUTPUT_TAIL, true);
      var m := Put(c.members, tail, JString(t));
      GetPut(c.members, tail, JString(t), k);
      PutSorted(c.members, tail, JString(t));
      GetPut(m, note, JBool(Flag(input, note) || cut), k);
      PutSorted(m, note, JBool(Flag(input, note) || cut));
    }
  }

  /** The projected map holds the stream's tail and flag under their history names, and nothing under the source name. */
  predicate StreamCarried(input: seq<Member>, out: seq<Member>, source: string, tail: string, note: string) {
    var text := StreamText(input, source, tail);
    Get(out, source) == None
    && (text.None? ==> Get(out, tail) == None)
    && (text.Some? ==>
          Get(out, tail) == Some(JString(BoundText(text.value, OUTPUT_TAIL, true).0))
          && Get(out, note) == Some(JBool(Flag(input, note) || BoundText(text.value, OUTPUT_TAIL, true).1)))
  }

  lemma StreamAgain(input: seq<Member>, out: seq<Member>, c: Built, d: Built, source: string, tail: string, note: string)
    requires LastingText(StreamText(input, source, tail), OUTPUT_TAIL, true)
    requires StreamCarried(input, out, source, tail, note) && c.members == d.members && (d.truncated ==> c.truncated)
    ensures Stream(out, d, source, tail, note).members == Stream(input, c, source, tail, note).members
    ensures Stream(out, d, source, tail, note).truncated ==> Stream(input, c, source, tail, note).truncated
  {
    hide Get, Put, BoundText, Lasts;
    var text := StreamText(input, source, tail);
    if text.Some? { BoundTextFixedIff(text.value, OUTPUT_TAIL, true); }
  }

  lemma StreamLasting(input: seq<Member>, out: seq<Member>, source: string, tail: string, note: string)
    requires StreamCarried(input, out, source, tail, note) && StreamCarried(out, out, source, tail, note)
    ensures LastingText(StreamText(input, source, tail), OUTPUT_TAIL, true)
  {
    hide Get, BoundText, Lasts;
    var text := StreamText(input, source, tail);
    if text.Some? { BoundTextFixedIff(text.value, OUTPUT_TAIL, true); }
  }

  predicate StreamKey(k: string) {
    k in ["stdout", "stdoutTail", "stdoutTruncated", "stderr", "stderrTail", "stderrTruncated"]
  }

  lemma ExitedTables()
    ensures forall i :: 0 <= i < |EXITED| ==> !StreamKey(EXITED[i].key) && Absent(EXITED_LATE, EXITED[i].key)
    ensures forall i :: 0 <= i < |EXITED_LATE| ==> !StreamKey(EXITED_LATE[i].key) && Absent(EXITED, EXITED_LATE[i].key)
    ensures forall k :: StreamKey(k) ==> Absent(EXITED, k) && Absent(EXITED_LATE, k)
  {
  }

  function Streams(input: seq<Member>, c: Built): Built {
    Stream(input, Stream(input, c, "stdout", "stdoutTail", "stdoutTruncated"),
           "stderr", "stderrTail", "stderrTruncated")
  }

  lemma StreamsGet(input: seq<Member>, c: Built)
    requires Sorted(c.members) && forall k :: StreamKey(k) ==> Get(c.members, k) == None
    ensures var s := Streams(input, c).members;
            Sorted(s) && (forall k :: !StreamKey(k) ==> Get(s, k) == Get(c.members, k))
            && StreamCarried(input, s, "stdout", "stdoutTail", "stdoutTruncated")
            && StreamCarried(input, s, "stderr", "stderrTail", "stderrTruncated")
  {
    hide Get, BoundText, Sorted, Stream, StreamText;
    var s := Streams(input, c).members;
    forall k | !StreamKey(k) ensures Get(s, k) == Get(c.members, k) { StreamsGetOne(input, c, k); }
    StreamsGetOne(input, c, "stdout");
    StreamsGetOne(input, c, "stdoutTail");
    StreamsGetOne(input, c, "stdoutTruncated");
    StreamsGetOne(input, c, "stderr");
    StreamsGetOne(input, c, "stderrTail");
    StreamsGetOne(input, c, "stderrTruncated");
  }

  lemma StreamsGetOne(input: seq<Member>, c: Built, k: string)
    requires Sorted(c.members)
    ensures var s := Streams(input, c).members;
            var out := StreamText(input, "stdout", "stdoutTail"); var err := StreamText(input, "stderr", "stderrTail");
            Sorted(s)
            && Get(s, k) ==
            if err.Some? && k == "stderrTruncated" then Some(JBool(Flag(input, k) || BoundText(err.value, OUTPUT_TAIL, true).1))
            else if err.Some? && k == "stderrTail" then Some(JString(BoundText(err.value, OUTPUT_TAIL, true).0))
            else if out.Some? && k == "stdoutTruncated" then Some(JBool(Flag(input, k) || BoundText(out.value, OUTPUT_TAIL, true).1))
            else if out.Some? && k == "stdoutTail" then Some(JString(BoundText(out.value, OUTPUT_TAIL, true).0))
            else Get(c.members, k)
  {
    hide Get, BoundText, Sorted, Stream, StreamText;
    StreamGet(input, c, "stdout", "stdoutTail", "stdoutTruncated", k);
    StreamGet(input, Stream(input, c, "stdout", "stdoutTail", "stdoutTruncated"), "stderr", "stderrTail", "stderrTruncated", k);
  }

  /** What an exited result's projection holds, key by key. */
  lemma ExitedGet(input: seq<Member>)
    ensures var out := Exited(input).members;
            Mirrors(input, out, EXITED) && Mirrors(input, out, EXITED_LATE)
            && StreamCarried(input, out, "stdout", "stdoutTail", "stdoutTruncated")
            && StreamCarried(input, out, "stderr", "stderrTail", "stderrTruncated")
    ensures Sorted(Streams(input, CopyAll(input, EXITED, EMPTY)).members)
    ensures Exited(input) == CopyAll(input, EXITED_LATE, Streams(input, CopyAll(input, EXITED, EMPTY)))
  {
    hide Get, CopyAll, BoundText, Sorted, Stream, Bound, StreamKey, EXITED, EXITED_LATE, Distinct, StreamText;
    NoneSorted();
    CommandTables();
    ExitedTables();
    var c := CopyAll(input, EXITED, EMPTY);
    CopyAllShape(input, EXITED, EMPTY);
    forall k | StreamKey(k) ensures Get(c.members, k) == None { CopyAllAbsent(input, EXITED, EMPTY, k); }
    StreamsGet(input, c);
    var s := Streams(input, c);
    var out := Exited(input).members;
    assert out == CopyAll(input, EXITED_LATE, s).members;
    forall i | 0 <= i < |EXITED| ensures Get(out, EXITED[i].key) == Get(c.members, EXITED[i].key) {
      CopyAllAbsent(input, EXITED_LATE, s, EXITED[i].key);
    }
    CopyMirrors(input, out, EXITED);
    forall i | 0 <= i < |EXITED_LATE| ensures Get(out, EXITED_LATE[i].key) == BoundAt(input, EXITED_LATE[i]) {
      CopyAllPresent(input, EXITED_LATE, s, i);
      CopyAllAbsent(input, EXITED, EMPTY, EXITED_LATE[i].key);
    }
    LateStreams(input, s, out);
  }

  lemma LateStreams(input: seq<Member>, s: Built, out: seq<Member>)
    requires out == CopyAll(input, EXITED_LATE, s).members
    requires StreamCarried(input, s.members, "stdout", "stdoutTail", "stdoutTruncated")
    requires StreamCarried(input, s.members, "stderr", "stderrTail", "stderrTruncated")
    ensures StreamCarried(input, out, "stdout", "stdoutTail", "stdoutTruncated")
    ensures StreamCarried(input, out, "stderr", "stderrTail", "stderrTruncated")
  {
    hide Get, CopyAll, BoundText, StreamText, EXITED_LATE;
    ExitedTables();
    forall k | StreamKey(k) ensures Get(out, k) == Get(s.members, k) { CopyAllAbsent(input, EXITED_LATE, s, k); }
  }

  predicate ExitedLasting(input: seq<Member>) {
    LastingFields(input, EXITED) && LastingFields(input, EXITED_LATE)
    && LastingText(StreamText(input, "stdout", "stdoutTail"), OUTPUT_TAIL, true)
    && LastingText(StreamText(input, "stderr", "stderrTail"), OUTPUT_TAIL, true)
  }

  lemma ExitedFixed(input: seq<Member>)
    requires ExitedLasting(input)
    ensures var out := Exited(input).members; Exited(out).members == out
    ensures Exited(Exited(input).members).truncated ==> Exited(input).truncated
  {
    hide Get, CopyAll, LastingFields, LastingText, Sorted, Exited, Bound, EXITED, EXITED_LATE, StreamCarried, Stream, Distinct;
    var out := Exited(input).members;
    ExitedGet(input);
    ExitedGet(out);
    CommandTables();
    NoneSorted();
    CopyAgain(input, out, EXITED, EMPTY);
    var c, d := CopyAll(input, EXITED, EMPTY), CopyAll(out, EXITED, EMPTY);
    CopyAllShape(input, EXITED, EMPTY);
    CopyAllShape(out, EXITED, EMPTY);
    StreamAgain(input, out, c, d, "stdout", "stdoutTail", "stdoutTruncated");
    var c1 := Stream(input, c, "stdout", "stdoutTail", "stdoutTruncated");
    var d1 := Stream(out, d, "stdout", "stdoutTail", "stdoutTruncated");
    StreamAgain(input, out, c1, d1, "stderr", "stderrTail", "stderrTruncated");
    CopyAgain(input, out, EXITED_LATE, Streams(input, c));
    CopyFlagFree(out, EXITED_LATE, Streams(input, c), Streams(out, d));
    CopyAllShape(input, EXITED_LATE, Streams(input, c));
    CopyAllShape(out, EXITED_LATE, Streams(out, d));
  }

  lemma ExitedFixedOnly(input: seq<Member>)
    requires OrderedMembers(input)
    requires var out := Exited(input).members; Exited(out).members == out
    ensures ExitedLasting(input)
  {
    hide Exited, EXITED, EXITED_LATE, StreamCarried, Mirrors, LastingFields, LastingText, OrderedMembers, Streams;
    var out := Exited(input).members;
    ExitedGet(input);
    ExitedGet(out);
    MirrorLasting(input, out, EXITED);
    MirrorLasting(input, out, EXITED_LATE);
    StreamLasting(input, out, "stdout", "stdoutTail", "stdoutTruncated");
    StreamLasting(input, out, "stderr", "stderrTail", "stderrTruncated");
  }

  /** The members copied do not depend on the flag carried along. */
  lemma {:induction false} CopyFlagFree(input: seq<Member>, table: seq<Field>, a: Built, b: Built)
    requires a.members == b.members
    ensures CopyAll(input, table, a).members == CopyAll(input, table, b).members
  {
    hide Get, Put, Bound;
    if table == [] {
    } else {
      CopyFlagFree(input, table[..|table| - 1], a, b);
    }
  }

  lemma MirrorHead(input: seq<Member>, out: seq<Member>, table: seq<Field>)
    requires Mirrors(input, out, table) && |table| > 0 && table[0] == Field("status", TITLE)
    ensures Get(out, "status") == BoundAt(input, Field("status", TITLE))
  {
  }

  predicate RunCommandViewLasting(input: seq<Member>) {
    if Str(input, "status") == Some("rejected") then LastingFields(input, REJECTED)
    else if Str(input, "status") == Some("running") then RunningLasting(input)
    else ExitedLasting(input)
  }

  /** The projected status takes the second pass down the same branch, whatever the texts. */
  lemma SameBranch(input: seq<Member>)
    ensures var out := RunCommandView(input).members;
            (Str(out, "status") == Some("rejected") <==> Str(input, "status") == Some("rejected"))
            && (Str(out, "status") == Some("running") <==> Str(input, "status") == Some("running"))
  {
    hide Str, CopyAll, Running, Exited, EXITED, RUNNING, REJECTED, Distinct, Mirrors, BoundAt;
    var out := RunCommandView(input).members;
    CommandTables();
    if Str(input, "status") == Some("rejected") {
      CopyMirrors(input, out, REJECTED);
      MirrorHead(input, out, REJECTED);
    } else if Str(input, "status") == Some("running") {
      RunningMirrors(input);
      MirrorHead(input, out, RUNNING);
    } else {
      ExitedGet(input);
      MirrorHead(input, out, EXITED);
    }
    StatusKept(input, out, "rejected");
    StatusKept(input, out, "running");
  }

  lemma RunCommandViewFixed(input: seq<Member>)
    requires RunCommandViewLasting(input)
    ensures var out := RunCommandView(input).members; RunCommandView(out).members == out
    ensures RunCommandView(RunCommandView(input).members).truncated ==> RunCommandView(input).truncated
  {
    hide Str, CopyAll, Running, Exited, REJECTED, Distinct, Mirrors, RunningLasting, ExitedLasting, LastingFields;
    CommandTables();
    SameBranch(input);
    if Str(input, "status") == Some("rejected") { CopyFixed(input, RunCommandView(input).members, REJECTED); }
    else if Str(input, "status") == Some("running") { RunningFixed(input); }
    else { ExitedFixed(input); }
  }

  lemma RunCommandViewFixedOnly(input: seq<Member>)
    requires OrderedMembers(input)
    requires var out := RunCommandView(input).members; RunCommandView(out).members == out
    ensures RunCommandViewLasting(input)
  {
    hide Str, CopyAll, Running, Exited, REJECTED, Distinct, OrderedMembers, RunningLasting, ExitedLasting, LastingFields;
    CommandTables();
    SameBranch(input);
    if Str(input, "status") == Some("rejected") { CopyFixedOnly(input, RunCommandView(input).members, REJECTED); }
    else if Str(input, "status") == Some("running") { RunningFixedOnly(input); }
    else { ExitedFixedOnly(input); }
  }

  predicate RunCommandLasting(value: Json) {
    match value case JObject(input) => RunCommandViewLasting(input) case _ => Lasting(value, GENERIC, 0)
  }

  /** A lasting run_command result in history, whether rejected, running or exited, projects to itself. */
  lemma RunCommandResultFixed(value: Json)
    requires RunCommandLasting(value)
    ensures var p := RunCommandResult(value); Repeats(p, RunCommandResult(p.value))
  {
    hide RunCommandView, RunCommandViewLasting;
    if value.JObject? { RunCommandViewFixed(value.members); } else { BoundFixed(value, GENERIC, 0); }
  }

  /** And only a lasting one does. */
  lemma RunCommandResultFixedIff(value: Json)
    requires Ordered(value)
    ensures var p := RunCommandResult(value); var again := RunCommandResult(p.value);
            (again.value == p.value <==> RunCommandLasting(value)) && (again.value == p.value ==> Repeats(p, again))
  {
    hide RunCommandView, RunCommandViewLasting, Ordered, OrderedMembers;
    if RunCommandLasting(value) { RunCommandResultFixed(value); }
    if RunCommandResult(RunCommandResult(value).value).value == RunCommandResult(value).value {
      if value.JObject? {
        ObjectOrdered(value.members);
        RunCommandViewFixedOnly(value.members);
      } else {
        BoundNotObject(value);
        FixedLasting(value, GENERIC, 0);
      }
    }
  }

  // ----- what a reader of history finds in a result

  lemma ReadCovers()
    ensures Covers(READ, READ_SHOWN)
  {
    hide READ, READ_SHOWN, GroupIn, Listed;
    ReadListed();
    ReadGroup(0);
    ReadGroup(1);
    ReadGroup(2);
    CoversByGroup(READ, READ_SHOWN);
  }

  lemma ReadListed()
    ensures |READ_SHOWN| == 3 && forall i :: 0 <= i < |READ| ==> Listed(READ_SHOWN, READ[i].key, READ[i].limit)
  {
    forall i | 0 <= i < |READ| ensures Listed(READ_SHOWN, READ[i].key, READ[i].limit) {
      if READ[i].limit == 2048 { assert READ_SHOWN[0].limit == 2048 && READ[i].key in READ_SHOWN[0].keys; }
      else if READ[i].limit == 512 { assert READ_SHOWN[1].limit == 512 && READ[i].key in READ_SHOWN[1].keys; }
      else { assert READ_SHOWN[2].limit == 2000 && READ[i].key in READ_SHOWN[2].keys; }
    }
  }

  lemma ReadGroup(j: nat)
    requires j < |READ_SHOWN|
    ensures GroupIn(READ, READ_SHOWN[j])
  {
    if j == 0 { } else if j == 1 { } else { }
  }

  lemma WebCovers()
    ensures Covers(WEB_FETCH, WEB_FETCH_SHOWN)
  {
    hide WEB_FETCH, WEB_FETCH_SHOWN, GroupIn, Listed;
    WebListed();
    WebGroup(0);
    WebGroup(1);
    WebGroup(2);
    CoversByGroup(WEB_FETCH, WEB_FETCH_SHOWN);
  }

  lemma WebListed()
    ensures |WEB_FETCH_SHOWN| == 3 && forall i :: 0 <= i < |WEB_FETCH| ==> Listed(WEB_FETCH_SHOWN, WEB_FETCH[i].key, WEB_FETCH[i].limit)
  {
    forall i | 0 <= i < |WEB_FETCH| ensures Listed(WEB_FETCH_SHOWN, WEB_FETCH[i].key, WEB_FETCH[i].limit) {
      if WEB_FETCH[i].limit == 4096 { assert WEB_FETCH_SHOWN[0].limit == 4096 && WEB_FETCH[i].key in WEB_FETCH_SHOWN[0].keys; }
      else if WEB_FETCH[i].limit == 512 { assert WEB_FETCH_SHOWN[1].limit == 512 && WEB_FETCH[i].key in WEB_FETCH_SHOWN[1].keys; }
      else { assert WEB_FETCH_SHOWN[2].limit == 2000 && WEB_FETCH[i].key in WEB_FETCH_SHOWN[2].keys; }
    }
  }

  lemma WebGroup(j: nat)
    requires j < |WEB_FETCH_SHOWN|
    ensures GroupIn(WEB_FETCH, WEB_FETCH_SHOWN[j])
  {
    if j == 0 { } else if j == 1 { } else { }
  }

  lemma RejectedCovers()
    ensures Covers(REJECTED, REJECTED_SHOWN)
  {
    hide REJECTED, REJECTED_SHOWN, GroupIn, Listed;
    RejectedListed();
    RejectedGroup(0);
    RejectedGroup(1);
    CoversByGroup(REJECTED, REJECTED_SHOWN);
  }

  lemma RejectedListed()
    ensures |REJECTED_SHOWN| == 2 && forall i :: 0 <= i < |REJECTED| ==> Listed(REJECTED_SHOWN, REJECTED[i].key, REJECTED[i].limit)
  {
    forall i | 0 <= i < |REJECTED| ensures Listed(REJECTED_SHOWN, REJECTED[i].key, REJECTED[i].limit) {
      if REJECTED[i].limit == 512 { assert REJECTED_SHOWN[0].limit == 512 && REJECTED[i].key in REJECTED_SHOWN[0].keys; }
      else { assert REJECTED_SHOWN[1].limit == 12000 && REJECTED[i].key in REJECTED_SHOWN[1].keys; }
    }
  }

  lemma RejectedGroup(j: nat)
    requires j < |REJECTED_SHOWN|
    ensures GroupIn(REJECTED, REJECTED_SHOWN[j])
  {
    if j == 0 { } else { }
  }

  lemma RunningCovers()
    ensures Covers(RUNNING, RUNNING_SHOWN)
  {
    hide RUNNING, RUNNING_SHOWN, GroupIn, Listed;
    RunningListed();
    RunningGroup(0);
    RunningGroup(1);
    CoversByGroup(RUNNING, RUNNING_SHOWN);
  }

  lemma RunningListed()
    ensures |RUNNING_SHOWN| == 2 && forall i :: 0 <= i < |RUNNING| ==> Listed(RUNNING_SHOWN, RUNNING[i].key, RUNNING[i].limit)
  {
    forall i | 0 <= i < |RUNNING| ensures Listed(RUNNING_SHOWN, RUNNING[i].key, RUNNING[i].limit) {
      if RUNNING[i].limit == 512 { assert RUNNING_SHOWN[0].limit == 512 && RUNNING[i].key in RUNNING_SHOWN[0].keys; }
      else { assert RUNNING_SHOWN[1].limit == 2000 && RUNNING[i].key in RUNNING_SHOWN[1].keys; }
    }
  }

  lemma RunningGroup(j: nat)
    requires j < |RUNNING_SHOWN|
    ensures GroupIn(RUNNING, RUNNING_SHOWN[j])
  {
    if j == 0 { } else { }
  }

  lemma ExitedCovers()
    ensures Covers(EXITED + EXITED_LATE, EXITED_SHOWN)
  {
    hide EXITED, EXITED_LATE, EXITED_SHOWN, GroupIn, Listed;
    ExitedListed();
    ExitedGroup(0);
    ExitedGroup(1);
    ExitedGroup(2);
    CoversByGroup(EXITED + EXITED_LATE, EXITED_SHOWN);
  }

  lemma ExitedListed()
    ensures |EXITED_SHOWN| == 3
    ensures var t := EXITED + EXITED_LATE; forall i :: 0 <= i < |t| ==> Listed(EXITED_SHOWN, t[i].key, t[i].limit)
  {
    var t := EXITED + EXITED_LATE;
    forall i | 0 <= i < |t| ensures Listed(EXITED_SHOWN, t[i].key, t[i].limit) {
      if t[i].limit == 512 { assert EXITED_SHOWN[0].limit == 512 && t[i].key in EXITED_SHOWN[0].keys; }
      else if t[i].limit == 2000 { assert EXITED_SHOWN[1].limit == 2000 && t[i].key in EXITED_SHOWN[1].keys; }
      else { assert EXITED_SHOWN[2].limit == 2048 && t[i].key in EXITED_SHOWN[2].keys; }
    }
  }

  lemma ExitedGroup(j: nat)
    requires j < |EXITED_SHOWN|
    ensures GroupIn(EXITED + EXITED_LATE, EXITED_SHOWN[j])
  {
    if j == 0 { } else if j == 1 { } else { }
  }

  /** The text a body is summarised from: an earlier summary, else the content, else the text. */
  predicate BodyIs(input: seq<Member>, s: string) {
    Get(input, "summary") == Some(JString(s))
    || (Get(input, "summary") == None && Get(input, "content") == Some(JString(s)))
    || (Get(input, "summary") == None && Get(input, "content") == None && Get(input, "text") == Some(JString(s)))
  }

  /** The summary of the body and its flag: set when it was cut now, was marked before, or was never a summary. */
  ghost predicate BodyShown(input: seq<Member>, out: seq<Member>, limit: nat, note: string) {
    (forall s :: BodyIs(input, s) ==>
       Get(out, "summary") == Some(JString(BoundText(s, limit, false).0))
       && Get(out, note) == Some(JBool(BoundText(s, limit, false).1 || Get(input, "summary") == None || Flag(input, note))))
    && ((forall s :: !BodyIs(input, s)) ==> Get(out, "summary") == None && Get(out, note) == None)
  }

  ghost predicate BodyShort(input: seq<Member>, limit: nat, note: string) {
    exists s :: BodyIs(input, s)
      && (BoundText(s, limit, false).1 || Get(input, "summary") == None || Flag(input, note))
  }

  lemma ContentIffBody(input: seq<Member>)
    ensures forall s :: BodyIs(input, s) <==> Content(input) == Some(s)
  {
    hide Get;
  }

  lemma ViewShows(input: seq<Member>, out: seq<Member>, table: seq<Field>, groups: seq<Group>, limit: nat, note: string)
    requires Apart(table, note) && note != "failedResults" && Absent(table, "failedResults") && Covers(table, groups)
    requires Carries(out, View(input, table, limit, note).members)
    ensures Shows(input, out, groups) && BodyShown(input, out, limit, note)
    ensures View(input, table, limit, note).truncated <==> Lost(input, groups) || BodyShort(input, limit, note)
    ensures forall k :: Get(out, k).Some? ==>
              Published(groups, k) || k in ["summary", note, "truncated", "failedResults"]
  {
    hide Get, View, CopyAll, Bound, Content, BoundText, Listed, Published, Apart, Absent, BodyIs, Lossy;
    forall i | 0 <= i < |table|
      ensures Get(out, table[i].key) == Get(CopyAll(input, table, EMPTY).members, table[i].key)
    {
      TableKey(table, note, i);
      ViewGet(input, table, limit, note, table[i].key);
    }
    ApartDistinct(table, note);
    CopyMirrors(input, out, table);
    MirrorsShow(input, out, table, groups);
    LossyIffLost(input, table, groups);
    ViewShape(input, table, limit, note);
    ContentIffBody(input);
    ViewGet(input, table, limit, note, "summary");
    ViewGet(input, table, limit, note, note);
    ApartNote(table, note);
    var v := View(input, table, limit, note).members;
    assert Get(out, "summary") == Get(v, "summary") && Get(out, note) == Get(v, note);
    forall k | Get(out, k).Some? ensures Published(groups, k) || k in ["summary", note, "truncated", "failedResults"] {
      if !Published(groups, k) && k != "truncated" && k != "failedResults" {
        CoveredKeys(table, groups, k);
        ViewGet(input, table, limit, note, k);
      }
    }
  }

  lemma TableKey(table: seq<Field>, note: string, i: nat)
    requires Apart(table, note) && i < |table| && Absent(table, "failedResults")
    ensures table[i].key !in ["summary", note, "truncated", "failedResults"]
  {
    hide Distinct;
  }

  lemma ApartDistinct(table: seq<Field>, note: string)
    requires Apart(table, note)
    ensures Distinct(table)
  {
  }

  lemma ApartNote(table: seq<Field>, note: string)
    requires Apart(table, note)
    ensures note !in ["summary", "truncated"]
  {
  }

  /**
   * What history shows of a read result: every published field bounded under its limit, the body's summary, the
   * truncation mark, and nothing else; the projection reports a loss exactly when one of these lost something.
   */
  lemma ReadShows(input: seq<Member>, p: Projected)
    requires p == ReadResult(JObject(input))
    ensures p.value.JObject? && var out := p.value.members;
            Shows(input, out, READ_SHOWN) && BodyShown(input, out, 1200, "contentTruncatedInHistory")
            && Get(out, "truncated") == Some(JBool(p.truncated || Flag(input, "truncated")))
            && Only(out, READ_SHOWN, ["summary", "contentTruncatedInHistory", "truncated"])
    ensures p.truncated <==> Lost(input, READ_SHOWN) || BodyShort(input, 1200, "contentTruncatedInHistory")
  {
    hide READ, READ_SHOWN, View, Get, Put, Bound, BodyIs, BodyShown, BodyShort, Shows, Lost, Published, Apart;
    var note := "contentTruncatedInHistory";
    ReadTable();
    ReadCovers();
    var v := View(input, READ, READ_SUMMARY, note);
    ClosedCarries(input, v);
    TruncatedMark(input, v);
    ViewShows(input, p.value.members, READ, READ_SHOWN, READ_SUMMARY, note);
    NoFailures(input, v, READ, READ_SUMMARY, note);
  }

  lemma TruncatedMark(input: seq<Member>, c: Built)
    ensures Get(Close(input, c).value.members, "truncated") == Some(JBool(c.truncated || Flag(input, "truncated")))
  {
    hide Get, Put;
    var b := JBool(Flag(input, "truncated") || c.truncated);
    GetPut(c.members, "truncated", b, "truncated");
  }

  lemma NoFailures(input: seq<Member>, v: Built, table: seq<Field>, limit: nat, note: string)
    requires v == View(input, table, limit, note) && Apart(table, note) && note != "failedResults" && Absent(table, "failedResults")
    ensures Get(v.members, "failedResults") == None && Get(Close(input, v).value.members, "failedResults") == None
  {
    hide Get, View, Put, Apart;
    ViewGet(input, table, limit, note, "failedResults");
    ClosedCarries(input, v);
  }

  /** The first ten failed results, each bounded, in order. */
  ghost predicate FailuresShown(input: seq<Member>, out: seq<Member>) {
    match Get(input, "failedResults")
    case Some(JArray(xs)) =>
      (match Get(out, "failedResults")
       case Some(JArray(ys)) =>
         |ys| == (if |xs| <= 10 then |xs| else 10)
         && forall i :: 0 <= i < |ys| ==> ys[i] == Bound(xs[i], 2000, 0).value
       case _ => false)
    case _ => Get(out, "failedResults") == None
  }

  ghost predicate FailuresLost(input: seq<Member>) {
    match Get(input, "failedResults")
    case Some(JArray(xs)) => |xs| > 10 || exists i :: 0 <= i < |xs| && Bound(xs[i], 2000, 0).truncated
    case _ => false
  }

  lemma FailedListShows(xs: seq<Json>)
    ensures var r := FailedList(xs);
            |r.0| == (if |xs| <= 10 then |xs| else 10)
            && (forall i :: 0 <= i < |r.0| ==> r.0[i] == Bound(xs[i], 2000, 0).value)
            && (r.1 <==> |xs| > 10 || exists i :: 0 <= i < |xs| && Bound(xs[i], 2000, 0).truncated)
  {
    hide Bound;
    var n := if |xs| <= FAILED_RESULTS then |xs| else FAILED_RESULTS;
    forall i | 0 <= i < n ensures FailedList(xs).0[i] == Bound(xs[i], 2000, 0).value { BoundItemAt(xs[..n], GENERIC, 0, i); }
    ItemsFlagIff(xs[..n], GENERIC, 0);
    assert |xs| <= 10 ==> xs[..n] == xs;
  }

  lemma {:induction false} ItemsFlagIff(xs: seq<Json>, limit: nat, depth: nat)
    ensures BoundItems(xs, limit, depth).1 <==> exists i :: 0 <= i < |xs| && Bound(xs[i], limit, depth).truncated
    decreases |xs|
  {
    hide Bound;
    if xs == [] {
    } else {
      var front, x := xs[..|xs| - 1], xs[|xs| - 1];
      ItemsFlagIff(front, limit, depth);
      if BoundItems(front, limit, depth).1 {
        var i :| 0 <= i < |front| && Bound(front[i], limit, depth).truncated;
        assert xs[i] == front[i];
      }
      if i :| 0 <= i < |xs| && Bound(xs[i], limit, depth).truncated {
        if i < |front| { assert front[i] == xs[i]; }
      }
    }
  }

  /** The same for a web_fetch result, with the first ten failures. */
  lemma WebFetchShows(input: seq<Member>, p: Projected)
    requires p == WebFetchResult(JObject(input))
    ensures p.value.JObject? && var out := p.value.members;
            Shows(input, out, WEB_FETCH_SHOWN) && BodyShown(input, out, 4000, "bodyTruncatedInHistory")
            && FailuresShown(input, out)
            && Get(out, "truncated") == Some(JBool(p.truncated || Flag(input, "truncated")))
            && Only(out, WEB_FETCH_SHOWN, ["summary", "bodyTruncatedInHistory", "failedResults", "truncated"])
    ensures p.truncated <==>
            Lost(input, WEB_FETCH_SHOWN) || BodyShort(input, 4000, "bodyTruncatedInHistory") || FailuresLost(input)
  {
    hide WEB_FETCH, WEB_FETCH_SHOWN, View, Get, Put, Bound, BodyIs, BodyShown, BodyShort, Shows, Lost, Published, Apart,
      FailedList, Failures, Carries;
    var note := "bodyTruncatedInHistory";
    WebTable();
    WebCovers();
    var v := View(input, WEB_FETCH, SUMMARY, note);
    var f := Failures(input, v);
    var out := p.value.members;
    WebCarries(input, out);
    TruncatedMark(input, f);
    ViewShows(input, out, WEB_FETCH, WEB_FETCH_SHOWN, SUMMARY, note);
    FailuresFlag(input, v);
    match Get(input, "failedResults")
    case Some(JArray(xs)) => FailedListShows(xs);
    case _ =>
  }

  lemma FailuresFlag(input: seq<Member>, c: Built)
    ensures Failures(input, c).truncated <==> c.truncated || FailuresLost(input)
  {
    hide Get, Put, FailedList, Bound;
    match Get(input, "failedResults")
    case Some(JArray(xs)) => FailedListShows(xs);
    case _ =>
  }

  // ----- run_command

  /** A stream's tail under its history name and its flag; nothing where there is no such stream. */
  ghost predicate TailShown(input: seq<Member>, out: seq<Member>, source: string, tail: string, note: string) {
    (forall s :: StreamIs(input, source, tail, s) ==>
       Get(out, tail) == Some(JString(BoundText(s, 3000, true).0))
       && Get(out, note) == Some(JBool(Flag(input, note) || BoundText(s, 3000, true).1)))
    && ((forall s :: !StreamIs(input, source, tail, s)) ==> Get(out, tail) == None)
  }

  /** The stream under its source name, or under its history name where there is no such source. */
  predicate StreamIs(input: seq<Member>, source: string, tail: string, s: string) {
    Get(input, source) == Some(JString(s)) || (Get(input, source) == None && Get(input, tail) == Some(JString(s)))
  }

  lemma StreamTextIff(input: seq<Member>, source: string, tail: string)
    ensures forall s :: StreamIs(input, source, tail, s) <==> StreamText(input, source, tail) == Some(s)
  {
    hide Get;
  }

  lemma CarriedTail(input: seq<Member>, out: seq<Member>, source: string, tail: string, note: string)
    requires StreamCarried(input, out, source, tail, note)
    ensures TailShown(input, out, source, tail, note)
  {
    hide Get, BoundText, StreamIs, StreamText;
    StreamTextIff(input, source, tail);
  }

  lemma RejectedShows(input: seq<Member>, p: Projected)
    requires p == RunCommandResult(JObject(input)) && Get(input, "status") == Some(JString("rejected"))
    ensures p.value.JObject? && Shows(input, p.value.members, REJECTED_SHOWN) && Only(p.value.members, REJECTED_SHOWN, [])
    ensures p.truncated <==> Lost(input, REJECTED_SHOWN)
  {
    hide REJECTED, REJECTED_SHOWN, CopyAll, Get, Bound, Shows, Lost, Published, Distinct, Lossy, Sorted;
    CommandTables();
    RejectedCovers();
    NoneSorted();
    var out := p.value.members;
    CopyMirrors(input, out, REJECTED);
    MirrorsShow(input, out, REJECTED, REJECTED_SHOWN);
    CopyAllShape(input, REJECTED, EMPTY);
    LossyIffLost(input, REJECTED, REJECTED_SHOWN);
    forall k | Get(out, k).Some? ensures Published(REJECTED_SHOWN, k) {
      if !Published(REJECTED_SHOWN, k) {
        CoveredKeys(REJECTED, REJECTED_SHOWN, k);
        CopyAllAbsent(input, REJECTED, EMPTY, k);
      }
    }
  }

  /** The output of a running command: its tail, and a mark that is kept, and set when the output is cut. */
  ghost predicate OutputShown(input: seq<Member>, out: seq<Member>) {
    (forall s :: Get(input, "output") == Some(JString(s)) ==> Get(out, "output") == Some(JString(BoundText(s, 3000, true).0)))
    && (Str(input, "output") == None ==> Get(out, "output") == None)
    && (Get(input, "outputTruncated") == None && !OutputCut(input) ==> Get(out, "outputTruncated") == None)
    && (Get(input, "outputTruncated").Some? || OutputCut(input) ==>
          Get(out, "outputTruncated") == Some(JBool(Flag(input, "outputTruncated") || OutputCut(input))))
  }

  predicate OutputCut(input: seq<Member>) {
    match Get(input, "output") case Some(JString(s)) => BoundText(s, 3000, true).1 case _ => false
  }

  lemma RunningShows(input: seq<Member>, p: Projected)
    requires p == RunCommandResult(JObject(input)) && Get(input, "status") == Some(JString("running"))
    ensures p.value.JObject? && Shows(input, p.value.members, RUNNING_SHOWN) && OutputShown(input, p.value.members)
            && Only(p.value.members, RUNNING_SHOWN, ["output", "outputTruncated"])
    ensures p.truncated <==> Lost(input, RUNNING_SHOWN) || OutputCut(input)
  {
    hide RUNNING, RUNNING_SHOWN, Get, Shows, Lost, Lossy, Running, Mirrors, OutputShown, OutputCut, Only, Covers;
    RunningCovers();
    NotBoth(input);
    RunningMirrors(input);
    MirrorsShow(input, p.value.members, RUNNING, RUNNING_SHOWN);
    LossyIffLost(input, RUNNING, RUNNING_SHOWN);
    RunningOutput(input);
    RunningOnly(input);
  }

  lemma RunningOutput(input: seq<Member>)
    ensures OutputShown(input, Running(input).members)
    ensures Running(input).truncated <==> Lossy(input, RUNNING) || OutputCut(input)
  {
    hide RUNNING, CopyAll, Get, BoundText, Lossy, Sorted, Running, Absent;
    NoneSorted();
    RunningMirrors(input);
    RunningGet(input, "output");
    RunningGet(input, "outputTruncated");
    CopyAllAbsent(input, RUNNING, EMPTY, "outputTruncated");
  }

  lemma RunningOnly(input: seq<Member>)
    ensures Only(Running(input).members, RUNNING_SHOWN, ["output", "outputTruncated"])
  {
    hide RUNNING, RUNNING_SHOWN, CopyAll, Get, BoundText, Published, Sorted, Running, Covers, Absent;
    RunningCovers();
    NoneSorted();
    var out := Running(input).members;
    forall k | Get(out, k).Some? ensures Published(RUNNING_SHOWN, k) || k in ["output", "outputTruncated"] {
      RunningGet(input, k);
      if !Published(RUNNING_SHOWN, k) {
        CoveredKeys(RUNNING, RUNNING_SHOWN, k);
        CopyAllAbsent(input, RUNNING, EMPTY, k);
      }
    }
  }

  lemma NotBoth(input: seq<Member>)
    requires Get(input, "status") == Some(JString("running"))
    ensures Str(input, "status") == Some("running") && Str(input, "status") != Some("rejected")
  {
    hide Get;
  }

  /** What history shows of a finished command; in particular its exit code and the other plain facts as they are. */
  lemma ExitedShows(input: seq<Member>, p: Projected)
    requires p == RunCommandResult(JObject(input)) && Finished(input)
    ensures p.value.JObject? && Shows(input, p.value.members, EXITED_SHOWN)
    ensures var out := p.value.members;
            TailShown(input, out, "stdout", "stdoutTail", "stdoutTruncated")
            && TailShown(input, out, "stderr", "stderrTail", "stderrTruncated")
            && Only(out, EXITED_SHOWN, ["stdoutTail", "stdoutTruncated", "stderrTail", "stderrTruncated"])
    ensures p.truncated <==>
            Lost(input, EXITED_SHOWN) || StreamCut(input, "stdout", "stdoutTail") || StreamCut(input, "stderr", "stderrTail")
    ensures forall k :: k in ["exitCode", "timedOut", "cancelled", "durationMs"] && Get(input, k).Some? && Scalar(Get(input, k).value)
              ==> Get(p.value.members, k) == Get(input, k)
  {
    hide EXITED, EXITED_LATE, EXITED_SHOWN, Get, Bound, BoundText, Shows, Lost, Published, Exited, Mirrors, StreamCarried,
      Streams, Lossy, Covers, CopyAll, TailShown, StreamCut, Only;
    var out := p.value.members;
    NotOther(input);
    ExitedGet(input);
    ExitedCovers();
    MirrorBoth(input, out);
    MirrorsShow(input, out, EXITED + EXITED_LATE, EXITED_SHOWN);
    CarriedTail(input, out, "stdout", "stdoutTail", "stdoutTruncated");
    CarriedTail(input, out, "stderr", "stderrTail", "stderrTruncated");
    ExitedFlag(input);
    ExitedOnly(input);
    forall k | k in ["exitCode", "timedOut", "cancelled", "durationMs"] && Get(input, k).Some? && Scalar(Get(input, k).value)
      ensures Get(out, k) == Get(input, k)
    {
      PlainFacts(k);
      ScalarShown(input, out, EXITED_SHOWN, k);
    }
  }

  lemma PlainFacts(k: string)
    requires k in ["exitCode", "timedOut", "cancelled", "durationMs"]
    ensures Published(EXITED_SHOWN, k)
  {
    assert k in EXITED_SHOWN[1].keys;
  }

  predicate StreamCut(input: seq<Member>, source: string, tail: string) {
    var text := StreamText(input, source, tail);
    text.Some? && BoundText(text.value, 3000, true).1
  }

  /** Neither rejected nor still running. */
  predicate Finished(input: seq<Member>) {
    Get(input, "status") != Some(JString("rejected")) && Get(input, "status") != Some(JString("running"))
  }

  lemma NotOther(input: seq<Member>)
    requires Finished(input)
    ensures Str(input, "status") != Some("rejected") && Str(input, "status") != Some("running")
  {
    hide Get;
  }

  lemma MirrorBoth(input: seq<Member>, out: seq<Member>)
    requires Mirrors(input, out, EXITED) && Mirrors(input, out, EXITED_LATE)
    ensures Mirrors(input, out, EXITED + EXITED_LATE)
  {
    hide EXITED, EXITED_LATE, Get, BoundAt;
  }

  lemma StreamFlag(input: seq<Member>, c: Built, source: string, tail: string, note: string)
    ensures Stream(input, c, source, tail, note).truncated <==> c.truncated || StreamCut(input, source, tail)
  {
    hide Get, Put, BoundText;
  }

  lemma LossyBoth(input: seq<Member>, a: seq<Field>, b: seq<Field>)
    ensures Lossy(input, a + b) <==> Lossy(input, a) || Lossy(input, b)
  {
    hide LossyAt;
    if Lossy(input, a) { var i :| 0 <= i < |a| && LossyAt(input, a[i]); assert (a + b)[i] == a[i]; }
    if Lossy(input, b) { var i :| 0 <= i < |b| && LossyAt(input, b[i]); assert (a + b)[|a| + i] == b[i]; }
    if Lossy(input, a + b) {
      var i :| 0 <= i < |a + b| && LossyAt(input, (a + b)[i]);
      if i < |a| { assert a[i] == (a + b)[i]; } else { assert b[i - |a|] == (a + b)[i]; }
    }
  }

  lemma ExitedFlag(input: seq<Member>)
    ensures Exited(input).truncated <==>
            Lost(input, EXITED_SHOWN) || StreamCut(input, "stdout", "stdoutTail") || StreamCut(input, "stderr", "stderrTail")
  {
    hide EXITED, EXITED_LATE, EXITED_SHOWN, CopyAll, Stream, StreamCut, Lossy, Lost, Sorted, Covers, Get;
    var c := CopyAll(input, EXITED, EMPTY);
    NoneSorted();
    ExitedGet(input);
    CopyAllShape(input, EXITED, EMPTY);
    StreamFlag(input, c, "stdout", "stdoutTail", "stdoutTruncated");
    StreamFlag(input, Stream(input, c, "stdout", "stdoutTail", "stdoutTruncated"), "stderr", "stderrTail", "stderrTruncated");
    CopyAllShape(input, EXITED_LATE, Streams(input, c));
    LossyBoth(input, EXITED, EXITED_LATE);
    ExitedCovers();
    LossyIffLost(input, EXITED + EXITED_LATE, EXITED_SHOWN);
  }

  lemma ExitedOnly(input: seq<Member>)
    ensures Only(Exited(input).members, EXITED_SHOWN, ["stdoutTail", "stdoutTruncated", "stderrTail", "stderrTruncated"])
  {
    hide EXITED, EXITED_LATE, EXITED_SHOWN, CopyAll, Get, BoundText, Published, Stream, StreamText, Sorted, Covers;
    var c := CopyAll(input, EXITED, EMPTY);
    var out := Exited(input).members;
    NoneSorted();
    ExitedGet(input);
    CopyAllShape(input, EXITED, EMPTY);
    ExitedCovers();
    forall k | Get(out, k).Some?
      ensures Published(EXITED_SHOWN, k) || k in ["stdoutTail", "stdoutTruncated", "stderrTail", "stderrTruncated"]
    {
      if !Published(EXITED_SHOWN, k) {
        CoveredKeys(EXITED + EXITED_LATE, EXITED_SHOWN, k);
        AbsentBoth(k);
        CopyAllAbsent(input, EXITED_LATE, Streams(input, c), k);
        CopyAllAbsent(input, EXITED, EMPTY, k);
        StreamsGetOne(input, c, k);
      }
    }
  }

  lemma AbsentBoth(k: string)
    requires Absent(EXITED + EXITED_LATE, k)
    ensures Absent(EXITED, k) && Absent(EXITED_LATE, k)
  {
    hide EXITED, EXITED_LATE;
    var t := EXITED + EXITED_LATE;
    forall i | 0 <= i < |EXITED| ensures EXITED[i].key != k { assert t[i] == EXITED[i]; }
    forall i | 0 <= i < |EXITED_LATE| ensures EXITED_LATE[i].key != k { assert t[|EXITED| + i] == EXITED_LATE[i]; }
  }

  /** Where a projection reports no loss, every published field is in history exactly as it was. */
  lemma UnreportedKept(input: seq<Member>, value: Json)
    requires value == JObject(input) && Ordered(value)
    ensures var p := ReadResult(value); p.value.JObject? && (!p.truncated ==> KeepsAll(input, p.value.members, READ_SHOWN))
    ensures var p := WebFetchResult(value); p.value.JObject? && (!p.truncated ==> KeepsAll(input, p.value.members, WEB_FETCH_SHOWN))
    ensures var p := RunCommandResult(value);
            p.value.JObject?
            && (!p.truncated && Finished(input) ==> KeepsAll(input, p.value.members, EXITED_SHOWN))
  {
    hide READ_SHOWN, WEB_FETCH_SHOWN, EXITED_SHOWN, ReadResult, WebFetchResult, RunCommandResult, Shows, Lost, KeepsAll, Only,
      BodyShown, BodyShort, FailuresShown, FailuresLost, TailShown, StreamCut, Get, Ordered, OrderedMembers;
    ObjectOrdered(input);
    var p, q, r := ReadResult(value), WebFetchResult(value), RunCommandResult(value);
    ReadShows(input, p);
    WebFetchShows(input, q);
    if !p.truncated { UnlostKept(input, p.value.members, READ_SHOWN); }
    if !q.truncated { UnlostKept(input, q.value.members, WEB_FETCH_SHOWN); }
    CommandIsObject(input);
    if !r.truncated && Finished(input) {
      ExitedShows(input, r);
      UnlostKept(input, r.value.members, EXITED_SHOWN);
    }
  }

  /** What is not an object is bounded like any other value. */
  lemma OthersBounded(value: Json)
    requires !value.JObject?
    ensures ReadResult(value) == WebFetchResult(value) == RunCommandResult(value) == Bound(value, 2000, 0)
  {
  }

  lemma CommandIsObject(input: seq<Member>)
    ensures RunCommandResult(JObject(input)).value.JObject?
  {
  }

  // ----- results that a second projection redacts further

  lemma TextOrdered(v: string)
    ensures Ordered(JString(v))
  {
  }

  lemma ReadSecondPassRedacts(v: string)
    requires Nested(v)
    ensures var p := ReadResult(JObject([Member("content", JString(v))])); ReadResult(p.value).value != p.value
  {
    hide Nested, Lasts, Get, Ordered, ReadResult, READ;
    SingleMember("content", JString(v)) by { TextOrdered(v); }
    NestedLastsIff(v, READ_SUMMARY, false);
    ReadResultFixedIff(JObject([Member("content", JString(v))]));
  }

  lemma WebFetchSecondPassRedacts(v: string)
    requires Nested(v)
    ensures var p := WebFetchResult(JObject([Member("content", JString(v))])); WebFetchResult(p.value).value != p.value
  {
    hide Nested, Lasts, Get, Ordered, WebFetchResult, WEB_FETCH;
    SingleMember("content", JString(v)) by { TextOrdered(v); }
    NestedLastsIff(v, SUMMARY, false);
    WebFetchResultFixedIff(JObject([Member("content", JString(v))]));
  }

  lemma RunCommandSecondPassRedacts(v: string)
    requires Nested(v)
    ensures var p := RunCommandResult(JObject([Member("stdout", JString(v))])); RunCommandResult(p.value).value != p.value
  {
    hide Nested, Lasts, Get, Ordered, RunCommandResult, EXITED, EXITED_LATE;
    SingleMember("stdout", JString(v)) by { TextOrdered(v); }
    NestedLastsIff(v, OUTPUT_TAIL, true);
    RunCommandResultFixedIff(JObject([Member("stdout", JString(v))]));
  }

  // ----- values settled by one redaction pass

  /** Where every text settles in one pass, all three projections are fixed points. */
  lemma StableResultsFixed(value: Json)
    requires StableTexts(value)
    ensures ReadLasting(value) && WebFetchLasting(value) && RunCommandLasting(value)
    ensures var p := ReadResult(value); Repeats(p, ReadResult(p.value))
    ensures var p := WebFetchResult(value); Repeats(p, WebFetchResult(p.value))
    ensures var p := RunCommandResult(value); Repeats(p, RunCommandResult(p.value))
  {
    hide ReadResult, WebFetchResult, RunCommandResult, RunCommandViewLasting, StableTexts, StableMembers,
      LastingFields, LastingText, LastingFailures, READ, WEB_FETCH;
    if value.JObject? {
      var input := value.members;
      ObjectStable(input);
      StableFields(input, READ);
      StableFields(input, WEB_FETCH);
      StableContent(input, READ_SUMMARY);
      StableContent(input, SUMMARY);
      StableFailures(input);
      StableCommand(input);
    } else {
      StableLasting(value, GENERIC, 0);
    }
    ReadResultFixed(value);
    WebFetchResultFixed(value);
    RunCommandResultFixed(value);
  }

  lemma StableFailures(input: seq<Member>)
    requires StableMembers(input)
    ensures LastingFailures(input)
  {
    hide Get, Lasting;
    match Get(input, "failedResults")
    case Some(JArray(xs)) => forall i | 0 <= i < |xs| ensures Lasting(xs[i], GENERIC, 0) { StableLasting(xs[i], GENERIC, 0); }
    case _ =>
  }

  lemma StableCommand(input: seq<Member>)
    requires StableMembers(input)
    ensures RunCommandViewLasting(input)
  {
    hide Get, Str, StableMembers, LastingFields, LastingText, REJECTED, RUNNING, EXITED, EXITED_LATE;
    StableFields(input, REJECTED);
    StableFields(input, RUNNING);
    StableFields(input, EXITED);
    StableFields(input, EXITED_LATE);
    StableText(input, "output", OUTPUT_TAIL, true);
    StableText(input, "stdout", OUTPUT_TAIL, true);
    StableText(input, "stdoutTail", OUTPUT_TAIL, true);
    StableText(input, "stderr", OUTPUT_TAIL, true);
    StableText(input, "stderrTail", OUTPUT_TAIL, true);
  }
}
