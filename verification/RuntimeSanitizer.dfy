/** `sanitize_runtime_value`: the binary-only sanitizer of current-turn and checkpoint projections. */
module RuntimeSanitizer {
  import opened Prelude
  import opened Text
  import opened Json
  import opened Redaction
  import opened TraceProjection

  /** The data-URL test on a whole text. */
  predicate WholeDataUrl(s: string) {
    TagAt(TrimStart(s), 0, Data) && Find(s, Header) >= 0
  }

  predicate RuntimeBinaryKey(key: string) {
    Contains(CanonicalKey(key), "base64") || Contains(CanonicalKey(key), "dataurl")
  }

  function Sanitize(value: Json): Projected
    decreases value, 0
  {
    match value
    case JObject(ms) => var r := SanitizeMembers(ms); Projected(JObject(r.0), r.1)
    case JArray(xs) => var r := SanitizeItems(xs); Projected(JArray(r.0), r.1)
    case JString(s) => if WholeDataUrl(s) then Projected(JString(MARKER), true) else Projected(value, false)
    case _ => Projected(value, false)
  }

  function SanitizeField(m: Member): Projected
    decreases m, 1
  {
    if RuntimeBinaryKey(m.key) then Projected(JString(MARKER), true)
    else if OmissionNote(m.key, m.value) then Projected(m.value, true)
    else Sanitize(m.value)
  }

  function SanitizeMembers(ms: seq<Member>): (seq<Member>, bool)
    decreases ms, 1
  {
    if ms == [] then ([], false)
    else
      var m := ms[|ms| - 1];
      var (out, redacted) := SanitizeMembers(ms[..|ms| - 1]);
      var p := SanitizeField(m);
      (Put(out, m.key, p.value), redacted || p.truncated)
  }

  function SanitizeItems(xs: seq<Json>): (r: (seq<Json>, bool))
    ensures |r.0| == |xs|
    decreases xs, 1
  {
    if xs == [] then ([], false)
    else
      var (out, redacted) := SanitizeItems(xs[..|xs| - 1]);
      var p := Sanitize(xs[|xs| - 1]);
      (out + [p.value], redacted || p.truncated)
  }

  /** No text at any depth is still a data URL, and no binary-named field holds anything but the marker. */
  predicate Sanitized(value: Json) {
    match value
    case JString(s) => !WholeDataUrl(s)
    case JObject(ms) =>
      forall m :: m in ms ==> Sanitized(m.value) && (RuntimeBinaryKey(m.key) ==> m.value == JString(MARKER))
    case JArray(xs) => forall x :: x in xs ==> Sanitized(x)
    case _ => true
  }

  lemma MarkerPlain()
    ensures !WholeDataUrl(MARKER)
  {
    MarkerFacts();
  }

  /** Whatever the input, the output is sanitized and in key order. */
  lemma {:induction false} SanitizeCleans(value: Json)
    ensures Sanitized(Sanitize(value).value) && Ordered(Sanitize(value).value)
    decreases value, 0
  {
    hide WholeDataUrl, RuntimeBinaryKey, OmissionNote, Less;
    match value
    case JObject(ms) => MembersClean(ms);
    case JArray(xs) => ItemsClean(xs);
    case JString(s) => MarkerPlain();
    case _ =>
  }

  lemma {:induction false} ItemsClean(xs: seq<Json>)
    ensures forall x :: x in SanitizeItems(xs).0 ==> Sanitized(x) && Ordered(x)
    decreases xs, 1
  {
    hide WholeDataUrl, RuntimeBinaryKey, OmissionNote, Less;
    if xs == [] {
    } else {
      ItemsClean(xs[..|xs| - 1]);
      SanitizeCleans(xs[|xs| - 1]);
    }
  }

  lemma {:induction false} MembersClean(ms: seq<Member>)
    ensures var r := SanitizeMembers(ms).0;
            Sorted(r) && forall m :: m in r ==> Sanitized(m.value) && Ordered(m.value)
                                                && (RuntimeBinaryKey(m.key) ==> m.value == JString(MARKER))
    decreases ms, 1
  {
    hide WholeDataUrl, RuntimeBinaryKey, OmissionNote, Less;
    if ms == [] {
    } else {
      var m := ms[|ms| - 1];
      MembersClean(ms[..|ms| - 1]);
      SanitizeCleans(m.value);
      MarkerPlain();
      NoteTrue(m);
      PutSorted(SanitizeMembers(ms[..|ms| - 1]).0, m.key, SanitizeField(m).value);
    }
  }

  lemma NoteTrue(m: Member)
    ensures OmissionNote(m.key, m.value) ==> m.value == JBool(true)
  {
  }

  /** A sanitized value in key order is left exactly as it is. */
  lemma {:induction false} SanitizedKept(value: Json)
    requires Sanitized(value) && Ordered(value)
    ensures Sanitize(value).value == value
    decreases value, 0
  {
    hide WholeDataUrl, RuntimeBinaryKey, OmissionNote, Less;
    match value
    case JObject(ms) => MembersKept(ms);
    case JArray(xs) => ItemsKept(xs);
    case _ =>
  }

  lemma {:induction false} ItemsKept(xs: seq<Json>)
    requires forall x :: x in xs ==> Sanitized(x) && Ordered(x)
    ensures SanitizeItems(xs).0 == xs
    decreases xs, 1
  {
    hide WholeDataUrl, RuntimeBinaryKey, OmissionNote, Less;
    if xs == [] {
    } else {
      ItemsKept(xs[..|xs| - 1]);
      SanitizedKept(xs[|xs| - 1]);
      assert xs[..|xs| - 1] + [xs[|xs| - 1]] == xs;
    }
  }

  lemma {:induction false} MembersKept(ms: seq<Member>)
    requires Sorted(ms) && forall m :: m in ms ==> Sanitized(m.value) && Ordered(m.value)
                                                   && (RuntimeBinaryKey(m.key) ==> m.value == JString(MARKER))
    ensures SanitizeMembers(ms).0 == ms
    decreases ms, 1
  {
    hide WholeDataUrl, RuntimeBinaryKey, OmissionNote, Less;
    if ms == [] {
    } else {
      var front, m := ms[..|ms| - 1], ms[|ms| - 1];
      MembersKept(front);
      SanitizedKept(m.value);
      PutLast(front, m.key, m.value);
      assert front + [m] == ms;
    }
  }

  lemma SanitizeIdempotent(value: Json)
    ensures Sanitize(Sanitize(value).value).value == Sanitize(value).value
  {
    SanitizeCleans(value);
    SanitizedKept(Sanitize(value).value);
  }

  /** When nothing is reported, nothing was changed. */
  lemma {:induction false} UnflaggedKept(value: Json)
    requires Ordered(value) && !Sanitize(value).truncated
    ensures Sanitize(value).value == value
    decreases value, 0
  {
    hide WholeDataUrl, RuntimeBinaryKey, OmissionNote, Less;
    match value
    case JObject(ms) => MembersUnflagged(ms);
    case JArray(xs) => ItemsUnflagged(xs);
    case _ =>
  }

  lemma {:induction false} ItemsUnflagged(xs: seq<Json>)
    requires (forall x :: x in xs ==> Ordered(x)) && !SanitizeItems(xs).1
    ensures SanitizeItems(xs).0 == xs
    decreases xs, 1
  {
    hide WholeDataUrl, RuntimeBinaryKey, OmissionNote, Less;
    if xs == [] {
    } else {
      ItemsUnflagged(xs[..|xs| - 1]);
      UnflaggedKept(xs[|xs| - 1]);
      assert xs[..|xs| - 1] + [xs[|xs| - 1]] == xs;
    }
  }

  lemma {:induction false} MembersUnflagged(ms: seq<Member>)
    requires Sorted(ms) && (forall m :: m in ms ==> Ordered(m.value)) && !SanitizeMembers(ms).1
    ensures SanitizeMembers(ms).0 == ms
    decreases ms, 1
  {
    hide WholeDataUrl, RuntimeBinaryKey, OmissionNote, Less;
    if ms == [] {
    } else {
      var front, m := ms[..|ms| - 1], ms[|ms| - 1];
      MembersUnflagged(front);
      UnflaggedKept(m.value);
      PutLast(front, m.key, m.value);
      assert front + [m] == ms;
    }
  }

  // ----- what is reported, and what is taken

  /** Nothing to take: no data URL, no binary-named field and no earlier omission anywhere. */
  predicate Clean(value: Json) {
    match value
    case JString(s) => !WholeDataUrl(s)
    case JArray(xs) => forall i :: 0 <= i < |xs| ==> Clean(xs[i])
    case JObject(ms) =>
      forall i :: 0 <= i < |ms| ==>
        !RuntimeBinaryKey(ms[i].key) && !OmissionNote(ms[i].key, ms[i].value) && Clean(ms[i].value)
    case _ => true
  }

  /** Something is reported exactly when there was something to take. */
  lemma {:induction false} SanitizeFlagIff(value: Json)
    ensures Sanitize(value).truncated <==> !Clean(value)
    decreases value, 0
  {
    hide WholeDataUrl, RuntimeBinaryKey, OmissionNote;
    match value
    case JObject(ms) =>
      MembersFlagIff(ms);
      CleanObject(ms);
    case JArray(xs) => ItemsFlagIff(xs);
    case _ =>
  }

  lemma {:induction false} ItemsFlagIff(xs: seq<Json>)
    ensures SanitizeItems(xs).1 <==> exists i :: 0 <= i < |xs| && !Clean(xs[i])
    decreases xs, 1
  {
    hide WholeDataUrl, RuntimeBinaryKey, OmissionNote;
    if xs == [] {
    } else {
      var front, x := xs[..|xs| - 1], xs[|xs| - 1];
      ItemsFlagIff(front);
      SanitizeFlagIff(x);
      assert xs == front + [x];
      if i :| 0 <= i < |front| && !Clean(front[i]) { assert xs[i] == front[i]; }
      if i :| 0 <= i < |xs| && !Clean(xs[i]) { if i < |front| { assert front[i] == xs[i]; } }
    }
  }

  predicate CleanField(m: Member) {
    !RuntimeBinaryKey(m.key) && !OmissionNote(m.key, m.value) && Clean(m.value)
  }

  lemma CleanObject(ms: seq<Member>)
    ensures Clean(JObject(ms)) <==> forall i :: 0 <= i < |ms| ==> CleanField(ms[i])
  {
    hide WholeDataUrl, RuntimeBinaryKey, OmissionNote;
  }

  lemma DirtySnoc(front: seq<Member>, m: Member)
    ensures (forall i :: 0 <= i < |front + [m]| ==> CleanField((front + [m])[i])) <==>
            (forall i :: 0 <= i < |front| ==> CleanField(front[i])) && CleanField(m)
  {
    hide CleanField;
    var ms := front + [m];
    if forall i :: 0 <= i < |ms| ==> CleanField(ms[i]) {
      forall i | 0 <= i < |front| ensures CleanField(front[i]) { assert ms[i] == front[i]; }
      assert ms[|front|] == m;
    }
  }

  lemma {:induction false} MembersFlagIff(ms: seq<Member>)
    ensures !SanitizeMembers(ms).1 <==> forall i :: 0 <= i < |ms| ==> CleanField(ms[i])
    decreases ms, 1
  {
    hide WholeDataUrl, RuntimeBinaryKey, OmissionNote, Put, Sanitize, Clean;
    if ms == [] {
    } else {
      var front, m := ms[..|ms| - 1], ms[|ms| - 1];
      MembersFlagIff(front);
      SanitizeFlagIff(m.value);
      assert ms == front + [m];
      DirtySnoc(front, m);
    }
  }

  /** Under every key stands the marker, an earlier note, or the sanitized field that stood there. */
  lemma {:induction false} SanitizeMembersGet(ms: seq<Member>, k: string)
    requires DistinctKeys(ms)
    ensures Get(SanitizeMembers(ms).0, k) ==
            match Get(ms, k)
            case None => None
            case Some(v) =>
              if RuntimeBinaryKey(k) then Some(JString("[binary/base64 omitted]"))
              else if OmissionNote(k, v) then Some(JBool(true)) else Some(Sanitize(v).value)
    decreases ms, 1
  {
    hide WholeDataUrl, RuntimeBinaryKey, Get, Put, Sanitize;
    if ms == [] {
      GetNone(k);
    } else {
      var front, m := ms[..|ms| - 1], ms[|ms| - 1];
      SanitizeMembersGet(front, k);
      assert front + [m] == ms;
      GetSnoc(front, m, k);
      GetPut(SanitizeMembers(front).0, m.key, SanitizeField(m).value, k);
    }
  }

  /** A text is replaced whole when, after white space, it starts with `data:` and has a base64 header anywhere. */
  lemma SanitizeText(s: string)
    ensures Sanitize(JString(s)) ==
            if TagAt(TrimStart(s), 0, Data) && Find(s, Header) >= 0 then Projected(JString("[binary/base64 omitted]"), true)
            else Projected(JString(s), false)
    ensures DataUrl(s) ==> Sanitize(JString(s)).truncated
  {
    hide Find, HeaderReach;
    if DataUrl(s) {
      var h := HeaderFound(s);
      TagNotWhite(s);
    }
  }

  lemma TagNotWhite(s: string)
    requires TagAt(s, 0, Data)
    ensures TrimStart(s) == s
  {
  }

  lemma RuntimeBinaryKeyIff(key: string)
    ensures RuntimeBinaryKey(key) <==> Contains(CanonicalKey(key), "base64") || Contains(CanonicalKey(key), "dataurl")
  {
  }
}
