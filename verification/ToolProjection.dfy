/** The per-tool history projections: field tables, renamed fields and sticky truncation flags. */
module ToolProjection {
  import opened Prelude
  import opened Json
  import opened Redaction
  import opened TraceProjection

  const PATH := 2048
  const URL := 4096
  const TITLE := 512
  const ERROR := 2000
  const GENERIC := 2000
  const SUMMARY := 4000
  const READ_SUMMARY := 1200
  const COMMAND := 2000
  const OUTPUT_TAIL := 3000
  const GUIDANCE := 12000
  const FAILED_RESULTS := 10

  /** A field a tool's projection copies, with the text limit it is copied under. */
  datatype Field = Field(key: string, limit: nat)

  /** The `output` map being filled and the `truncated` flag. */
  datatype Built = Built(members: seq<Member>, truncated: bool)

  const EMPTY := Built([], false)

  // ----- copying a table of fields

  function CopyField(input: seq<Member>, out: Built, f: Field): Built {
    match Get(input, f.key)
    case None => out
    case Some(v) =>
      var p := Bound(v, f.limit, 0);
      Built(Put(out.members, f.key, p.value), out.truncated || p.truncated)
  }

  function CopyAll(input: seq<Member>, table: seq<Field>, out: Built): Built {
    if table == [] then out
    else CopyField(input, CopyAll(input, table[..|table| - 1], out), table[|table| - 1])
  }

  /** The loop over a field table. */
  method CopyFields(input: seq<Member>, table: seq<Field>, out: Built) returns (r: Built)
    ensures r == CopyAll(input, table, out)
  {
    r := out;
    for i := 0 to |table|
      invariant r == CopyAll(input, table[..i], out)
    {
      assert table[..i + 1][..i] == table[..i];
      r := CopyField(input, r, table[i]);
    }
    assert table[..|table|] == table;
  }

  predicate Absent(table: seq<Field>, k: string) {
    forall i :: 0 <= i < |table| ==> table[i].key != k
  }

  predicate Distinct(table: seq<Field>) {
    forall i, j :: 0 <= i < j < |table| ==> table[i].key != table[j].key
  }

  function BoundAt(input: seq<Member>, f: Field): Option<Json> {
    match Get(input, f.key) case None => None case Some(v) => Some(Bound(v, f.limit, 0).value)
  }

  /** Some copied field lost something. */
  predicate Lossy(input: seq<Member>, table: seq<Field>) {
    exists i :: 0 <= i < |table| && LossyAt(input, table[i])
  }

  predicate LossyAt(input: seq<Member>, f: Field) {
    match Get(input, f.key) case None => false case Some(v) => Bound(v, f.limit, 0).truncated
  }

  lemma {:induction false} CopyAllAbsent(input: seq<Member>, table: seq<Field>, out: Built, k: string)
    requires Absent(table, k)
    ensures Get(CopyAll(input, table, out).members, k) == Get(out.members, k)
  {
    hide Bound, Get, Put;
    if table == [] {
    } else {
      var front, f := table[..|table| - 1], table[|table| - 1];
      CopyAllAbsent(input, front, out, k);
      var c := CopyAll(input, front, out);
      if Get(input, f.key).Some? { GetPut(c.members, f.key, Bound(Get(input, f.key).value, f.limit, 0).value, k); }
    }
  }

  lemma {:induction false} CopyAllPresent(input: seq<Member>, table: seq<Field>, out: Built, i: nat)
    requires Distinct(table) && i < |table|
    ensures Get(CopyAll(input, table, out).members, table[i].key) ==
            if Get(input, table[i].key).Some? then BoundAt(input, table[i]) else Get(out.members, table[i].key)
  {
    hide Bound, Get, Put;
    var front, f := table[..|table| - 1], table[|table| - 1];
    var c := CopyAll(input, front, out);
    if i < |front| { CopyAllPresent(input, front, out, i); } else { CopyAllAbsent(input, front, out, f.key); }
    if Get(input, f.key).Some? {
      GetPut(c.members, f.key, Bound(Get(input, f.key).value, f.limit, 0).value, table[i].key);
    }
  }

  lemma {:induction false} CopyAllShape(input: seq<Member>, table: seq<Field>, out: Built)
    requires Sorted(out.members)
    ensures var c := CopyAll(input, table, out);
            Sorted(c.members) && (c.truncated <==> out.truncated || Lossy(input, table))
  {
    hide Bound, Get, Put, Sorted;
    if table == [] {
    } else {
      var front, f := table[..|table| - 1], table[|table| - 1];
      CopyAllShape(input, front, out);
      var c := CopyAll(input, front, out);
      if Get(input, f.key).Some? { PutSorted(c.members, f.key, Bound(Get(input, f.key).value, f.limit, 0).value); }
      if Lossy(input, front) {
        var i :| 0 <= i < |front| && LossyAt(input, front[i]);
        assert table[i] == front[i];
      }
      if Lossy(input, table) {
        var i :| 0 <= i < |table| && LossyAt(input, table[i]);
        if i < |front| { assert front[i] == table[i]; }
      }
      assert LossyAt(input, f) ==> Lossy(input, table) by { assert f == table[|table| - 1]; }
    }
  }

  // ----- projecting a projected map again

  /** Whatever the table copies from the map is lasting under the table's limits. */
  predicate LastingFields(input: seq<Member>, table: seq<Field>) {
    forall i :: 0 <= i < |table| ==> LastingAt(input, table[i])
  }

  predicate LastingAt(input: seq<Member>, f: Field) {
    match Get(input, f.key) case None => true case Some(v) => Lasting(v, f.limit, 0)
  }

  predicate LastingText(text: Option<string>, limit: nat, tail: bool) {
    text.Some? ==> Lasts(text.value, limit, tail)
  }

  ghost predicate OrderedMembers(ms: seq<Member>) {
    forall k :: Get(ms, k).Some? ==> Ordered(Get(ms, k).value)
  }

  ghost predicate StableMembers(ms: seq<Member>) {
    forall k :: Get(ms, k).Some? ==> StableTexts(Get(ms, k).value)
  }

  lemma ObjectOrdered(ms: seq<Member>)
    requires Ordered(JObject(ms))
    ensures OrderedMembers(ms)
  {
    hide Get, Sorted;
    forall k | Get(ms, k).Some? ensures Ordered(Get(ms, k).value) {
      GetIsMember(ms, k);
      assert Member(k, Get(ms, k).value) in ms;
    }
  }

  lemma ObjectStable(ms: seq<Member>)
    requires StableTexts(JObject(ms))
    ensures StableMembers(ms)
  {
    hide Get;
    forall k | Get(ms, k).Some? ensures StableTexts(Get(ms, k).value) {
      GetIsMember(ms, k);
      var i :| 0 <= i < |ms| && ms[i] == Member(k, Get(ms, k).value);
      assert StableTexts(ms[i].value);
    }
  }

  /** With every text settled in one pass, every table and every text is lasting. */
  lemma StableFields(input: seq<Member>, table: seq<Field>)
    requires StableMembers(input)
    ensures LastingFields(input, table)
  {
    hide Get, StableTexts, Lasting;
    forall i | 0 <= i < |table| ensures LastingAt(input, table[i]) {
      if Get(input, table[i].key).Some? { StableLasting(Get(input, table[i].key).value, table[i].limit, 0); }
    }
  }

  lemma StableText(input: seq<Member>, k: string, limit: nat, tail: bool)
    requires StableMembers(input)
    ensures LastingText(Str(input, k), limit, tail)
  {
    hide Get, Stable, Pieces, Lasts;
    if Str(input, k).Some? { StableLasts(Str(input, k).value, limit, tail); }
  }

  /** `second` holds, under every key of the table, what copying from `first` put there. */
  ghost predicate Mirrors(first: seq<Member>, second: seq<Member>, table: seq<Field>) {
    forall i :: 0 <= i < |table| ==> Get(second, table[i].key) == BoundAt(first, table[i])
  }

  lemma MirrorAgain(first: seq<Member>, second: seq<Member>, table: seq<Field>)
    requires LastingFields(first, table) && Mirrors(first, second, table)
    ensures Mirrors(second, second, table)
    ensures Lossy(second, table) ==> Lossy(first, table)
  {
    hide Bound, Get, Lasting;
    forall i | 0 <= i < |table|
      ensures Get(second, table[i].key) == BoundAt(second, table[i])
      ensures LossyAt(second, table[i]) ==> LossyAt(first, table[i])
    {
      var k := table[i].key;
      assert LastingAt(first, table[i]);
      if Get(first, k).Some? { BoundFixed(Get(first, k).value, table[i].limit, 0); }
    }
  }

  /** A mirror that mirrors itself shows that the fields copied were lasting. */
  lemma MirrorLasting(first: seq<Member>, second: seq<Member>, table: seq<Field>)
    requires OrderedMembers(first) && Mirrors(first, second, table) && Mirrors(second, second, table)
    ensures LastingFields(first, table)
  {
    hide Bound, Get, Lasting, Ordered;
    forall i | 0 <= i < |table| ensures LastingAt(first, table[i]) {
      var k := table[i].key;
      assert Get(second, k) == BoundAt(first, table[i]) == BoundAt(second, table[i]);
      if Get(first, k).Some? { FixedLasting(Get(first, k).value, table[i].limit, 0); }
    }
  }

  // ----- what a reader of history finds

  /** Keys that are published under one text limit. */
  datatype Group = Group(keys: seq<string>, limit: nat)

  predicate Listed(groups: seq<Group>, k: string, limit: nat) {
    exists i :: 0 <= i < |groups| && groups[i].limit == limit && k in groups[i].keys
  }

  predicate Published(groups: seq<Group>, k: string) {
    exists i :: 0 <= i < |groups| && k in groups[i].keys
  }

  /** The table copies exactly the published keys, each under its published limit. */
  ghost predicate Covers(table: seq<Field>, groups: seq<Group>) {
    (forall i :: 0 <= i < |table| ==> Listed(groups, table[i].key, table[i].limit))
    && forall k, limit :: Listed(groups, k, limit) ==> Field(k, limit) in table
  }

  /** A field of the original as it appears in history. */
  function Viewed(v: Option<Json>, limit: nat): Option<Json> {
    match v case None => None case Some(x) => Some(Bound(x, limit, 0).value)
  }

  /** Every published key shows the bounded original, or nothing where the original has nothing. */
  ghost predicate Shows(input: seq<Member>, out: seq<Member>, groups: seq<Group>) {
    forall k, limit :: Listed(groups, k, limit) ==> Get(out, k) == Viewed(Get(input, k), limit)
  }

  /** Something was taken from a published field. */
  ghost predicate Lost(input: seq<Member>, groups: seq<Group>) {
    exists k, limit :: Listed(groups, k, limit) && Get(input, k).Some? && Bound(Get(input, k).value, limit, 0).truncated
  }

  /** Every published field is shown exactly as it is. */
  ghost predicate KeepsAll(input: seq<Member>, out: seq<Member>, groups: seq<Group>) {
    forall k :: Published(groups, k) ==> Get(out, k) == Get(input, k)
  }

  predicate GroupIn(table: seq<Field>, g: Group) {
    forall k :: k in g.keys ==> Field(k, g.limit) in table
  }

  lemma CoversByGroup(table: seq<Field>, groups: seq<Group>)
    requires forall i :: 0 <= i < |table| ==> Listed(groups, table[i].key, table[i].limit)
    requires forall i :: 0 <= i < |groups| ==> GroupIn(table, groups[i])
    ensures Covers(table, groups)
  {
    forall k, limit | Listed(groups, k, limit) ensures Field(k, limit) in table {
      var i :| 0 <= i < |groups| && groups[i].limit == limit && k in groups[i].keys;
      assert GroupIn(table, groups[i]);
    }
  }

  lemma MirrorsShow(input: seq<Member>, out: seq<Member>, table: seq<Field>, groups: seq<Group>)
    requires Mirrors(input, out, table) && Covers(table, groups)
    ensures Shows(input, out, groups)
  {
    hide Bound, Get, Listed;
    forall k, limit | Listed(groups, k, limit) ensures Get(out, k) == Viewed(Get(input, k), limit) {
      var i :| 0 <= i < |table| && table[i] == Field(k, limit);
      assert Get(out, table[i].key) == BoundAt(input, table[i]);
    }
  }

  lemma LossyIffLost(input: seq<Member>, table: seq<Field>, groups: seq<Group>)
    requires Covers(table, groups)
    ensures Lossy(input, table) <==> Lost(input, groups)
  {
    hide Bound, Get, Listed;
    if Lossy(input, table) {
      var i :| 0 <= i < |table| && LossyAt(input, table[i]);
      assert Listed(groups, table[i].key, table[i].limit);
    }
    if Lost(input, groups) {
      var k, limit :| Listed(groups, k, limit) && Get(input, k).Some? && Bound(Get(input, k).value, limit, 0).truncated;
      var i :| 0 <= i < |table| && table[i] == Field(k, limit);
      assert LossyAt(input, table[i]);
    }
  }

  /** Where nothing published was lost, every published field is exactly the original. */
  lemma UnlostKept(input: seq<Member>, out: seq<Member>, groups: seq<Group>)
    requires OrderedMembers(input) && Shows(input, out, groups) && !Lost(input, groups)
    ensures KeepsAll(input, out, groups)
  {
    hide Bound, Get, Ordered;
    forall k | Published(groups, k) ensures Get(out, k) == Get(input, k) {
      var i :| 0 <= i < |groups| && k in groups[i].keys;
      var limit := groups[i].limit;
      assert Listed(groups, k, limit);
      if Get(input, k).Some? { BoundUnflaggedIff(Get(input, k).value, limit, 0); }
    }
  }

  /** A scalar under a published key is shown as it is. */
  lemma ScalarShown(input: seq<Member>, out: seq<Member>, groups: seq<Group>, k: string)
    requires Shows(input, out, groups) && Published(groups, k) && Get(input, k).Some? && Scalar(Get(input, k).value)
    ensures Get(out, k) == Get(input, k)
  {
    hide Bound, Get;
    var i :| 0 <= i < |groups| && k in groups[i].keys;
    assert Listed(groups, k, groups[i].limit);
    BoundScalar(Get(input, k).value, groups[i].limit, 0);
  }

  /** Nothing occurs under a key that is neither published nor one of the view's own. */
  ghost predicate Only(out: seq<Member>, groups: seq<Group>, own: seq<string>) {
    forall k :: Get(out, k).Some? ==> Published(groups, k) || k in own
  }

  lemma CoveredKeys(table: seq<Field>, groups: seq<Group>, k: string)
    requires Covers(table, groups) && !Published(groups, k)
    ensures Absent(table, k)
  {
    forall i | 0 <= i < |table| ensures table[i].key != k {
      assert Listed(groups, table[i].key, table[i].limit);
    }
  }

  // ----- reading single fields

  function Str(ms: seq<Member>, k: string): Option<string> {
    match Get(ms, k) case Some(JString(s)) => Some(s) case _ => None
  }

  /** `get(k).and_then(as_bool).unwrap_or(false)`. */
  predicate Flag(ms: seq<Member>, k: string) {
    Get(ms, k) == Some(JBool(true))
  }

  function PutFlag(ms: seq<Member>, k: string, b: bool): seq<Member> {
    Put(ms, k, JBool(b))
  }

  // ----- fixed field selections (tool calls, rejected and skill results)

  function Selected(value: Json, table: seq<Field>): Projected {
    match value
    case JObject(input) =>
      var c := CopyAll(input, table, EMPTY);
      Projected(JObject(c.members), c.truncated)
    case _ => Bound(value, GENERIC, 0)
  }

  predicate SelectedLasting(value: Json, table: seq<Field>) {
    match value case JObject(input) => LastingFields(input, table) case _ => Lasting(value, GENERIC, 0)
  }

  /** A selection projects to itself exactly when what it selects is lasting. */
  lemma SelectedFixedIff(value: Json, table: seq<Field>)
    requires Ordered(value) && Distinct(table)
    ensures var p := Selected(value, table); var again := Selected(p.value, table);
            (again.value == p.value <==> SelectedLasting(value, table)) && (again.value == p.value ==> Repeats(p, again))
  {
    hide CopyAll, Get, Distinct, Ordered, LastingFields, OrderedMembers, Lasting, Bound;
    if value.JObject? {
      var out := CopyAll(value.members, table, EMPTY).members;
      ObjectOrdered(value.members);
      if LastingFields(value.members, table) { CopyFixed(value.members, out, table); }
      if CopyAll(out, table, EMPTY).members == out { CopyFixedOnly(value.members, out, table); }
    } else {
      BoundFixedIff(value, GENERIC, 0);
      assert Bound(value, GENERIC, 0).value.JObject? ==> false by { BoundNotObject(value); }
    }
  }

  lemma BoundNotObject(value: Json)
    requires !value.JObject?
    ensures !Bound(value, GENERIC, 0).value.JObject?
  {
  }

  lemma CopyFixedOnly(input: seq<Member>, out: seq<Member>, table: seq<Field>)
    requires OrderedMembers(input) && Distinct(table) && out == CopyAll(input, table, EMPTY).members
    requires CopyAll(out, table, EMPTY).members == out
    ensures LastingFields(input, table)
  {
    hide CopyAll, Get, Bound, Distinct, Ordered;
    CopyMirrors(input, out, table);
    CopyMirrors(out, out, table);
    MirrorLasting(input, out, table);
  }

  lemma NoneSorted()
    ensures Sorted(EMPTY.members) && forall k :: Get(EMPTY.members, k) == None
  {
  }

  lemma CopyFixed(input: seq<Member>, out: seq<Member>, table: seq<Field>)
    requires LastingFields(input, table) && Distinct(table) && out == CopyAll(input, table, EMPTY).members
    ensures CopyAll(out, table, EMPTY).members == out
    ensures CopyAll(out, table, EMPTY).truncated ==> CopyAll(input, table, EMPTY).truncated
    ensures Mirrors(input, out, table)
  {
    hide Lasting, CopyAll, Get, Bound, Sorted, Distinct;
    NoneSorted();
    CopyMirrors(input, out, table);
    CopyAgain(input, out, table, EMPTY);
    CopyAllShape(input, table, EMPTY);
    CopyAllShape(out, table, EMPTY);
  }

  /** Copying from a map that mirrors the input gives what copying from the input gave. */
  lemma CopyAgain(input: seq<Member>, out: seq<Member>, table: seq<Field>, b: Built)
    requires LastingFields(input, table) && Distinct(table) && Mirrors(input, out, table) && Sorted(b.members)
    ensures CopyAll(out, table, b).members == CopyAll(input, table, b).members
    ensures Lossy(out, table) ==> Lossy(input, table)
  {
    hide Lasting, CopyAll, Get, Bound, Sorted;
    MirrorAgain(input, out, table);
    CopyAllShape(input, table, b);
    CopyAllShape(out, table, b);
    var first, again := CopyAll(input, table, b).members, CopyAll(out, table, b).members;
    forall k ensures Get(again, k) == Get(first, k) {
      if Absent(table, k) {
        CopyAllAbsent(input, table, b, k);
        CopyAllAbsent(out, table, b, k);
      } else {
        var i :| 0 <= i < |table| && table[i].key == k;
        CopyAllPresent(input, table, b, i);
        CopyAllPresent(out, table, b, i);
      }
    }
    Extensional(again, first);
  }

  lemma CopyMirrors(input: seq<Member>, out: seq<Member>, table: seq<Field>)
    requires Distinct(table)
    requires forall i :: 0 <= i < |table| ==>
               Get(out, table[i].key) == Get(CopyAll(input, table, EMPTY).members, table[i].key)
    ensures Mirrors(input, out, table)
  {
    hide CopyAll, Get, Bound, Distinct;
    NoneSorted();
    forall i | 0 <= i < |table| ensures Get(out, table[i].key) == BoundAt(input, table[i]) {
      CopyAllPresent(input, table, EMPTY, i);
      assert Get(EMPTY.members, table[i].key) == None;
    }
  }
}
