/** Built-in capability manifests: order-independent construction, shape checks and digest. */
module Manifest {
  import opened Prelude
  import opened Text
  import opened Sorting

  const MAX_TOOLS := 256
  const MAX_SCHEMA_BYTES := 4 * 1024 * 1024

  /** A reviewed tool; `body` stands for everything beside the two names. */
  datatype Tool = Tool(toolId: string, modelName: string, body: string)

  /** The manifest fields other than tools and digest. */
  type Header = string

  datatype Manifest = Manifest(header: Header, tools: seq<Tool>, digest: string)

  /** Checks on single parts, and the hash over the serialised material. */
  datatype Rules = Rules(headerOk: Header -> bool, toolOk: Tool -> bool, schemaBytes: Tool -> nat,
                         hash: (Header, seq<Tool>) -> string)

  function ToolKey(t: Tool): seq<string> {
    [t.toolId, t.modelName]
  }

  function Sorted(tools: seq<Tool>): (r: seq<Tool>)
    ensures multiset(r) == multiset(tools) && |r| == |tools|
  {
    SortBy(tools, ToolKey)
  }

  function SchemaTotal(rules: Rules, tools: seq<Tool>): nat {
    Total(tools, rules.schemaBytes)
  }

  function ModelName(t: Tool): string {
    t.modelName
  }

  function ToolId(t: Tool): string {
    t.toolId
  }

  /** No two tools share a model name or a tool id. */
  predicate NoRepeats(tools: seq<Tool>) {
    DistinctBy(tools, ModelName) && DistinctBy(tools, ToolId)
  }

  predicate ShapeOk(rules: Rules, header: Header, tools: seq<Tool>) {
    rules.headerOk(header) && |tools| <= MAX_TOOLS && NoRepeats(tools)
    && (forall t :: t in tools ==> rules.toolOk(t))
    && SchemaTotal(rules, tools) <= MAX_SCHEMA_BYTES
  }

  /** The loop over growing name sets and a running byte total accepts exactly the well-shaped lists. */
  method ValidateShape(rules: Rules, header: Header, tools: seq<Tool>) returns (ok: bool)
    ensures ok == ShapeOk(rules, header, tools)
  {
    hide SchemaTotal, NoRepeats, ModelNames, ToolIds;
    if !rules.headerOk(header) || |tools| > MAX_TOOLS { return false; }
    var names: set<string>, ids: set<string> := {}, {};
    var total := 0;
    ShapeStart(rules);
    for i := 0 to |tools|
      invariant NoRepeats(tools[..i]) && names == ModelNames(tools[..i]) && ids == ToolIds(tools[..i])
      invariant forall j :: 0 <= j < i ==> rules.toolOk(tools[j])
      invariant total == SchemaTotal(rules, tools[..i]) <= MAX_SCHEMA_BYTES
    {
      var tool := tools[i];
      NoRepeatsNext(tools, i);
      if tool.modelName in names || tool.toolId in ids { return false; }
      names, ids := names + {tool.modelName}, ids + {tool.toolId};
      if !rules.toolOk(tool) { return false; }
      TotalNext(rules, tools, i);
      total := total + rules.schemaBytes(tool);
      if total > MAX_SCHEMA_BYTES {
        TotalGrows(rules, tools, i + 1);
        return false;
      }
    }
    assert tools[..|tools|] == tools;
    return true;
  }

  function ModelNames(tools: seq<Tool>): set<string> {
    set t | t in tools :: t.modelName
  }

  function ToolIds(tools: seq<Tool>): set<string> {
    set t | t in tools :: t.toolId
  }

  lemma ShapeStart(rules: Rules)
    ensures NoRepeats([]) && ModelNames([]) == {} && ToolIds([]) == {} && SchemaTotal(rules, []) == 0
  {
  }

  /** The next tool keeps the list free of repeats exactly when neither of its names was seen. */
  lemma NoRepeatsNext(tools: seq<Tool>, i: nat)
    requires i < |tools| && NoRepeats(tools[..i])
    ensures NoRepeats(tools[..i + 1]) <==>
            tools[i].modelName !in ModelNames(tools[..i]) && tools[i].toolId !in ToolIds(tools[..i])
    ensures NoRepeats(tools) ==> NoRepeats(tools[..i + 1])
    ensures ModelNames(tools[..i + 1]) == ModelNames(tools[..i]) + {tools[i].modelName}
    ensures ToolIds(tools[..i + 1]) == ToolIds(tools[..i]) + {tools[i].toolId}
  {
    var front, more := tools[..i], tools[..i + 1];
    assert more == front + [tools[i]];
    if NoRepeats(more) {
      forall t | t in front ensures t.modelName != tools[i].modelName && t.toolId != tools[i].toolId {
        var k :| 0 <= k < |front| && front[k] == t;
        assert more[k] == t && more[i] == tools[i];
      }
    }
    if tools[i].modelName !in ModelNames(front) && tools[i].toolId !in ToolIds(front) {
      forall k | 0 <= k < i ensures more[k].modelName != more[i].modelName && more[k].toolId != more[i].toolId {
        assert front[k] in front;
        assert front[k].modelName in ModelNames(front) && front[k].toolId in ToolIds(front);
      }
    }
  }

  lemma TotalNext(rules: Rules, tools: seq<Tool>, i: nat)
    requires i < |tools|
    ensures SchemaTotal(rules, tools[..i + 1]) == SchemaTotal(rules, tools[..i]) + rules.schemaBytes(tools[i])
  {
    assert tools[..i + 1][..i] == tools[..i];
  }

  lemma TotalGrows(rules: Rules, tools: seq<Tool>, i: nat)
    requires i <= |tools|
    ensures SchemaTotal(rules, tools[..i]) <= SchemaTotal(rules, tools)
    decreases |tools|
  {
    if i == |tools| {
      assert tools[..i] == tools;
    } else {
      var front := tools[..|tools| - 1];
      TotalGrows(rules, front, i);
      assert front[..i] == tools[..i];
    }
  }

  function Digest(rules: Rules, header: Header, tools: seq<Tool>): string {
    rules.hash(header, Sorted(tools))
  }

  function Build(rules: Rules, header: Header, tools: seq<Tool>): Option<Manifest> {
    var sorted := Sorted(tools);
    if ShapeOk(rules, header, sorted) then Some(Manifest(header, sorted, Digest(rules, header, sorted))) else None
  }

  predicate Validate(rules: Rules, m: Manifest) {
    ShapeOk(rules, m.header, m.tools) && m.digest == Digest(rules, m.header, m.tools)
  }

  // ----- order does not matter

  /** The shape check does not depend on the order of the tools. */
  lemma ShapePermutation(rules: Rules, header: Header, a: seq<Tool>, b: seq<Tool>)
    requires multiset(a) == multiset(b)
    ensures ShapeOk(rules, header, a) == ShapeOk(rules, header, b)
  {
    assert |a| == |multiset(a)| == |multiset(b)| == |b|;
    if NoRepeats(a) {
      DistinctByPermutation(a, b, ModelName);
      DistinctByPermutation(a, b, ToolId);
    }
    if NoRepeats(b) {
      DistinctByPermutation(b, a, ModelName);
      DistinctByPermutation(b, a, ToolId);
    }
    TotalPermutation(a, b, rules.schemaBytes);
    forall t ensures t in a <==> t in b { assert t in a <==> t in multiset(a); assert t in b <==> t in multiset(b); }
  }

  lemma SortedPermutation(a: seq<Tool>, b: seq<Tool>)
    requires multiset(a) == multiset(b) && NoRepeats(a)
    ensures Sorted(a) == Sorted(b)
  {
    forall x, y | x in a && y in a && ToolKey(x) == ToolKey(y) ensures x == y {
      assert ToolKey(x)[0] == ToolKey(y)[0];
      var i :| 0 <= i < |a| && a[i] == x;
      var j :| 0 <= j < |a| && a[j] == y;
    }
    SortByUnique(a, b, ToolKey);
  }

  /** Any arrangement of the same tools builds the identical manifest, digest included, or fails in both. */
  lemma BuildPermutation(rules: Rules, header: Header, a: seq<Tool>, b: seq<Tool>)
    requires multiset(a) == multiset(b)
    ensures Build(rules, header, a) == Build(rules, header, b)
  {
    hide SortBy, ShapeOk;
    ShapePermutation(rules, header, Sorted(a), Sorted(b));
    if ShapeOk(rules, header, Sorted(a)) {
      ShapePermutation(rules, header, Sorted(a), a);
      ShapeNoRepeats(rules, header, a);
      SortedPermutation(a, b);
    }
  }

  lemma ShapeNoRepeats(rules: Rules, header: Header, a: seq<Tool>)
    requires ShapeOk(rules, header, a)
    ensures NoRepeats(a)
  {
  }

  /** Whatever is built passes validation and holds exactly the given tools. */
  lemma BuildValid(rules: Rules, header: Header, tools: seq<Tool>)
    requires Build(rules, header, tools).Some?
    ensures var m := Build(rules, header, tools).value;
            Validate(rules, m) && m.header == header && multiset(m.tools) == multiset(tools)
            && forall i, j :: 0 <= i < j < |m.tools| ==> Less(m.tools[i].toolId, m.tools[j].toolId)
  {
    hide Before, Less, SortBy;
    SortByAscending(tools, ToolKey);
    var m := Build(rules, header, tools).value;
    forall i, j | 0 <= i < j < |m.tools| ensures Less(m.tools[i].toolId, m.tools[j].toolId) {
      IdsAscend(m.tools[i], m.tools[j]);
    }
  }

  lemma IdsAscend(a: Tool, b: Tool)
    requires !Before(ToolKey(b), ToolKey(a)) && a.toolId != b.toolId
    ensures Less(a.toolId, b.toolId)
  {
    hide Less;
    LessTotal(a.toolId, b.toolId);
  }

  // ----- what a digest is good for

  /** The hash tells any two inputs apart. */
  ghost predicate NoCollisions(rules: Rules) {
    forall h1, t1, h2, t2 :: rules.hash(h1, t1) == rules.hash(h2, t2) ==> h1 == h2 && t1 == t2
  }

  /** Two valid manifests with one digest are the same but for the order of their tools. */
  lemma DigestIdentifies(rules: Rules, a: Manifest, b: Manifest)
    requires NoCollisions(rules) && Validate(rules, a) && Validate(rules, b) && a.digest == b.digest
    ensures a.header == b.header && multiset(a.tools) == multiset(b.tools)
  {
    hide SortBy, ShapeOk;
    assert rules.hash(a.header, Sorted(a.tools)) == rules.hash(b.header, Sorted(b.tools));
  }

  /** A manifest whose tools or header were replaced validates only if nothing was replaced. */
  lemma TamperEvident(rules: Rules, m: Manifest, header: Header, tools: seq<Tool>)
    requires NoCollisions(rules) && Validate(rules, m)
    ensures Validate(rules, m.(header := header, tools := tools)) <==>
            header == m.header && multiset(tools) == multiset(m.tools)
  {
    hide Validate;
    var n := m.(header := header, tools := tools);
    if Validate(rules, n) { DigestIdentifies(rules, m, n); }
    if header == m.header && multiset(tools) == multiset(m.tools) { ValidatePermutation(rules, m, tools); }
  }

  /** What a well-shaped list is: at most 256 valid tools of at most 4 MiB of schema, no name or id used twice. */
  lemma ShapeMeans(rules: Rules, header: Header, tools: seq<Tool>)
    ensures ShapeOk(rules, header, tools) <==>
            rules.headerOk(header) && |tools| <= 256 && (forall t :: t in tools ==> rules.toolOk(t))
            && (forall i, j :: 0 <= i < j < |tools| ==>
                  tools[i].toolId != tools[j].toolId && tools[i].modelName != tools[j].modelName)
            && SchemaTotal(rules, tools) <= 4194304
  {
    hide SchemaTotal;
    if NoRepeats(tools) {
      forall i, j | 0 <= i < j < |tools| ensures tools[i].toolId != tools[j].toolId && tools[i].modelName != tools[j].modelName {
        assert ToolId(tools[i]) != ToolId(tools[j]) && ModelName(tools[i]) != ModelName(tools[j]);
      }
    }
  }

  /** A build fails exactly when the given list itself is badly shaped. */
  lemma BuildFailsIff(rules: Rules, header: Header, tools: seq<Tool>)
    ensures Build(rules, header, tools).None? <==> !ShapeOk(rules, header, tools)
  {
    hide SortBy, ShapeOk;
    ShapePermutation(rules, header, Sorted(tools), tools);
  }

  /** Rearranging a manifest's tools does not change whether it validates. */
  lemma ValidatePermutation(rules: Rules, m: Manifest, tools: seq<Tool>)
    requires multiset(tools) == multiset(m.tools)
    ensures Validate(rules, m) == Validate(rules, m.(tools := tools))
  {
    hide SortBy, ShapeOk;
    ShapePermutation(rules, m.header, m.tools, tools);
    if ShapeOk(rules, m.header, tools) {
      ShapeNoRepeats(rules, m.header, tools);
      SortedPermutation(tools, m.tools);
    }
  }
}
