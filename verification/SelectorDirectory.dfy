/** The selector directory shown to the model for one turn, and the admission of wait batches. */
module SelectorDirectory {
  import opened Prelude
  import opened Text
  import opened Sorting

  const MAX_ITEMS := 32
  const MAX_BYTES := 16 * 1024
  const MAX_TYPE_BYTES := 64
  const MAX_AGENT_ID_BYTES := 128
  const MAX_MODEL_ID_BYTES := 512
  const MAX_WAIT_BATCHES := 1024

  /** `shown` stands for the descriptive fields, which only count towards the size. */
  datatype Template = Template(agentType: string, templateId: string, revision: nat, shown: string)

  datatype Model = Model(configId: string, shown: string)

  datatype Directory = Directory(templates: seq<Template>, models: seq<Model>, truncated: bool)

  function TemplateKey(t: Template): seq<string> {
    [t.agentType]
  }

  function ModelKey(m: Model): seq<string> {
    [m.configId]
  }

  predicate Identifier(s: string, max: nat) {
    s != [] && Trim(s) == s && Utf8Len(s) <= max
  }

  predicate TemplateOk(t: Template) {
    Identifier(t.agentType, MAX_TYPE_BYTES) && Identifier(t.templateId, MAX_AGENT_ID_BYTES) && t.revision > 0
  }

  predicate ModelOk(m: Model) {
    Identifier(m.configId, MAX_MODEL_ID_BYTES)
  }

  /** `validate`, with the length of the escaped JSON as a parameter. */
  predicate Validate(d: Directory, size: Directory -> nat) {
    |d.templates| <= MAX_ITEMS
    && (forall i :: 0 < i < |d.templates| ==> Less(d.templates[i - 1].agentType, d.templates[i].agentType))
    && (forall t :: t in d.templates ==> TemplateOk(t))
    && |d.models| <= MAX_ITEMS
    && (forall i :: 0 < i < |d.models| ==> Less(d.models[i - 1].configId, d.models[i].configId))
    && (forall m :: m in d.models ==> ModelOk(m))
    && size(d) <= MAX_BYTES
  }

  function Capped<T>(xs: seq<T>): (r: seq<T>)
    ensures r <= xs && |r| == (if |xs| <= 32 then |xs| else 32)
    ensures |xs| <= 32 ==> r == xs
  {
    if |xs| <= MAX_ITEMS then xs else xs[..MAX_ITEMS]
  }

  predicate TooBig(ts: seq<Template>, ms: seq<Model>, size: Directory -> nat) {
    size(Directory(ts, ms, true)) > 16384 || size(Directory(ts, ms, false)) > 16384
  }

  /** With the item dropped last, the directory did not fit. */
  predicate LargerDidNotFit(d: Directory, templates: seq<Template>, models: seq<Model>, size: Directory -> nat) {
    (|d.templates| < |templates| && TooBig(templates[..|d.templates| + 1], d.models, size))
    || (|d.models| < |models| && TooBig(d.templates, models[..|d.models| + 1], size))
  }

  /** The empty directory's JSON, a few dozen bytes, is within the budget. */
  predicate EmptyFits(size: Directory -> nat) {
    size(Directory([], [], true)) <= MAX_BYTES && size(Directory([], [], false)) <= MAX_BYTES
  }

  /**
   * Sort, cap and shrink to the byte budget. Each list kept is a prefix of its sorted input, the result fits,
   * nothing is dropped that need not be, the flag tells exactly whether something was dropped, and lists that were
   * both shortened by the budget stay balanced.
   */
  method Bounded(templates: seq<Template>, models: seq<Model>, size: Directory -> nat) returns (d: Directory)
    ensures d.templates <= Capped(SortBy(templates, TemplateKey)) && d.models <= Capped(SortBy(models, ModelKey))
    ensures size(d) <= 16384 || (d.templates == [] && d.models == [] && !EmptyFits(size))
    ensures d.truncated <==> |d.templates| < |templates| || |d.models| < |models|
                             || (templates == [] && models == [] && size(Directory([], [], false)) > MAX_BYTES)
    ensures var ts, ms := Capped(SortBy(templates, TemplateKey)), Capped(SortBy(models, ModelKey));
            (d.templates == ts && d.models == ms) || LargerDidNotFit(d, ts, ms, size)
    ensures var ts, ms := Capped(SortBy(templates, TemplateKey)), Capped(SortBy(models, ModelKey));
            |d.templates| < |ts| && |d.models| < |ms| ==> |d.models| - 1 <= |d.templates| <= |d.models|
  {
    hide SortBy, LargerDidNotFit, TooBig, Balanced;
    var ts, ms := Capped(SortBy(templates, TemplateKey)), Capped(SortBy(models, ModelKey));
    d := Directory(ts, ms, |templates| > MAX_ITEMS || |models| > MAX_ITEMS);
    WholeBalanced(ts, ms);
    while size(d) > MAX_BYTES
      invariant d.templates <= ts && d.models <= ms && Balanced(d, ts, ms)
      invariant d.truncated <==> |d.templates| < |templates| || |d.models| < |models|
      invariant (d.templates == ts && d.models == ms) || LargerDidNotFit(d, ts, ms, size)
      decreases |d.templates| + |d.models|
    {
      ghost var whole := d;
      d := d.(truncated := true);
      if |d.templates| >= |d.models| && d.templates != [] {
        d := d.(templates := d.templates[..|d.templates| - 1]);
        TemplatePopped(whole, ts, ms, size);
      } else if d.models != [] {
        d := d.(models := d.models[..|d.models| - 1]);
        ModelPopped(whole, ts, ms, size);
      } else {
        assert whole == Directory([], [], whole.truncated);
        break;
      }
    }
    BalancedBoth(d, ts, ms);
  }

  /** A list the budget has shortened is not shorter than the other one, but for the turn that templates come first. */
  predicate Balanced(d: Directory, ts: seq<Template>, ms: seq<Model>) {
    (|d.templates| < |ts| ==> |d.models| - 1 <= |d.templates|) && (|d.models| < |ms| ==> |d.templates| <= |d.models|)
  }

  lemma WholeBalanced(ts: seq<Template>, ms: seq<Model>)
    ensures forall truncated :: Balanced(Directory(ts, ms, truncated), ts, ms)
  {
  }

  lemma BalancedBoth(d: Directory, ts: seq<Template>, ms: seq<Model>)
    requires Balanced(d, ts, ms)
    ensures |d.templates| < |ts| && |d.models| < |ms| ==> |d.models| - 1 <= |d.templates| <= |d.models|
  {
  }

  lemma TemplatePopped(d: Directory, ts: seq<Template>, ms: seq<Model>, size: Directory -> nat)
    requires d.templates <= ts && d.models <= ms && Balanced(d, ts, ms) && size(d) > MAX_BYTES
    requires |d.templates| >= |d.models| && d.templates != []
    ensures var e := Directory(d.templates[..|d.templates| - 1], d.models, true);
            e.templates <= ts && Balanced(e, ts, ms) && LargerDidNotFit(e, ts, ms, size)
  {
    var n := |d.templates| - 1;
    assert ts[..n + 1] == d.templates;
    assert d == Directory(d.templates, d.models, d.truncated);
    assert TooBig(d.templates, d.models, size);
  }

  lemma ModelPopped(d: Directory, ts: seq<Template>, ms: seq<Model>, size: Directory -> nat)
    requires d.templates <= ts && d.models <= ms && Balanced(d, ts, ms) && size(d) > MAX_BYTES
    requires (|d.templates| < |d.models| || d.templates == []) && d.models != []
    ensures var e := Directory(d.templates, d.models[..|d.models| - 1], true);
            e.models <= ms && Balanced(e, ts, ms) && LargerDidNotFit(e, ts, ms, size)
  {
    var n := |d.models| - 1;
    assert ms[..n + 1] == d.models;
    assert d == Directory(d.templates, d.models, d.truncated);
    assert TooBig(d.templates, d.models, size);
  }

  function AgentType(t: Template): string {
    t.agentType
  }

  function ConfigId(m: Model): string {
    m.configId
  }

  lemma BeforeSingle(a: string, b: string)
    ensures Before([a], [b]) <==> Less(a, b)
  {
    hide Less;
    LessTotal(a, b);
    assert [a][1..] == [] && [b][1..] == [];
  }

  /** In an ascending list, neighbours with different keys are strictly ordered. */
  lemma StrictNeighbour<T>(xs: seq<T>, key: T -> seq<string>, name: T -> string, i: nat)
    requires Ascending(xs, key) && 0 < i < |xs| && forall x :: key(x) == [name(x)]
    requires DistinctBy(xs, name)
    ensures Less(name(xs[i - 1]), name(xs[i]))
  {
    hide Less;
    BeforeSingle(name(xs[i]), name(xs[i - 1]));
    LessTotal(name(xs[i - 1]), name(xs[i]));
  }

  /** For well-formed inputs with distinct keys, whatever the budget left over passes `validate`. */
  lemma BoundedValidates(templates: seq<Template>, models: seq<Model>, size: Directory -> nat, d: Directory)
    requires (forall t :: t in templates ==> TemplateOk(t)) && (forall m :: m in models ==> ModelOk(m))
    requires DistinctBy(templates, AgentType) && DistinctBy(models, ConfigId)
    requires d.templates <= Capped(SortBy(templates, TemplateKey)) && d.models <= Capped(SortBy(models, ModelKey))
    requires size(d) <= MAX_BYTES
    ensures Validate(d, size)
  {
    hide Less, SortBy, TemplateOk, ModelOk;
    var ts, ms := SortBy(templates, TemplateKey), SortBy(models, ModelKey);
    SortByAscending(templates, TemplateKey);
    SortByAscending(models, ModelKey);
    DistinctByPermutation(templates, ts, AgentType);
    DistinctByPermutation(models, ms, ConfigId);
    forall t | t in d.templates ensures TemplateOk(t) { assert t in ts; assert t in multiset(ts); }
    forall m | m in d.models ensures ModelOk(m) { assert m in ms; assert m in multiset(ms); }
    forall i | 0 < i < |d.templates| ensures Less(d.templates[i - 1].agentType, d.templates[i].agentType) {
      StrictNeighbour(ts, TemplateKey, AgentType, i);
    }
    forall i | 0 < i < |d.models| ensures Less(d.models[i - 1].configId, d.models[i].configId) {
      StrictNeighbour(ms, ModelKey, ConfigId, i);
    }
  }

  lemma {:induction false} StrictlyAscending(names: seq<string>, i: nat, j: nat)
    requires (forall k :: 0 < k < |names| ==> Less(names[k - 1], names[k])) && i < j < |names|
    ensures Less(names[i], names[j])
    decreases j
  {
    hide Less;
    if i == j - 1 {
    } else {
      StrictlyAscending(names, i, j - 1);
      LessTransitive(names[i], names[j - 1], names[j]);
    }
  }

  function TypesOf(ts: seq<Template>): (r: seq<string>)
    ensures |r| == |ts| && forall i :: 0 <= i < |ts| ==> r[i] == ts[i].agentType
  {
    seq(|ts|, i requires 0 <= i < |ts| => ts[i].agentType)
  }

  function IdsOf(ms: seq<Model>): (r: seq<string>)
    ensures |r| == |ms| && forall i :: 0 <= i < |ms| ==> r[i] == ms[i].configId
  {
    seq(|ms|, i requires 0 <= i < |ms| => ms[i].configId)
  }

  /** What a directory that validates is: bounded, in strict order, so that no selector occurs twice, and well formed. */
  lemma ValidMeans(d: Directory, size: Directory -> nat)
    requires Validate(d, size)
    ensures |d.templates| <= 32 && |d.models| <= 32 && size(d) <= 16384
    ensures forall i, j :: 0 <= i < j < |d.templates| ==> Less(d.templates[i].agentType, d.templates[j].agentType)
    ensures forall i, j :: 0 <= i < j < |d.models| ==> Less(d.models[i].configId, d.models[j].configId)
    ensures forall t :: t in d.templates ==>
              t.revision > 0 && PlainId(t.agentType, 64) && PlainId(t.templateId, 128)
    ensures forall m :: m in d.models ==> PlainId(m.configId, 512)
  {
    hide Less, Trim, Utf8Len, Trimmed;
    forall i, j | 0 <= i < j < |d.templates| ensures Less(d.templates[i].agentType, d.templates[j].agentType) {
      StrictlyAscending(TypesOf(d.templates), i, j);
    }
    forall i, j | 0 <= i < j < |d.models| ensures Less(d.models[i].configId, d.models[j].configId) {
      StrictlyAscending(IdsOf(d.models), i, j);
    }
    forall t | t in d.templates ensures t.revision > 0 && PlainId(t.agentType, 64) && PlainId(t.templateId, 128) {
      TrimmedIff(t.agentType);
      TrimmedIff(t.templateId);
    }
    forall m | m in d.models ensures PlainId(m.configId, 512) { TrimmedIff(m.configId); }
  }

  predicate PlainId(s: string, max: nat) {
    s != [] && Trimmed(s) && Utf8Len(s) <= max
  }

  // ----- wait admission

  /** The ordered set of admitted model batches, as its ascending list. */
  predicate AscendingBatches(xs: seq<nat>) {
    forall i, j :: 0 <= i < j < |xs| ==> xs[i] < xs[j]
  }

  function InsertBatch(xs: seq<nat>, n: nat): (r: seq<nat>)
    ensures forall k :: k in r <==> k in xs || k == n
  {
    if xs == [] || n < xs[0] then [n] + xs
    else if xs[0] == n then xs
    else
      assert xs == [xs[0]] + xs[1..];
      [xs[0]] + InsertBatch(xs[1..], n)
  }

  lemma {:induction false} InsertAscends(xs: seq<nat>, n: nat)
    requires AscendingBatches(xs)
    ensures AscendingBatches(InsertBatch(xs, n))
  {
    if xs != [] && n > xs[0] {
      InsertAscends(xs[1..], n);
      var r := InsertBatch(xs[1..], n);
      forall j | 0 <= j < |r| ensures xs[0] < r[j] { assert r[j] in r; }
    }
  }

  datatype Admission = Rejected | Answer(first: bool)

  /** `try_admit_wait_model_batch`. */
  function Admit(xs: seq<nat>, n: nat): (seq<nat>, Admission) {
    if n == 0 then (xs, Rejected) else (InsertBatch(xs, n), Answer(n !in xs))
  }

  /** The part of the run snapshot's validation that concerns the batches. */
  predicate SnapshotOk(xs: seq<nat>) {
    |xs| <= MAX_WAIT_BATCHES && (forall i :: 0 < i < |xs| ==> xs[i - 1] < xs[i]) && 0 !in xs
  }

  /** What a run keeps, and what a snapshot of it carries. */
  datatype Services = Services(directory: Directory, admitted: seq<nat>)

  predicate SnapshotValid(x: Services, size: Directory -> nat) {
    Validate(x.directory, size) && SnapshotOk(x.admitted)
  }

  /** `with_run_snapshot`: the snapshot's state is taken over, or refused. */
  function Resumed(x: Services, size: Directory -> nat): Option<Services> {
    if SnapshotValid(x, size) then Some(x) else None
  }

  /** The services of one run, with the set of admitted batches that waits share. */
  class WaitServices {
    var directory: Directory
    var admitted: seq<nat>

    function View(): Services
      reads this
    {
      Services(directory, admitted)
    }

    ghost predicate Valid()
      reads this
    {
      AscendingBatches(admitted) && 0 !in admitted
    }

    constructor (directory: Directory)
      ensures Valid() && View() == Services(directory, [])
    {
      this.directory, admitted := directory, [];
    }

    method TryAdmit(batch: nat) returns (r: Admission)
      requires Valid()
      modifies this
      ensures Valid() && directory == old(directory) && (admitted, r) == Admit(old(admitted), batch)
    {
      if batch == 0 { return Rejected; }
      InsertAscends(admitted, batch);
      r := Answer(batch !in admitted);
      admitted := InsertBatch(admitted, batch);
    }

    /** A snapshot restores to exactly this state, as long as the directory validates and the set is not too large. */
    method Snapshot(size: Directory -> nat) returns (x: Services)
      requires Valid()
      ensures Resumed(x, size) ==
              if Validate(directory, size) && |admitted| <= MAX_WAIT_BATCHES then Some(View()) else None
    {
      x := Services(directory, admitted);
    }

    method Restore(x: Services, size: Directory -> nat) returns (ok: bool)
      requires Valid()
      modifies this
      ensures Valid() && ok == SnapshotValid(x, size)
      ensures View() == if ok then x else old(View())
    {
      ok := SnapshotValid(x, size);
      if ok {
        NeighboursAscend(x.admitted);
        directory, admitted := x.directory, x.admitted;
      }
    }
  }

  /** The admitted batches after a run of requests, starting with none. */
  function AfterWaits(batches: seq<nat>): seq<nat> {
    if batches == [] then [] else Admit(AfterWaits(batches[..|batches| - 1]), batches[|batches| - 1]).0
  }

  /** How often a batch was told it is fresh. */
  function FreshAnswers(batches: seq<nat>, n: nat): nat {
    if batches == [] then 0
    else
      var front, last := batches[..|batches| - 1], batches[|batches| - 1];
      FreshAnswers(front, n) + (if last == n && Admit(AfterWaits(front), last).1 == Answer(true) then 1 else 0)
  }

  /** In every run each batch is admitted exactly once if it is asked for at all, and batch zero never. */
  lemma {:induction false} AdmittedOnce(batches: seq<nat>, n: nat)
    ensures AscendingBatches(AfterWaits(batches)) && 0 !in AfterWaits(batches)
    ensures n in AfterWaits(batches) <==> n != 0 && n in batches
    ensures FreshAnswers(batches, n) == if n != 0 && n in batches then 1 else 0
  {
    if batches == [] {
    } else {
      var front, last := batches[..|batches| - 1], batches[|batches| - 1];
      assert batches == front + [last];
      AdmittedOnce(front, n);
      InsertAscends(AfterWaits(front), last);
    }
  }

  /** A snapshot of any reachable state restores, unchanged, exactly when at most 1024 batches were admitted. */
  lemma SnapshotRestores(d: Directory, batches: seq<nat>, size: Directory -> nat)
    requires Validate(d, size)
    ensures var s := Services(d, AfterWaits(batches));
            Resumed(s, size) == if |AfterWaits(batches)| <= 1024 then Some(s) else None
  {
    AdmittedOnce(batches, 0);
  }

  lemma {:induction false} NeighboursAscend(xs: seq<nat>)
    requires forall i :: 0 < i < |xs| ==> xs[i - 1] < xs[i]
    ensures AscendingBatches(xs)
  {
    if |xs| > 1 {
      var front := xs[..|xs| - 1];
      NeighboursAscend(front);
      forall i | 0 <= i < |front| ensures xs[i] < xs[|xs| - 1] {
        if i < |front| - 1 { assert front[i] < front[|front| - 1]; }
      }
    }
  }

  /** A snapshot that validates is a state some run reaches, so nothing admitted before it is admitted again. */
  lemma SnapshotIsReachable(xs: seq<nat>)
    requires SnapshotOk(xs)
    ensures AfterWaits(xs) == xs
  {
    NeighboursAscend(xs);
    AscendingReachable(xs);
  }

  lemma {:induction false} AscendingReachable(xs: seq<nat>)
    requires AscendingBatches(xs) && 0 !in xs
    ensures AfterWaits(xs) == xs
  {
    if xs == [] {
    } else {
      var front, last := xs[..|xs| - 1], xs[|xs| - 1];
      AscendingReachable(front);
      InsertLast(front, last);
      assert front + [last] == xs;
    }
  }

  lemma {:induction false} InsertLast(xs: seq<nat>, n: nat)
    requires forall i :: 0 <= i < |xs| ==> xs[i] < n
    ensures InsertBatch(xs, n) == xs + [n]
  {
    if xs == [] {
    } else {
      InsertLast(xs[1..], n);
    }
  }
}
