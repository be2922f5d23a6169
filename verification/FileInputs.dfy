/** Declared file inputs: revalidating frozen bindings and building the private execution tree. */
module FileInputs {
  import opened Prelude
  import opened Text
  import opened MountSet

  const MAX_INPUTS := 16
  const SCHEMA_VERSION := 1

  type Path = seq<string>

  datatype Node = Dir | File(bytes: seq<Byte>)

  type Tree = map<Path, Node>

  // ----- streaming one source

  /** One turn of the copy loop: what the cancellation token, the read and the write do. An empty read is the end. */
  datatype Turn = Turn(cancelled: bool, read: Option<seq<Byte>>, writeOk: bool)

  /** A source as it behaves while it is read. */
  datatype Source = Source(resolved: bool, lenBefore: nat, turns: seq<Turn>, lenAfter: nat, sameTime: bool)

  datatype Copied = Copied(size: nat, digest: string) | TooLarge | Failed

  /** The turns before the end of the file. */
  function Body(turns: seq<Turn>): (r: seq<Turn>)
    ensures |r| <= |turns| && r == turns[..|r|]
    ensures forall i :: 0 <= i < |r| ==> r[i].read != Some([])
    ensures |r| < |turns| ==> turns[|r|].read == Some([])
  {
    if turns == [] || turns[0].read == Some([]) then []
    else
      var rest := Body(turns[1..]);
      assert turns == [turns[0]] + turns[1..];
      [turns[0]] + rest
  }

  predicate CleanTurn(t: Turn) {
    !t.cancelled && t.read.Some? && t.writeOk
  }

  predicate CleanRead(turns: seq<Turn>) {
    (forall i :: 0 <= i < |Body(turns)| ==> CleanTurn(turns[i]))
    && (|Body(turns)| < |turns| ==> !turns[|Body(turns)|].cancelled)
  }

  /** The bytes delivered by the first `n` turns. */
  function Content(turns: seq<Turn>, n: nat): seq<Byte>
    requires n <= |turns|
  {
    if n == 0 then [] else Content(turns, n - 1) + (if turns[n - 1].read.Some? then turns[n - 1].read.value else [])
  }

  function Whole(s: Source): seq<Byte> {
    Content(s.turns, |Body(s.turns)|)
  }

  /** The source delivers its whole content undisturbed, of the size it had when opened, within the limit. */
  predicate Delivers(s: Source, max: nat) {
    s.resolved && CleanRead(s.turns) && s.sameTime
    && |Whole(s)| == s.lenBefore && s.lenAfter == s.lenBefore && s.lenBefore <= max
  }

  /** The source was too large when it was opened, or delivered too much before anything else went wrong. */
  ghost predicate Overruns(s: Source, max: nat) {
    s.resolved && (s.lenBefore > max || exists j :: 0 <= j < |Body(s.turns)| && OverrunAt(s.turns, max, j))
  }

  /** Turn `j` is the first to go wrong, by delivering beyond the limit. */
  ghost predicate OverrunAt(turns: seq<Turn>, max: nat, j: nat)
    requires j < |turns|
  {
    (forall k :: 0 <= k < j ==> CleanTurn(turns[k])) && !turns[j].cancelled && turns[j].read.Some?
    && |Content(turns, j)| <= max < |Content(turns, j + 1)|
  }

  /** After clean turns within the limit, nothing overran if the reading ended there or went wrong otherwise. */
  lemma NoOverrun(turns: seq<Turn>, max: nat, i: nat)
    requires i <= |Body(turns)| && (forall k :: 0 <= k < i ==> CleanTurn(turns[k])) && |Content(turns, i)| <= max
    requires i == |Body(turns)| || turns[i].cancelled || turns[i].read.None?
             || (!turns[i].writeOk && |Content(turns, i + 1)| <= max)
    ensures forall j :: 0 <= j < |Body(turns)| ==> !OverrunAt(turns, max, j)
  {
    hide Body, Content;
    forall j | 0 <= j < |Body(turns)| ensures !OverrunAt(turns, max, j) {
      if j < i { ContentGrows(turns, j + 1, i); }
    }
  }

  /** What an undisturbed delivery is, turn by turn. */
  lemma DeliversMeans(s: Source, max: nat)
    ensures Delivers(s, max) <==>
            s.resolved && s.sameTime && s.lenAfter == s.lenBefore <= max && |Whole(s)| == s.lenBefore
            && (forall i :: 0 <= i < |Body(s.turns)| ==> !s.turns[i].cancelled && s.turns[i].read.Some? && s.turns[i].writeOk)
            && (|Body(s.turns)| < |s.turns| ==> !s.turns[|Body(s.turns)|].cancelled)
  {
    hide Body, Content;
  }

  lemma {:induction false} ContentGrows(turns: seq<Turn>, a: nat, b: nat)
    requires a <= b <= |turns|
    ensures Content(turns, a) <= Content(turns, b)
  {
    if a < b { ContentGrows(turns, a, b - 1); }
  }

  lemma ContentStart(turns: seq<Turn>)
    ensures Content(turns, 0) == []
  {
  }

  lemma ContentNext(turns: seq<Turn>, i: nat)
    requires i < |turns| && turns[i].read.Some?
    ensures Content(turns, i + 1) == Content(turns, i) + turns[i].read.value
  {
  }

  /**
   * The chunked loop: success is exactly an undisturbed delivery, and then one whole copy and one hash of the
   * content; at no point, success or not, is more written than the limit allows.
   */
  method StreamRegularFile(s: Source, max: nat, sha: seq<Byte> -> string) returns (r: Copied, output: seq<Byte>)
    ensures r.Copied? <==> Delivers(s, max)
    ensures r.TooLarge? <==> Overruns(s, max)
    ensures r.Copied? ==> output == Whole(s) && r == Copied(|Whole(s)|, sha(Whole(s)))
    ensures |output| <= max && output <= Whole(s)
  {
    hide Body, Content;
    output := [];
    ContentStart(s.turns);
    ContentGrows(s.turns, 0, |Body(s.turns)|);
    if !s.resolved { return Failed, output; }
    if s.lenBefore > max { return TooLarge, output; }
    var size := 0;
    var hashed: seq<Byte> := [];
    ghost var n := |Body(s.turns)|;
    var i := 0;
    while i < |s.turns|
      invariant 0 <= i <= n && size == |output| <= max
      invariant output == hashed == Content(s.turns, i)
      invariant forall k :: 0 <= k < i ==> CleanTurn(s.turns[k])
    {
      ContentGrows(s.turns, i, n);
      var turn := s.turns[i];
      if turn.cancelled || turn.read.None? {
        NoOverrun(s.turns, max, i);
        return Failed, output;
      }
      var chunk := turn.read.value;
      if chunk == [] { break; }
      ContentNext(s.turns, i);
      ContentGrows(s.turns, i + 1, n);
      if size + |chunk| > max {
        assert OverrunAt(s.turns, max, i);
        return TooLarge, output;
      }
      size := size + |chunk|;
      hashed := hashed + chunk;
      if !turn.writeOk {
        NoOverrun(s.turns, max, i);
        return Failed, output;
      }
      output := output + chunk;
      i := i + 1;
    }
    NoOverrun(s.turns, max, i);
    if s.lenAfter != s.lenBefore || !s.sameTime || size != s.lenBefore { return Failed, output; }
    r := Copied(size, sha(hashed));
  }

  // ----- bindings

  datatype Binding = Binding(schemaVersion: nat, mount: string, sourceKind: nat, sourceCanonical: bool,
                             size: nat, sha256: string)

  datatype Evidence = Evidence(mount: string, sourceKind: nat, size: nat, sha256: string)

  function EvidenceOf(b: Binding): Evidence {
    Evidence(b.mount, b.sourceKind, b.size, b.sha256)
  }

  predicate LowerHexSha(s: string) {
    |s| == 64 && forall c :: c in s ==> '0' <= c <= '9' || 'a' <= c <= 'f'
  }

  function Mounts(bs: seq<Binding>): (r: seq<string>)
    ensures |r| == |bs| && forall i :: 0 <= i < |bs| ==> r[i] == bs[i].mount
  {
    seq(|bs|, i requires 0 <= i < |bs| => bs[i].mount)
  }

  predicate BindingOk(b: Binding) {
    Canonical(b.mount) && b.sourceCanonical && b.schemaVersion == SCHEMA_VERSION && LowerHexSha(b.sha256)
  }

  predicate BindingsOk(bs: seq<Binding>) {
    |bs| <= MAX_INPUTS && (forall i :: 0 <= i < |bs| ==> BindingOk(bs[i])) && MountSetOk(Mounts(bs))
  }

  method ValidateBindings(bs: seq<Binding>) returns (ok: bool)
    ensures ok == BindingsOk(bs)
  {
    hide Normalize, Join, LowerHexSha, MountSetOk;
    if |bs| > MAX_INPUTS { return false; }
    var mounts: seq<string> := [];
    for i := 0 to |bs|
      invariant |mounts| == i && forall k :: 0 <= k < i ==> BindingOk(bs[k]) && mounts[k] == bs[k].mount
    {
      if !BindingOk(bs[i]) { return false; }
      mounts := mounts + [Join(Normalize(bs[i].mount).value)];
    }
    assert mounts == Mounts(bs);
    ok := ValidateMountSet(mounts);
  }

  /** What accepted bindings are: at most 16, of the current version, in canonical form, free of path conflicts. */
  lemma BindingsMean(bs: seq<Binding>)
    ensures BindingsOk(bs) <==>
            |bs| <= 16
            && (forall i :: 0 <= i < |bs| ==>
                  bs[i].schemaVersion == 1 && bs[i].sourceCanonical && Canonical(bs[i].mount) && |bs[i].sha256| == 64
                  && forall c :: c in bs[i].sha256 ==> '0' <= c <= '9' || 'a' <= c <= 'f')
            && PrefixFree(MountPaths(true, Mounts(bs)))
  {
    hide Canonical, MountSetOk, PrefixFree;
    if forall i :: 0 <= i < |bs| ==> Canonical(bs[i].mount) { MountSetPrefixFree(Mounts(bs)); }
    else { forall i | 0 <= i < |bs| ensures BindingOk(bs[i]) ==> Canonical(bs[i].mount) { } }
  }

  // ----- the private tree

  predicate IsPrefix(p: Path, q: Path) {
    p <= q
  }

  /**
   * The tree holds the first `k` paths as files with their contents, their ancestors and those of the partial
   * path `open` as directories, and nothing else.
   */
  ghost predicate Holds(tree: Tree, paths: seq<Path>, contents: seq<seq<Byte>>, k: nat, open: Path) {
    k <= |paths| && k <= |contents|
    && (forall p :: p in tree ==> p != [] && (IsPrefix(p, open) || exists i :: 0 <= i < k && IsPrefix(p, paths[i])))
    && (forall p, i :: 0 <= i < k && p != [] && IsPrefix(p, paths[i]) ==> p in tree)
    && (forall p :: p != [] && IsPrefix(p, open) ==> p in tree)
    && (forall i :: 0 <= i < k ==> paths[i] in tree ==> tree[paths[i]] == File(contents[i]))
    && (forall p :: p in tree && (forall i :: 0 <= i < k ==> p != paths[i]) ==> tree[p] == Dir)
  }

  /** The directories for the first `n` ancestors; None when a file stands where a directory is needed. */
  function Parents(tree: Tree, target: Path, n: nat): Option<Tree>
    requires n <= |target|
  {
    if n == 0 then Some(tree)
    else
      match Parents(tree, target, n - 1)
      case None => None
      case Some(t) =>
        var current := target[..n];
        if current !in t then Some(t[current := Dir]) else if t[current].Dir? then Some(t) else None
  }

  /** `create_private_parent_directories`. */
  method CreateParents(tree: Tree, target: Path) returns (r: Option<Tree>)
    requires target != []
    ensures r == Parents(tree, target, |target| - 1)
  {
    var grown := tree;
    for n := 1 to |target|
      invariant Parents(tree, target, n - 1) == Some(grown)
    {
      var current := target[..n];
      if current !in grown {
        grown := grown[current := Dir];
      } else if !grown[current].Dir? {
        ParentsFail(tree, target, n, |target| - 1);
        return None;
      }
    }
    r := Some(grown);
  }

  lemma {:induction false} ParentsFail(tree: Tree, target: Path, n: nat, m: nat)
    requires n <= m <= |target| && Parents(tree, target, n) == None
    ensures Parents(tree, target, m) == None
  {
    if n < m { ParentsFail(tree, target, n, m - 1); }
  }

  /** In a tree that holds prefix-free paths, the next path's parents never meet a file. */
  lemma {:induction false} ParentsHold(tree: Tree, paths: seq<Path>, contents: seq<seq<Byte>>, k: nat, n: nat)
    requires k < |paths| && n < |paths[k]| && PrefixFree(paths) && Holds(tree, paths, contents, k, [])
    ensures var t := Parents(tree, paths[k], n); t.Some? && Holds(t.value, paths, contents, k, paths[k][..n])
  {
    hide Holds;
    var target := paths[k];
    if n == 0 {
      assert target[..0] == [];
    } else {
      ParentsHold(tree, paths, contents, k, n - 1);
      var t := Parents(tree, target, n - 1).value;
      if target[..n] !in t { OpenOne(t, paths, contents, k, target, n); }
      else { StillOpen(t, paths, contents, k, target, n); }
    }
  }

  lemma ProperPrefixFree(paths: seq<Path>, k: nat, i: nat, p: Path)
    requires PrefixFree(paths) && k < |paths| && i < |paths| && i != k && IsPrefix(p, paths[k])
    ensures p != paths[i]
  {
  }

  lemma OpenOne(tree: Tree, paths: seq<Path>, contents: seq<seq<Byte>>, k: nat, target: Path, n: nat)
    requires 1 <= n < |target| && k < |paths| && target == paths[k] && PrefixFree(paths)
    requires Holds(tree, paths, contents, k, target[..n - 1]) && target[..n] !in tree
    ensures Holds(tree[target[..n] := Dir], paths, contents, k, target[..n])
  {
    var p := target[..n];
    var r := tree[p := Dir];
    forall i | 0 <= i < k ensures p != paths[i] { ProperPrefixFree(paths, k, i, p); }
    PrefixSteps(target, n);
  }

  lemma PrefixSteps(target: Path, n: nat)
    requires 1 <= n <= |target|
    ensures forall q :: IsPrefix(q, target[..n]) <==> IsPrefix(q, target[..n - 1]) || q == target[..n]
  {
    forall q ensures IsPrefix(q, target[..n]) <==> IsPrefix(q, target[..n - 1]) || q == target[..n] {
      if q <= target[..n] && |q| < n { assert q == target[..n][..|q|] == target[..n - 1][..|q|]; }
      if q <= target[..n - 1] { assert target[..n - 1] == target[..n][..n - 1]; }
      if q <= target[..n] && |q| == n { assert q == target[..n][..n]; }
    }
  }

  lemma StillOpen(tree: Tree, paths: seq<Path>, contents: seq<seq<Byte>>, k: nat, target: Path, n: nat)
    requires 1 <= n < |target| && k < |paths| && target == paths[k] && PrefixFree(paths)
    requires Holds(tree, paths, contents, k, target[..n - 1]) && target[..n] in tree
    ensures Holds(tree, paths, contents, k, target[..n]) && tree[target[..n]] == Dir
  {
    forall i | 0 <= i < k ensures target[..n] != paths[i] { ProperPrefixFree(paths, k, i, target[..n]); }
    PrefixSteps(target, n);
  }

  /** The file's own place is free once its parents exist. */
  lemma PlaceFree(tree: Tree, paths: seq<Path>, contents: seq<seq<Byte>>, k: nat, bytes: seq<Byte>)
    requires k < |paths| && k == |contents| && paths[k] != [] && PrefixFree(paths)
    requires Holds(tree, paths, contents, k, paths[k][..|paths[k]| - 1])
    ensures paths[k] !in tree
    ensures Holds(tree[paths[k] := File(bytes)], paths, contents + [bytes], k + 1, [])
  {
    var target := paths[k];
    PrefixSteps(target, |target|);
    assert target[..|target|] == target;
    assert !IsPrefix(target, target[..|target| - 1]);
    assert forall i :: 0 <= i < k ==> !IsPrefix(target, paths[i]);
    var r, cs := tree[target := File(bytes)], contents + [bytes];
    forall p | p in r ensures p != [] && (IsPrefix(p, []) || exists i :: 0 <= i < k + 1 && IsPrefix(p, paths[i])) {
      if p != target {
        assert p in tree;
        if IsPrefix(p, target[..|target| - 1]) { assert IsPrefix(p, paths[k]); }
      } else { assert IsPrefix(p, paths[k]); }
    }
    forall i | 0 <= i < k + 1 ensures paths[i] in r ==> r[paths[i]] == File(cs[i]) {
      if i < k { ProperPrefixFree(paths, k, i, paths[k]); }
    }
  }

  datatype Outcome =
    | Nothing                                     // no bindings: no private directory
    | Prepared(tree: Tree, evidence: seq<Evidence>)
    | Refused(reason: Refusal)

  datatype Refusal = BadBindings | Cancelled | NameConflict | SourceFailed | Changed

  /** The source still is what was frozen. */
  predicate Unchanged(b: Binding, s: Source, sha: seq<Byte> -> string) {
    Delivers(s, b.size) && |Whole(s)| == b.size && sha(Whole(s)) == b.sha256
  }

  function Wholes(sources: seq<Source>): (r: seq<seq<Byte>>)
    ensures |r| == |sources| && forall i :: 0 <= i < |r| ==> r[i] == Whole(sources[i])
  {
    seq(|sources|, i requires 0 <= i < |sources| => Whole(sources[i]))
  }

  lemma BindingPaths(foldCase: bool, bs: seq<Binding>)
    requires BindingsOk(bs)
    ensures PrefixFree(MountPaths(foldCase, Mounts(bs)))
    ensures forall i :: 0 <= i < |bs| ==> MountPaths(foldCase, Mounts(bs))[i] != []
  {
    hide Canonical, LowerHexSha;
    var mounts := Mounts(bs);
    MountSetPrefixFree(mounts);
    forall i | 0 <= i < |bs| ensures MountPath(foldCase, mounts[i]) != [] {
      assert BindingOk(bs[i]);
      PathNonEmpty(foldCase, mounts[i]);
    }
  }

  lemma PathNonEmpty(foldCase: bool, mount: string)
    requires Canonical(mount)
    ensures MountPath(foldCase, mount) != []
  {
    hide Trim, SplitSlash, Named;
  }

  /** A source that delivers something else than what was frozen, or too much, has changed; any other failure is its own. */
  ghost function Trouble(b: Binding, s: Source): Refusal {
    if Overruns(s, b.size) || Delivers(s, b.size) then Changed else SourceFailed
  }

  predicate Fine(bs: seq<Binding>, sources: seq<Source>, cancelled: seq<bool>, sha: seq<Byte> -> string, i: nat)
    requires i < |sources| == |bs| == |cancelled|
  {
    !cancelled[i] && Unchanged(bs[i], sources[i], sha)
  }

  /** Binding `k` is the first one that is cancelled or not what was frozen, and that is the reason given. */
  ghost predicate StopsAt(bs: seq<Binding>, sources: seq<Source>, cancelled: seq<bool>, sha: seq<Byte> -> string,
                          k: nat, reason: Refusal)
    requires k < |sources| == |bs| == |cancelled|
  {
    (forall i :: 0 <= i < k ==> Fine(bs, sources, cancelled, sha, i)) && !Fine(bs, sources, cancelled, sha, k)
    && reason == if cancelled[k] then Cancelled else Trouble(bs[k], sources[k])
  }

  datatype Placed = Placed(tree: Tree) | NotPlaced(reason: Refusal)

  /** One binding: parents, a new file, a verified copy. */
  method PlaceOne(tree: Tree, target: Path, b: Binding, s: Source, sha: seq<Byte> -> string) returns (r: Placed)
    requires target != []
    ensures var t := Parents(tree, target, |target| - 1);
            if t.None? || target in t.value then r == NotPlaced(NameConflict)
            else if Unchanged(b, s, sha) then r == Placed(t.value[target := File(Whole(s))])
            else r == NotPlaced(Trouble(b, s))
  {
    hide Parents, Delivers, Whole, Overruns;
    var grown := CreateParents(tree, target);
    if grown.None? || target in grown.value { return NotPlaced(NameConflict); }
    var copied, output := StreamRegularFile(s, b.size, sha);
    if copied.TooLarge? { return NotPlaced(Changed); }
    if copied.Failed? { return NotPlaced(SourceFailed); }
    if copied.size != b.size || copied.digest != b.sha256 { return NotPlaced(Changed); }
    r := Placed(grown.value[target := File(output)]);
  }

  lemma PlacedHolds(tree: Tree, paths: seq<Path>, contents: seq<seq<Byte>>, k: nat, bytes: seq<Byte>)
    requires k < |paths| && k == |contents| && paths[k] != [] && PrefixFree(paths) && Holds(tree, paths, contents, k, [])
    ensures var t := Parents(tree, paths[k], |paths[k]| - 1);
            t.Some? && paths[k] !in t.value
            && Holds(t.value[paths[k] := File(bytes)], paths, contents + [bytes], k + 1, [])
  {
    hide Holds, Parents, PrefixFree;
    ParentsHold(tree, paths, contents, k, |paths[k]| - 1);
    PlaceFree(Parents(tree, paths[k], |paths[k]| - 1).value, paths, contents, k, bytes);
  }

  /** What a call has promised after its first `k` bindings. */
  ghost predicate Progress(bs: seq<Binding>, sources: seq<Source>, cancelled: seq<bool>, foldCase: bool,
                           sha: seq<Byte> -> string, k: nat, tree: Tree, evidence: seq<Evidence>)
    requires |sources| == |bs| == |cancelled| && k <= |bs|
  {
    |evidence| == k && (forall i :: 0 <= i < k ==> evidence[i] == EvidenceOf(bs[i]))
    && (forall i :: 0 <= i < k ==> !cancelled[i] && Unchanged(bs[i], sources[i], sha))
    && Holds(tree, MountPaths(foldCase, Mounts(bs)), Wholes(sources)[..k], k, [])
  }

  /** The parents of the path can be made, and the path itself is then free. */
  predicate NextPlace(tree: Tree, target: Path) {
    target != [] && var t := Parents(tree, target, |target| - 1); t.Some? && target !in t.value
  }

  /** The tree with the parents of the path and the file in place, where there is room for it. */
  function Grown(tree: Tree, target: Path, bytes: seq<Byte>): Tree {
    if NextPlace(tree, target) then Parents(tree, target, |target| - 1).value[target := File(bytes)] else tree
  }

  lemma ProgressOne(bs: seq<Binding>, sources: seq<Source>, cancelled: seq<bool>, foldCase: bool,
                    sha: seq<Byte> -> string, k: nat, tree: Tree, evidence: seq<Evidence>)
    requires |sources| == |bs| == |cancelled| && k < |bs| && BindingsOk(bs)
    requires Progress(bs, sources, cancelled, foldCase, sha, k, tree, evidence)
    ensures NextPlace(tree, MountPath(foldCase, bs[k].mount))
    ensures !cancelled[k] && Unchanged(bs[k], sources[k], sha) ==>
              Progress(bs, sources, cancelled, foldCase, sha, k + 1,
                       Grown(tree, MountPath(foldCase, bs[k].mount), Whole(sources[k])), evidence + [EvidenceOf(bs[k])])
  {
    hide Holds, Parents, Unchanged, BindingsOk, PrefixFree, Whole, MountPath;
    BindingPaths(foldCase, bs);
    var paths, contents := MountPaths(foldCase, Mounts(bs)), Wholes(sources)[..k];
    PlacedHolds(tree, paths, contents, k, Whole(sources[k]));
    assert Wholes(sources)[..k + 1] == contents + [Whole(sources[k])];
  }

  lemma NotBadBindings(b: Binding, s: Source)
    ensures Trouble(b, s) == Changed || Trouble(b, s) == SourceFailed
  {
    hide Overruns, Delivers;
  }

  lemma NothingYet(paths: seq<Path>)
    ensures Holds(map[], paths, [], 0, [])
  {
  }

  /**
   * The whole call, on a file system that folds case or one that does not. It succeeds exactly when the bindings
   * are well formed, no cancellation is seen and every source still is what was frozen; then the tree holds
   * exactly the mounts with their sources' bytes, and the evidence lists the bindings in order. A name conflict
   * inside the private tree never happens.
   */
  method Materialize(bs: seq<Binding>, sources: seq<Source>, cancelled: seq<bool>, foldCase: bool, sha: seq<Byte> -> string)
    returns (r: Outcome)
    requires |sources| == |bs| == |cancelled|
    ensures r.Nothing? <==> bs == []
    ensures r.Prepared? <==>
            bs != [] && BindingsOk(bs)
            && forall i :: 0 <= i < |bs| ==> !cancelled[i] && Unchanged(bs[i], sources[i], sha)
    ensures r.Prepared? ==> Progress(bs, sources, cancelled, foldCase, sha, |bs|, r.tree, r.evidence)
    ensures r != Refused(NameConflict) && (r == Refused(BadBindings) <==> bs != [] && !BindingsOk(bs))
    ensures r.Refused? && BindingsOk(bs) ==> exists k :: 0 <= k < |bs| && StopsAt(bs, sources, cancelled, sha, k, r.reason)
  {
    hide Parents, Unchanged, BindingsOk, MountPath, Holds, Trouble;
    if bs == [] { return Nothing; }
    var valid := ValidateBindings(bs);
    if !valid { return Refused(BadBindings); }
    var tree: Tree := map[];
    var evidence: seq<Evidence> := [];
    NothingYet(MountPaths(foldCase, Mounts(bs)));
    for k := 0 to |bs|
      invariant Progress(bs, sources, cancelled, foldCase, sha, k, tree, evidence)
    {
      if cancelled[k] {
        assert StopsAt(bs, sources, cancelled, sha, k, Cancelled);
        return Refused(Cancelled);
      }
      ProgressOne(bs, sources, cancelled, foldCase, sha, k, tree, evidence);
      var placed := PlaceOne(tree, MountPath(foldCase, bs[k].mount), bs[k], sources[k], sha);
      if placed.NotPlaced? {
        NotBadBindings(bs[k], sources[k]);
        assert StopsAt(bs, sources, cancelled, sha, k, placed.reason);
        return Refused(placed.reason);
      }
      tree := placed.tree;
      evidence := evidence + [EvidenceOf(bs[k])];
    }
    r := Prepared(tree, evidence);
  }

  /**
   * What a successful call leaves: under every mount exactly its source's bytes, of the frozen size and digest,
   * and no other file.
   */
  lemma MaterializedExactly(bs: seq<Binding>, sources: seq<Source>, cancelled: seq<bool>, foldCase: bool,
                            sha: seq<Byte> -> string, tree: Tree, evidence: seq<Evidence>)
    requires |sources| == |bs| == |cancelled| && BindingsOk(bs)
    requires Progress(bs, sources, cancelled, foldCase, sha, |bs|, tree, evidence)
    ensures forall i :: 0 <= i < |bs| ==>
              var p := MountPath(foldCase, bs[i].mount);
              p in tree && tree[p] == File(Whole(sources[i]))
              && |Whole(sources[i])| == bs[i].size && sha(Whole(sources[i])) == bs[i].sha256
    ensures forall p :: p in tree && tree[p].File? ==> exists i :: 0 <= i < |bs| && MountPath(foldCase, bs[i].mount) == p
    ensures |evidence| == |bs|
    ensures forall i :: 0 <= i < |bs| ==>
              evidence[i].mount == bs[i].mount && evidence[i].sourceKind == bs[i].sourceKind
              && evidence[i].size == |Whole(sources[i])| && evidence[i].sha256 == sha(Whole(sources[i]))
  {
    hide BindingsOk, Whole, MountPath, Delivers, PrefixFree, Holds;
    BindingPaths(foldCase, bs);
    var paths, contents := MountPaths(foldCase, Mounts(bs)), Wholes(sources)[..|bs|];
    forall i | 0 <= i < |bs|
      ensures var p := MountPath(foldCase, bs[i].mount); p in tree && tree[p] == File(Whole(sources[i]))
    {
      FileAt(tree, paths, contents, i);
    }
    forall p | p in tree && tree[p].File? ensures exists i :: 0 <= i < |bs| && MountPath(foldCase, bs[i].mount) == p {
      var i := FileKnown(tree, paths, contents, p);
      assert paths[i] == MountPath(foldCase, bs[i].mount);
    }
  }

  lemma FileAt(tree: Tree, paths: seq<Path>, contents: seq<seq<Byte>>, i: nat)
    requires Holds(tree, paths, contents, |paths|, []) && i < |paths| && paths[i] != []
    ensures paths[i] in tree && tree[paths[i]] == File(contents[i])
  {
    assert IsPrefix(paths[i], paths[i]);
  }

  lemma FileKnown(tree: Tree, paths: seq<Path>, contents: seq<seq<Byte>>, p: Path) returns (i: nat)
    requires Holds(tree, paths, contents, |paths|, []) && p in tree && tree[p].File?
    ensures i < |paths| && paths[i] == p
  {
    i :| 0 <= i < |paths| && p == paths[i];
  }
}
