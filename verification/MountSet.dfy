/** Mount paths of declared file inputs: normal form, and the check that a set of them fits in one tree. */
module MountSet {
  import opened Prelude
  import opened Text

  const MAX_MOUNT_CHARS := 240

  // ----- components

  function SplitSlash(s: string): (r: seq<string>)
    ensures |r| > 0 && forall i :: 0 <= i < |r| ==> '/' !in r[i]
  {
    if s == [] then [[]]
    else
      var rest := SplitSlash(s[1..]);
      if s[0] == '/' then [[]] + rest else [[s[0]] + rest[0]] + rest[1..]
  }

  function Join(cs: seq<string>): string {
    if cs == [] then [] else if |cs| == 1 then cs[0] else cs[0] + "/" + Join(cs[1..])
  }

  /** The components `Path::components` yields as ordinary names. */
  function Named(cs: seq<string>): (r: seq<string>)
    ensures forall c :: c in r ==> c in cs && c != "" && c != "."
  {
    if cs == [] then [] else (if cs[0] == "" || cs[0] == "." then [] else [cs[0]]) + Named(cs[1..])
  }

  /** `normalize_mount_path`: the components of an acceptable mount, or None. */
  function Normalize(value: string): Option<seq<string>> {
    var v := Trim(value);
    if v == [] || '\0' in v || '\n' in v || '\r' in v || |v| > MAX_MOUNT_CHARS || v[0] == '/' then None
    else
      var cs := Named(SplitSlash(v));
      if ".." in cs || cs == [] then None else Some(cs)
  }

  /** A mount that is its own normal form. */
  predicate Canonical(mount: string) {
    Normalize(mount).Some? && Join(Normalize(mount).value) == mount
  }

  predicate ValidPath(cs: seq<string>) {
    cs != [] && forall i :: 0 <= i < |cs| ==> cs[i] != "" && '/' !in cs[i]
  }

  lemma NormalizeValid(value: string)
    requires Normalize(value).Some?
    ensures ValidPath(Normalize(value).value)
  {
    var cs := Normalize(value).value;
    forall i | 0 <= i < |cs| ensures cs[i] != "" && '/' !in cs[i] { assert cs[i] in cs; }
  }

  /** Every component followed by a slash. */
  function Slashed(cs: seq<string>): string {
    if cs == [] then [] else cs[0] + "/" + Slashed(cs[1..])
  }

  lemma {:induction false} SlashedJoin(cs: seq<string>)
    requires cs != []
    ensures Slashed(cs) == Join(cs) + "/"
  {
    if |cs| > 1 {
      SlashedJoin(cs[1..]);
      assert cs[0] + "/" + (Join(cs[1..]) + "/") == cs[0] + "/" + Join(cs[1..]) + "/";
    }
  }

  // ----- which paths are accepted

  /** Some part of the path is a name. */
  lemma {:induction false} NamedNonEmpty(cs: seq<string>)
    ensures Named(cs) != [] <==> exists i :: 0 <= i < |cs| && cs[i] != "" && cs[i] != "."
    ensures ".." in Named(cs) <==> ".." in cs
  {
    if cs == [] {
    } else {
      NamedNonEmpty(cs[1..]);
      if i :| 0 <= i < |cs[1..]| && cs[1..][i] != "" && cs[1..][i] != "." { assert cs[i + 1] == cs[1..][i]; }
      if i :| 0 <= i < |cs| && cs[i] != "" && cs[i] != "." { if i > 0 { assert cs[1..][i - 1] == cs[i]; } }
      DotsDiffer();
      assert cs == [cs[0]] + cs[1..];
    }
  }

  lemma DotsDiffer()
    ensures ".." != "" && ".." != "."
  {
    assert |".."| == 2 && |"."| == 1;
  }

  /**
   * A mount is accepted exactly when, trimmed, it is a relative path of at most 240 characters without line breaks or
   * NUL, no part of it is `..`, and some part is a name.
   */
  lemma NormalizeAcceptsIff(value: string)
    ensures Normalize(value).Some? <==>
            var v := Trim(value);
            v != [] && '\0' !in v && '\n' !in v && '\r' !in v && |v| <= 240 && v[0] != '/'
            && ".." !in SplitSlash(v) && exists i :: 0 <= i < |SplitSlash(v)| && SplitSlash(v)[i] != "" && SplitSlash(v)[i] != "."
  {
    hide Trim, SplitSlash, Named;
    NamedNonEmpty(SplitSlash(Trim(value)));
  }

  // ----- normalising a normal form

  lemma {:induction false} SlashedSplit(s: string)
    ensures Slashed(SplitSlash(s)) == s + "/"
  {
    if s == [] {
    } else {
      SlashedSplit(s[1..]);
      var rest := SplitSlash(s[1..]);
      assert s == [s[0]] + s[1..];
      if s[0] == '/' {
        assert SplitSlash(s)[1..] == rest;
      } else {
        assert SplitSlash(s)[1..] == rest[1..];
        assert [s[0]] + rest[0] + "/" + Slashed(rest[1..]) == [s[0]] + Slashed(rest);
      }
    }
  }

  lemma {:induction false} SlashedNamed(cs: seq<string>)
    ensures |Slashed(Named(cs))| <= |Slashed(cs)|
    ensures forall x :: x in Slashed(Named(cs)) ==> x in Slashed(cs)
  {
    if cs == [] {
    } else {
      SlashedNamed(cs[1..]);
      if cs[0] == "" || cs[0] == "." { assert Named(cs) == Named(cs[1..]); }
      else { assert Named(cs)[0] == cs[0] && Named(cs)[1..] == Named(cs[1..]); }
    }
  }

  /** A normal form is no longer than the trimmed text, and holds no character that is not in it or a slash. */
  lemma NormalizeShrinks(value: string)
    requires Normalize(value).Some?
    ensures var m := Join(Normalize(value).value);
            |m| <= |Trim(value)| && forall x :: x in m ==> x == '/' || x in Trim(value)
  {
    hide Trim;
    var v := Trim(value);
    var cs := Normalize(value).value;
    SlashedSplit(v);
    SlashedNamed(SplitSlash(v));
    SlashedJoin(cs);
    forall x | x in Join(cs) ensures x == '/' || x in v { assert x in Slashed(cs); }
  }

  lemma {:induction false} SplitAtSlash(c: string, rest: string)
    requires '/' !in c
    ensures SplitSlash(c) == [c] && SplitSlash(c + "/" + rest) == [c] + SplitSlash(rest)
  {
    var s := c + "/" + rest;
    if c == [] {
      assert s[1..] == rest;
    } else {
      assert s[1..] == c[1..] + "/" + rest;
      SplitAtSlash(c[1..], rest);
      assert [c[0]] + c[1..] == c;
    }
  }

  lemma {:induction false} SplitJoin(cs: seq<string>)
    requires ValidPath(cs)
    ensures SplitSlash(Join(cs)) == cs
  {
    SplitAtSlash(cs[0], Join(cs[1..]));
    if |cs| > 1 { SplitJoin(cs[1..]); }
  }

  lemma {:induction false} NamedKept(cs: seq<string>)
    requires forall c :: c in cs ==> c != "" && c != "."
    ensures Named(cs) == cs
  {
    if cs == [] {
    } else {
      assert cs[0] in cs && forall c :: c in cs[1..] ==> c in cs;
      NamedKept(cs[1..]);
      assert [cs[0]] + cs[1..] == cs;
    }
  }

  /** No white space at either end of the path. */
  predicate EdgesPlain(cs: seq<string>)
    requires ValidPath(cs)
  {
    !White(cs[0][0]) && !White(cs[|cs| - 1][|cs[|cs| - 1]| - 1])
  }

  lemma {:induction false} JoinEdges(cs: seq<string>)
    requires ValidPath(cs)
    ensures Join(cs) != [] && Join(cs)[0] == cs[0][0]
    ensures Join(cs)[|Join(cs)| - 1] == cs[|cs| - 1][|cs[|cs| - 1]| - 1]
  {
    hide Join;
    JoinUnfold(cs);
    if |cs| == 1 {
    } else {
      var rest := cs[1..];
      assert rest[|rest| - 1] == cs[|cs| - 1];
      JoinEdges(rest);
      SlashEdges(cs[0], Join(rest));
    }
  }

  lemma JoinUnfold(cs: seq<string>)
    requires cs != []
    ensures Join(cs) == if |cs| == 1 then cs[0] else cs[0] + "/" + Join(cs[1..])
  {
  }

  lemma SlashEdges(a: string, b: string)
    requires a != [] && b != []
    ensures var s := a + "/" + b; s != [] && s[0] == a[0] && s[|s| - 1] == b[|b| - 1]
  {
  }

  /** The path without the `/` and `./` it starts with. */
  function DropLead(v: string): string {
    if |v| > 0 && v[0] == '/' then DropLead(v[1..])
    else if |v| > 1 && v[0] == '.' && v[1] == '/' then DropLead(v[2..])
    else v
  }

  /** The path without the `/` and `/.` it ends with. */
  function DropTail(v: string): string {
    var n := |v|;
    if n > 0 && v[n - 1] == '/' then DropTail(v[..n - 1])
    else if n > 1 && v[n - 2] == '/' && v[n - 1] == '.' then DropTail(v[..n - 2])
    else v
  }

  /** Dropping the empty and `.` parts at the ends of the given path leaves white space at an end. */
  predicate ExposesWhite(value: string) {
    var v := Trim(value);
    !Trimmed(DropLead(v)) || !Trimmed(DropTail(v))
  }

  lemma {:induction false} NamedAppend(a: seq<string>, b: seq<string>)
    ensures Named(a + b) == Named(a) + Named(b)
  {
    if a == [] {
      assert a + b == b;
    } else {
      assert (a + b)[1..] == a[1..] + b;
      NamedAppend(a[1..], b);
    }
  }

  lemma {:induction false} SplitLast(u: string, c: string)
    requires '/' !in c
    ensures SplitSlash(u + "/" + c) == SplitSlash(u) + [c]
  {
    var s := u + "/" + c;
    if u == [] {
      assert s == [] + "/" + c;
      SplitAtSlash([], c);
      SplitAtSlash(c, "");
    } else {
      assert s[1..] == u[1..] + "/" + c;
      SplitLast(u[1..], c);
      var rest := SplitSlash(u[1..]);
      if u[0] != '/' { assert (rest + [c])[1..] == rest[1..] + [c]; }
    }
  }

  /** The first name starts where the leading parts end. */
  lemma {:induction false} LeadName(v: string)
    requires Named(SplitSlash(v)) != []
    ensures DropLead(v) != [] && Named(SplitSlash(v))[0] != [] && DropLead(v)[0] == Named(SplitSlash(v))[0][0]
  {
    var rest := if v == [] then [] else SplitSlash(v[1..]);
    if v == [] {
    } else if v[0] == '/' {
      assert SplitSlash(v)[1..] == rest;
      assert Named(SplitSlash(v)) == Named(rest);
      LeadName(v[1..]);
    } else if |v| > 1 && v[0] == '.' && v[1] == '/' {
      assert v == "." + "/" + v[2..];
      SplitAtSlash(".", v[2..]);
      assert SplitSlash(v)[0] == "." && SplitSlash(v)[1..] == SplitSlash(v[2..]);
      assert Named(SplitSlash(v)) == Named(SplitSlash(v[2..]));
      LeadName(v[2..]);
    } else {
      PlainHead(v);
    }
  }

  /** A path that starts with neither a slash nor `./` starts with a name. */
  lemma {:induction false} PlainHead(v: string)
    requires v != [] && v[0] != '/' && !(|v| > 1 && v[0] == '.' && v[1] == '/')
    requires Named(SplitSlash(v)) != []
    ensures Named(SplitSlash(v))[0] == SplitSlash(v)[0] && SplitSlash(v)[0] != [] && SplitSlash(v)[0][0] == v[0]
  {
    NotDot(v);
  }

  lemma {:induction false} DotIs(c: string)
    ensures c == "." <==> |c| == 1 && c[0] == '.'
  {
  }

  lemma {:induction false} SplitOne(v: string)
    requires |v| == 1 && v[0] != '/'
    ensures SplitSlash(v) == [v]
  {
    SplitAtSlash(v, "");
  }

  lemma {:induction false} NotDot(v: string)
    requires v != [] && v[0] != '/' && Named(SplitSlash(v)) != []
    ensures SplitSlash(v)[0] == "." ==> |v| > 1 && v[0] == '.' && v[1] == '/'
  {
    hide Named;
    DotIs(SplitSlash(v)[0]);
    if |v| == 1 {
      SplitOne(v);
      SingleName(v);
    } else if v[1] != '/' {
      assert v[1..][0] == v[1];
    }
  }

  /** The last name ends where the trailing parts start. */
  lemma {:induction false} TailName(v: string)
    requires Named(SplitSlash(v)) != []
    ensures var last := Named(SplitSlash(v))[|Named(SplitSlash(v))| - 1]; var t := DropTail(v);
            t != [] && last != [] && t[|t| - 1] == last[|last| - 1]
    decreases |v|
  {
    hide SplitSlash, Named;
    var n := |v|;
    if n > 0 && v[n - 1] == '/' {
      assert v == v[..n - 1] + "/" + "";
      TailDropped(v[..n - 1], "");
      TailName(v[..n - 1]);
    } else if n > 1 && v[n - 2] == '/' && v[n - 1] == '.' {
      assert v == v[..n - 2] + "/" + ".";
      TailDropped(v[..n - 2], ".");
      TailName(v[..n - 2]);
    } else {
      PlainTail(v);
    }
  }

  lemma {:induction false} TailDropped(u: string, c: string)
    requires c == "" || c == "."
    ensures Named(SplitSlash(u + "/" + c)) == Named(SplitSlash(u))
  {
    hide SplitSlash;
    SplitLast(u, c);
    NamedAppend(SplitSlash(u), [c]);
    assert Named([c]) == [] + Named([]);
  }

  lemma {:induction false} PlainTail(v: string)
    requires (v == [] || v[|v| - 1] != '/') && !(|v| > 1 && v[|v| - 2] == '/' && v[|v| - 1] == '.')
    requires Named(SplitSlash(v)) != []
    ensures var last := Named(SplitSlash(v))[|Named(SplitSlash(v))| - 1];
            v != [] && last != [] && v[|v| - 1] == last[|last| - 1]
  {
    hide SplitSlash, Named;
    var k := LastSlash(v);
    if k < 0 {
      NoSlashAtAll(v);
      NamedOnly(v);
    } else {
      TailProper(v, k);
      NamedLastAt(v, k);
      LastChar(v, k);
    }
  }

  lemma {:induction false} NoSlashAtAll(v: string)
    requires forall j :: 0 <= j < |v| ==> v[j] != '/'
    ensures '/' !in v
  {
  }

  /** What lies behind the last slash, if it is a proper name, is the last name. */
  lemma {:induction false} NamedLastAt(v: string, k: nat)
    requires k + 1 < |v| && v[k] == '/' && (forall j :: k < j < |v| ==> v[j] != '/') && !(|v| == k + 2 && v[k + 1] == '.')
    ensures var ns := Named(SplitSlash(v)); ns != [] && ns[|ns| - 1] == v[k + 1..]
  {
    hide SplitSlash, Named;
    NoSlash(v, k);
    LastChar(v, k);
    SlashBefore(v, k);
    NamedLast(v[..k], v[k + 1..]);
  }

  lemma {:induction false} SlashBefore(v: string, k: nat)
    requires k < |v| && v[k] == '/'
    ensures v == v[..k] + "/" + v[k + 1..]
  {
  }

  /** The part behind the last slash of such a path is neither empty nor a dot. */
  lemma {:induction false} TailProper(v: string, k: int)
    requires 0 <= k < |v| && v[k] == '/' && v[|v| - 1] != '/'
    requires !(|v| > 1 && v[|v| - 2] == '/' && v[|v| - 1] == '.')
    ensures k + 1 < |v| && !(|v| == k + 2 && v[k + 1] == '.')
  {
  }

  lemma {:induction false} LastChar(v: string, k: int)
    requires -1 <= k && k + 1 < |v|
    ensures var c := v[k + 1..]; |c| == |v| - k - 1 && c[0] == v[k + 1] && c[|c| - 1] == v[|v| - 1]
  {
  }

  lemma {:induction false} NamedLast(u: string, c: string)
    requires '/' !in c && |c| > 0 && !(|c| == 1 && c[0] == '.')
    ensures var ns := Named(SplitSlash(u + "/" + c)); ns != [] && ns[|ns| - 1] == c
  {
    hide SplitSlash, Named;
    SplitLast(u, c);
    NamedAppend(SplitSlash(u), [c]);
    SingleName(c);
    DotIs(c);
  }

  lemma {:induction false} NamedOnly(c: string)
    requires '/' !in c && Named(SplitSlash(c)) != []
    ensures |c| > 0 && Named(SplitSlash(c)) == [c]
  {
    hide SplitSlash, Named;
    SplitAtSlash(c, "");
    SingleName(c);
  }

  lemma {:induction false} SingleName(c: string)
    ensures Named([c]) == if c == "" || c == "." then [] else [c]
  {
    assert [c][1..] == [];
  }

  lemma {:induction false} NoSlash(v: string, k: int)
    requires -1 <= k < |v| && forall j :: k < j < |v| ==> v[j] != '/'
    ensures '/' !in v[k + 1..]
  {
  }

  lemma {:induction false} LastSlash(v: string) returns (k: int)
    ensures -1 <= k < |v| && (k >= 0 ==> v[k] == '/')
    ensures forall j :: k < j < |v| ==> v[j] != '/'
  {
    k := |v| - 1;
    while k >= 0 && v[k] != '/'
      invariant -1 <= k < |v| && forall j :: k < j < |v| ==> v[j] != '/'
    {
      k := k - 1;
    }
  }

  lemma {:induction false} DropLeadEnd(v: string)
    ensures DropLead(v) != [] ==> v != [] && DropLead(v)[|DropLead(v)| - 1] == v[|v| - 1]
  {
    if |v| > 0 && v[0] == '/' { DropLeadEnd(v[1..]); }
    else if |v| > 1 && v[0] == '.' && v[1] == '/' { DropLeadEnd(v[2..]); }
  }

  lemma {:induction false} DropTailStart(v: string)
    ensures DropTail(v) != [] ==> v != [] && DropTail(v)[0] == v[0]
  {
    var n := |v|;
    if n > 0 && v[n - 1] == '/' { DropTailStart(v[..n - 1]); }
    else if n > 1 && v[n - 2] == '/' && v[n - 1] == '.' { DropTailStart(v[..n - 2]); }
  }

  /** The ends of the path's names, read off the given text. */
  lemma {:induction false} EdgesIff(value: string)
    requires Normalize(value).Some?
    ensures ValidPath(Normalize(value).value)
    ensures EdgesPlain(Normalize(value).value) <==> !ExposesWhite(value)
  {
    hide SplitSlash, Named, White, Trim, DropLead, DropTail;
    NormalizeValid(value);
    var v := Trim(value);
    LeadName(v);
    TailName(v);
    DropLeadEnd(v);
    DropTailStart(v);
    TrimTrimmed(value);
  }

  lemma {:induction false} TrimTrimmed(s: string)
    ensures Trimmed(Trim(s))
  {
    var t := TrimStart(s);
    if Trim(s) != [] { assert Trim(s)[0] == t[0]; }
  }

  /**
   * Normalising twice gives what normalising once gave exactly when dropping the empty and `.` parts at the ends of
   * the given path exposes no white space; only then does a frozen binding pass its own revalidation.
   */
  lemma {:induction false} NormalizeAgainIff(value: string)
    requires Normalize(value).Some?
    ensures Canonical(Join(Normalize(value).value)) <==> !ExposesWhite(value)
  {
    hide Trim, SplitSlash, Named, White, ExposesWhite;
    NormalizeValid(value);
    EdgesIff(value);
    var cs := Normalize(value).value;
    var m := Join(cs);
    JoinEdges(cs);
    TrimmedIff(m);
    NormalizeShrinks(value);
    if Canonical(m) { NormalizeShrinks(m); }
    if EdgesPlain(cs) {
      SplitJoin(cs);
      NormalNames(value);
      NamedKept(cs);
    }
  }

  lemma NormalNames(value: string)
    requires Normalize(value).Some?
    ensures forall c :: c in Normalize(value).value ==> c != "" && c != "."
  {
    hide Trim, SplitSlash;
  }

  /** A mount whose normal form is not its own normal form. */
  lemma NormalFormChanges()
    ensures Normalize("./ a") == Some([" a"]) && !Canonical(" a")
  {
    hide Trim, SplitSlash, Named, Canonical, White, ExposesWhite;
    DotSpace();
    NormalizeAgainIff("./ a");
    EdgesIff("./ a");
    SpaceIsWhite();
  }

  lemma SpaceIsWhite()
    ensures White(' ') && " a"[0] == ' '
  {
  }

  lemma DotSpace()
    ensures Normalize("./ a") == Some([" a"])
  {
    hide SplitSlash, Trim, White;
    var v := "./ a";
    assert Trim(v) == v by { DotTrimmed(); }
    assert v == "." + "/" + " a";
    SplitAtSlash(".", " a");
    SplitAtSlash(" a", "");
    var cs := [".", " a"];
    assert cs[0] == "." && cs[1..] == [" a"];
    NamedKept([" a"]);
    assert Named(cs) == [] + Named(cs[1..]) == [" a"];
    assert '\0' !in v && '\n' !in v && '\r' !in v && v[0] == '.';
    assert ".." !in [" a"] by { assert ".."[0] != " a"[0]; }
  }

  lemma DotTrimmed()
    ensures Trim("./ a") == "./ a"
  {
    hide Trim;
    TrimmedIff("./ a");
  }

  // ----- the textual test

  /** `b` lies below the directory `a`: `strip_prefix` leaves a suffix that starts with a slash. */
  predicate Under(a: string, b: string) {
    |a| < |b| && b[..|a|] == a && b[|a|] == '/'
  }

  predicate Clash(a: string, b: string) {
    a == b || Under(a, b) || Under(b, a)
  }

  /** No two mounts, compared without ASCII case, are equal or one inside the other. */
  predicate MountSetOk(mounts: seq<string>) {
    forall i, j :: 0 <= i < j < |mounts| ==> !Clash(Fold(mounts[i]), Fold(mounts[j]))
  }

  /** The growing-set loop accepts exactly the sets without a clash. */
  method ValidateMountSet(mounts: seq<string>) returns (ok: bool)
    ensures ok == MountSetOk(mounts)
  {
    var normalized: seq<string> := [];
    for i := 0 to |mounts|
      invariant |normalized| == i && forall k :: 0 <= k < i ==> normalized[k] == Fold(mounts[k])
      invariant forall k, j :: 0 <= k < j < i ==> !Clash(Fold(mounts[k]), Fold(mounts[j]))
    {
      var folded := Fold(mounts[i]);
      for k := 0 to |normalized|
        invariant forall j :: 0 <= j < k ==> normalized[j] != folded
      {
        if normalized[k] == folded { return false; }
      }
      for k := 0 to |normalized|
        invariant forall j :: 0 <= j < k ==> !Clash(normalized[j], folded)
      {
        if Under(folded, normalized[k]) || Under(normalized[k], folded) {
          assert Clash(Fold(mounts[k]), Fold(mounts[i]));
          return false;
        }
      }
      normalized := normalized + [folded];
    }
    ok := true;
  }

  // ----- the same test on components

  function FoldPath(cs: seq<string>): (r: seq<string>)
    ensures |r| == |cs| && forall i :: 0 <= i < |cs| ==> r[i] == Fold(cs[i])
  {
    seq(|cs|, i requires 0 <= i < |cs| => Fold(cs[i]))
  }

  lemma {:induction false} FoldJoin(cs: seq<string>)
    ensures Fold(Join(cs)) == Join(FoldPath(cs))
  {
    hide Fold;
    if |cs| <= 1 {
      FoldNone();
    } else {
      FoldJoin(cs[1..]);
      assert FoldPath(cs)[1..] == FoldPath(cs[1..]);
      FoldSlash(cs[0], Join(cs[1..]));
    }
  }

  lemma FoldNone()
    ensures Fold([]) == []
  {
  }

  lemma FoldSlash(a: string, b: string)
    ensures Fold(a + "/" + b) == Fold(a) + "/" + Fold(b)
  {
  }

  lemma SameHead(x: string, a: string, y: string, b: string)
    requires '/' !in x && '/' !in y && x + "/" + a <= y + "/" + b
    ensures x == y && a <= b
  {
    var s, t := x + "/" + a, y + "/" + b;
    assert s[|x|] == '/' && t[|x|] == '/';
    assert t[|y|] == '/';
    assert forall k :: 0 <= k < |x| ==> s[k] == t[k] && s[k] != '/';
    assert |x| == |y|;
    assert s[..|x|] == x && t[..|x|] == y;
    assert s[|x| + 1..] == a && t[|x| + 1..] == b;
  }

  /** Text prefixes of slash-terminated paths are component prefixes. */
  lemma {:induction false} SlashedPrefix(x: seq<string>, y: seq<string>)
    requires forall i :: 0 <= i < |x| ==> '/' !in x[i]
    requires forall i :: 0 <= i < |y| ==> '/' !in y[i]
    ensures Slashed(x) <= Slashed(y) <==> x <= y
  {
    if x != [] && y != [] {
      SlashedPrefix(x[1..], y[1..]);
      if Slashed(x) <= Slashed(y) {
        SameHead(x[0], Slashed(x[1..]), y[0], Slashed(y[1..]));
      }
      assert x == [x[0]] + x[1..] && y == [y[0]] + y[1..];
      if x <= y {
        assert x[1..] <= y[1..];
        assert x[0] + "/" + Slashed(x[1..]) <= y[0] + "/" + Slashed(y[1..]);
      }
    }
  }

  lemma UnderSlashed(a: string, b: string)
    ensures a + "/" <= b + "/" <==> a == b || Under(a, b)
  {
    var s, t := a + "/", b + "/";
    if s <= t {
      assert t[..|s|] == s;
      assert t[..|s|][..|a|] == a && s[|a|] == t[|a|];
      if |a| == |b| { assert t[..|a|] == b; } else { assert t[..|a|] == b[..|a|]; }
    }
    if Under(a, b) { assert b[..|a| + 1] == a + "/"; assert t[..|a| + 1] == b[..|a| + 1]; }
  }

  /** Two valid paths clash as text exactly when one is a component prefix of the other. */
  lemma ClashIff(x: seq<string>, y: seq<string>)
    requires ValidPath(x) && ValidPath(y)
    ensures Clash(Join(x), Join(y)) <==> x <= y || y <= x
  {
    SlashedJoin(x);
    SlashedJoin(y);
    SlashedPrefix(x, y);
    SlashedPrefix(y, x);
    UnderSlashed(Join(x), Join(y));
    UnderSlashed(Join(y), Join(x));
  }

  lemma FoldValid(cs: seq<string>)
    requires ValidPath(cs)
    ensures ValidPath(FoldPath(cs))
  {
    forall i | 0 <= i < |cs| ensures FoldPath(cs)[i] != "" && '/' !in FoldPath(cs)[i] {
      assert forall k :: 0 <= k < |cs[i]| ==> Fold(cs[i])[k] != '/';
    }
  }

  /** No path of the list is a prefix of another one. */
  predicate PrefixFree(paths: seq<seq<string>>) {
    forall i, j :: 0 <= i < |paths| && 0 <= j < |paths| && i != j ==> !(paths[i] <= paths[j])
  }

  /** The names a file system compares: as they are, or without ASCII case. */
  function Names(foldCase: bool, cs: seq<string>): seq<string> {
    if foldCase then FoldPath(cs) else cs
  }

  function MountPath(foldCase: bool, mount: string): seq<string> {
    match Normalize(mount) case Some(cs) => Names(foldCase, cs) case None => []
  }

  function MountPaths(foldCase: bool, mounts: seq<string>): (r: seq<seq<string>>)
    ensures |r| == |mounts| && forall i :: 0 <= i < |r| ==> r[i] == MountPath(foldCase, mounts[i])
  {
    seq(|mounts|, i requires 0 <= i < |mounts| => MountPath(foldCase, mounts[i]))
  }

  lemma FoldPrefix(x: seq<string>, y: seq<string>)
    requires x <= y
    ensures FoldPath(x) <= FoldPath(y)
  {
    forall i | 0 <= i < |x| ensures FoldPath(x)[i] == FoldPath(y)[i] { assert x[i] == y[i]; }
  }

  /**
   * For canonical mounts the textual check decides exactly whether the paths, without case, are prefix-free;
   * so an accepted set is prefix-free on file systems that fold case and on those that do not.
   */
  lemma MountSetPrefixFree(mounts: seq<string>)
    requires forall i :: 0 <= i < |mounts| ==> Canonical(mounts[i])
    ensures MountSetOk(mounts) <==> PrefixFree(MountPaths(true, mounts))
    ensures MountSetOk(mounts) ==> PrefixFree(MountPaths(false, mounts))
  {
    hide Normalize, Clash, Fold;
    var folded, exact := MountPaths(true, mounts), MountPaths(false, mounts);
    forall i, j | 0 <= i < |mounts| && 0 <= j < |mounts|
      ensures Clash(Fold(mounts[i]), Fold(mounts[j])) <==> folded[i] <= folded[j] || folded[j] <= folded[i]
    {
      MountClash(mounts[i], mounts[j]);
    }
    if MountSetOk(mounts) {
      forall i, j | 0 <= i < |mounts| && 0 <= j < |mounts| && i != j
        ensures !(folded[i] <= folded[j]) && !(exact[i] <= exact[j])
      {
        if i < j { assert !Clash(Fold(mounts[i]), Fold(mounts[j])); }
        else { assert !Clash(Fold(mounts[j]), Fold(mounts[i])); }
        if exact[i] <= exact[j] { FoldPrefix(exact[i], exact[j]); }
      }
    }
  }

  lemma MountClash(a: string, b: string)
    requires Canonical(a) && Canonical(b)
    ensures var x, y := MountPath(true, a), MountPath(true, b);
            Clash(Fold(a), Fold(b)) <==> x <= y || y <= x
  {
    hide Normalize, Clash, Fold, ValidPath;
    var x, y := Normalize(a).value, Normalize(b).value;
    NormalizeValid(a);
    NormalizeValid(b);
    FoldJoin(x);
    FoldJoin(y);
    FoldValid(x);
    FoldValid(y);
    ClashIff(FoldPath(x), FoldPath(y));
  }
}
