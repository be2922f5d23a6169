/** `canonical_json`: the form schema digests are computed over. */
module CanonicalJson {
  import opened Prelude
  import opened Text
  import opened Json

  /** Members sorted by key at every level; everything else kept. */
  function Canonical(value: Json): Json
    decreases value, 0
  {
    match value
    case JArray(xs) => JArray(CanonicalItems(xs))
    case JObject(ms) => JObject(CanonicalMembers(ms))
    case _ => value
  }

  function CanonicalItems(xs: seq<Json>): (r: seq<Json>)
    ensures |r| == |xs|
    decreases xs, 1
  {
    if xs == [] then [] else CanonicalItems(xs[..|xs| - 1]) + [Canonical(xs[|xs| - 1])]
  }

  function CanonicalMembers(ms: seq<Member>): seq<Member>
    decreases ms, 1
  {
    if ms == [] then []
    else
      var m := ms[|ms| - 1];
      Put(CanonicalMembers(ms[..|ms| - 1]), m.key, Canonical(m.value))
  }

  /** A JSON value as a map type can hold it: no object repeats a key. Member order is free. */
  predicate Proper(value: Json) {
    match value
    case JArray(xs) => forall x :: x in xs ==> Proper(x)
    case JObject(ms) => DistinctKeys(ms) && forall m :: m in ms ==> Proper(m.value)
    case _ => true
  }

  function Keys(ms: seq<Member>): set<string> {
    set m | m in ms :: m.key
  }

  /** Equal up to the order of members, at every nesting level. */
  predicate Same(a: Json, b: Json) {
    match (a, b)
    case (JArray(xs), JArray(ys)) => |xs| == |ys| && forall i :: 0 <= i < |xs| ==> Same(xs[i], ys[i])
    case (JObject(ms), JObject(ns)) =>
      Keys(ms) == Keys(ns) && forall m, n :: m in ms && n in ns && m.key == n.key ==> Same(m.value, n.value)
    case _ => a == b
  }

  lemma ItemAt(xs: seq<Json>, i: nat)
    requires i < |xs|
    ensures CanonicalItems(xs)[i] == Canonical(xs[i])
  {
    if i < |xs| - 1 { ItemAt(xs[..|xs| - 1], i); }
  }

  /** Looking a key up after canonicalising is canonicalising what was there. */
  lemma {:induction false} CanonicalGet(ms: seq<Member>, k: string)
    requires DistinctKeys(ms)
    ensures Sorted(CanonicalMembers(ms))
    ensures Get(CanonicalMembers(ms), k) ==
            match Get(ms, k) case None => None case Some(v) => Some(Canonical(v))
  {
    hide Less;
    if ms == [] {
    } else {
      var front, m := ms[..|ms| - 1], ms[|ms| - 1];
      CanonicalGet(front, k);
      GetPut(CanonicalMembers(front), m.key, Canonical(m.value), k);
      PutSorted(CanonicalMembers(front), m.key, Canonical(m.value));
      assert front + [m] == ms;
      GetSnoc(front, m, k);
    }
  }

  lemma GetOwnMember(ms: seq<Member>, m: Member)
    requires DistinctKeys(ms) && m in ms
    ensures Get(ms, m.key) == Some(m.value)
  {
    var i :| 0 <= i < |ms| && ms[i] == m;
    GetOwn(ms, i);
  }

  lemma KeysGet(ms: seq<Member>, k: string)
    ensures k in Keys(ms) <==> Get(ms, k).Some?
  {
    GetIsMember(ms, k);
  }

  /** Values equal up to member order have the same canonical form. */
  lemma {:induction false} SameCanonical(a: Json, b: Json)
    requires Proper(a) && Proper(b) && Same(a, b)
    ensures Canonical(a) == Canonical(b)
    decreases a
  {
    match (a, b)
    case (JArray(xs), JArray(ys)) =>
      forall i | 0 <= i < |xs| ensures CanonicalItems(xs)[i] == CanonicalItems(ys)[i] {
        ItemAt(xs, i);
        ItemAt(ys, i);
        SameCanonical(xs[i], ys[i]);
      }
    case (JObject(ms), JObject(ns)) =>
      var c, d := CanonicalMembers(ms), CanonicalMembers(ns);
      forall k ensures Get(c, k) == Get(d, k) {
        CanonicalGet(ms, k);
        CanonicalGet(ns, k);
        KeysGet(ms, k);
        KeysGet(ns, k);
        GetIsMember(ms, k);
        GetIsMember(ns, k);
        if k in Keys(ms) {
          var m, n := Member(k, Get(ms, k).value), Member(k, Get(ns, k).value);
          assert m in ms && n in ns;
          SameCanonical(m.value, n.value);
        }
      }
      CanonicalGet(ms, "");
      CanonicalGet(ns, "");
      Extensional(c, d);
    case _ =>
  }

  /** Values with the same canonical form are equal up to member order. */
  lemma {:induction false} CanonicalSame(a: Json, b: Json)
    requires Proper(a) && Proper(b) && Canonical(a) == Canonical(b)
    ensures Same(a, b)
    decreases a
  {
    match (a, b)
    case (JArray(xs), JArray(ys)) =>
      assert |xs| == |CanonicalItems(xs)| == |CanonicalItems(ys)| == |ys|;
      forall i | 0 <= i < |xs| ensures Same(xs[i], ys[i]) {
        ItemAt(xs, i);
        ItemAt(ys, i);
        CanonicalSame(xs[i], ys[i]);
      }
    case (JObject(ms), JObject(ns)) =>
      forall k ensures k in Keys(ms) <==> k in Keys(ns) {
        CanonicalGet(ms, k);
        CanonicalGet(ns, k);
        KeysGet(ms, k);
        KeysGet(ns, k);
      }
      forall m, n | m in ms && n in ns && m.key == n.key ensures Same(m.value, n.value) {
        CanonicalGet(ms, m.key);
        CanonicalGet(ns, m.key);
        GetOwnMember(ms, m);
        GetOwnMember(ns, n);
        CanonicalSame(m.value, n.value);
      }
    case _ =>
  }

  /** The canonical form is a complete invariant of a value up to member order. */
  lemma CanonicalIff(a: Json, b: Json)
    requires Proper(a) && Proper(b)
    ensures Canonical(a) == Canonical(b) <==> Same(a, b)
  {
    if Same(a, b) { SameCanonical(a, b); }
    if Canonical(a) == Canonical(b) { CanonicalSame(a, b); }
  }

  lemma {:induction false} CanonicalOrdered(value: Json)
    requires Proper(value)
    ensures Ordered(Canonical(value))
    decreases value
  {
    match value
    case JArray(xs) =>
      var c := CanonicalItems(xs);
      forall x | x in c ensures Ordered(x) {
        var i :| 0 <= i < |c| && c[i] == x;
        ItemAt(xs, i);
        CanonicalOrdered(xs[i]);
      }
    case JObject(ms) =>
      var c := CanonicalMembers(ms);
      CanonicalGet(ms, "");
      forall m | m in c ensures Ordered(m.value) {
        var i :| 0 <= i < |c| && c[i] == m;
        GetMember(c, i);
        CanonicalGet(ms, m.key);
        GetIsMember(ms, m.key);
        var source := Member(m.key, Get(ms, m.key).value);
        assert source in ms;
        CanonicalOrdered(source.value);
      }
    case _ =>
  }

  lemma {:induction false} OrderedKept(value: Json)
    requires Ordered(value)
    ensures Canonical(value) == value
    decreases value, 0
  {
    hide Less;
    match value
    case JArray(xs) => ItemsKept(xs);
    case JObject(ms) => MembersKept(ms);
    case _ =>
  }

  lemma {:induction false} ItemsKept(xs: seq<Json>)
    requires forall x :: x in xs ==> Ordered(x)
    ensures CanonicalItems(xs) == xs
    decreases xs, 1
  {
    hide Less;
    if xs == [] {
    } else {
      ItemsKept(xs[..|xs| - 1]);
      OrderedKept(xs[|xs| - 1]);
    }
  }

  lemma {:induction false} MembersKept(ms: seq<Member>)
    requires Sorted(ms) && forall m :: m in ms ==> Ordered(m.value)
    ensures CanonicalMembers(ms) == ms
    decreases ms, 1
  {
    hide Less;
    if ms == [] {
    } else {
      var front, m := ms[..|ms| - 1], ms[|ms| - 1];
      MembersKept(front);
      OrderedKept(m.value);
      PutLast(front, m.key, m.value);
    }
  }

  lemma {:induction false} OrderedProper(value: Json)
    requires Ordered(value)
    ensures Proper(value)
  {
    hide Less;
    match value
    case JArray(xs) => forall x | x in xs ensures Proper(x) { OrderedProper(x); }
    case JObject(ms) =>
      SortedDistinct(ms);
      forall m | m in ms ensures Proper(m.value) { OrderedProper(m.value); }
    case _ =>
  }

  /** Canonicalising changes nothing but the order of members: no value, no key and no array is touched. */
  lemma CanonicalIsSame(value: Json)
    requires Proper(value)
    ensures Same(value, Canonical(value))
  {
    CanonicalOrdered(value);
    OrderedKept(Canonical(value));
    OrderedProper(Canonical(value));
    CanonicalSame(value, Canonical(value));
  }

  lemma CanonicalIdempotent(value: Json)
    requires Proper(value)
    ensures Canonical(Canonical(value)) == Canonical(value)
  {
    CanonicalOrdered(value);
    OrderedKept(Canonical(value));
  }
}
