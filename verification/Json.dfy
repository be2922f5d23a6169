/** JSON values; an object is the sequence of its members. */
module Json {
  import opened Prelude
  import opened Text

  datatype Json =
    | JNull
    | JBool(b: bool)
    | JInt(i: int)
    | JFloat(r: real)
    | JString(s: string)
    | JArray(items: seq<Json>)
    | JObject(members: seq<Member>)

  datatype Member = Member(key: string, value: Json)

  /** `Map::get`. */
  function Get(ms: seq<Member>, k: string): Option<Json> {
    if ms == [] then None else if ms[0].key == k then Some(ms[0].value) else Get(ms[1..], k)
  }

  /** `Map::insert` into a map ordered by key. */
  function Put(ms: seq<Member>, k: string, v: Json): (r: seq<Member>)
    ensures |ms| <= |r| <= |ms| + 1
    ensures forall m :: m in r ==> m == Member(k, v) || m in ms
  {
    if ms == [] then [Member(k, v)]
    else if ms[0].key == k then [Member(k, v)] + ms[1..]
    else if Less(k, ms[0].key) then [Member(k, v)] + ms
    else [ms[0]] + Put(ms[1..], k, v)
  }

  /** Keys strictly ascending: what an ordered map iterates over. */
  predicate Sorted(ms: seq<Member>) {
    forall i, j :: 0 <= i < j < |ms| ==> Less(ms[i].key, ms[j].key)
  }

  /** Every object, at every level, lists its members in key order, as an ordered map type guarantees. */
  predicate Ordered(value: Json) {
    match value
    case JObject(ms) => Sorted(ms) && forall m :: m in ms ==> Ordered(m.value)
    case JArray(xs) => forall x :: x in xs ==> Ordered(x)
    case _ => true
  }

  predicate DistinctKeys(ms: seq<Member>) {
    forall i, j :: 0 <= i < j < |ms| ==> ms[i].key != ms[j].key
  }

  lemma {:induction false} GetSnoc(ms: seq<Member>, m: Member, k: string)
    requires DistinctKeys(ms + [m])
    ensures Get(ms + [m], k) == if m.key == k then Some(m.value) else Get(ms, k)
  {
    var all := ms + [m];
    if ms == [] {
    } else {
      assert all[1..] == ms[1..] + [m];
      assert all[0].key != all[|ms|].key;
      GetSnoc(ms[1..], m, k);
    }
  }

  lemma {:induction false} GetOwn(ms: seq<Member>, i: nat)
    requires DistinctKeys(ms) && i < |ms|
    ensures Get(ms, ms[i].key) == Some(ms[i].value)
  {
    if i == 0 {
    } else {
      GetOwn(ms[1..], i - 1);
    }
  }

  lemma SortedDistinct(ms: seq<Member>)
    requires Sorted(ms)
    ensures DistinctKeys(ms)
  {
    hide Less;
    forall i, j | 0 <= i < j < |ms| ensures ms[i].key != ms[j].key { LessTotal(ms[i].key, ms[j].key); }
  }

  lemma {:induction false} GetPut(ms: seq<Member>, k: string, v: Json, q: string)
    ensures Get(Put(ms, k, v), q) == if q == k then Some(v) else Get(ms, q)
  {
    if ms == [] || ms[0].key == k || Less(k, ms[0].key) {
    } else {
      GetPut(ms[1..], k, v, q);
    }
  }

  lemma {:induction false} PutSorted(ms: seq<Member>, k: string, v: Json)
    requires Sorted(ms)
    ensures Sorted(Put(ms, k, v))
  {
    if ms == [] {
    } else if ms[0].key == k {
    } else if Less(k, ms[0].key) {
      forall j | 0 < j < |ms| ensures Less(k, ms[j].key) { LessTransitive(k, ms[0].key, ms[j].key); }
    } else {
      LessTotal(k, ms[0].key);
      PutSorted(ms[1..], k, v);
      var r := Put(ms[1..], k, v);
      forall j | 0 <= j < |r| ensures Less(ms[0].key, r[j].key) { assert r[j] in r; }
    }
  }

  /** Inserting a key above all present ones appends. */
  lemma {:induction false} PutLast(ms: seq<Member>, k: string, v: Json)
    requires forall i :: 0 <= i < |ms| ==> Less(ms[i].key, k)
    ensures Put(ms, k, v) == ms + [Member(k, v)]
  {
    if ms == [] {
    } else {
      LessTotal(ms[0].key, k);
      PutLast(ms[1..], k, v);
    }
  }

  lemma {:induction false} GetMember(ms: seq<Member>, i: nat)
    requires Sorted(ms) && i < |ms|
    ensures Get(ms, ms[i].key) == Some(ms[i].value)
  {
    if i == 0 {
    } else {
      LessTotal(ms[0].key, ms[i].key);
      GetMember(ms[1..], i - 1);
    }
  }

  lemma {:induction false} GetIsMember(ms: seq<Member>, k: string)
    ensures Get(ms, k).Some? ==> Member(k, Get(ms, k).value) in ms
    ensures Get(ms, k).None? ==> forall m :: m in ms ==> m.key != k
  {
    if ms == [] {
    } else {
      GetIsMember(ms[1..], k);
      assert forall m :: m in ms ==> m == ms[0] || m in ms[1..];
    }
  }

  lemma GetBelow(ms: seq<Member>, k: string)
    requires forall i :: 0 <= i < |ms| ==> Less(k, ms[i].key)
    ensures Get(ms, k) == None
  {
    GetIsMember(ms, k);
    LessTotal(k, k);
  }

  /** An object of one member. */
  lemma SingleMember(k: string, v: Json)
    requires Ordered(v)
    ensures Ordered(JObject([Member(k, v)]))
    ensures forall q :: Get([Member(k, v)], q) == if q == k then Some(v) else None
  {
    assert [Member(k, v)][1..] == [];
  }

  ghost predicate SameLookups(a: seq<Member>, b: seq<Member>) {
    forall k :: Get(a, k) == Get(b, k)
  }

  lemma SameAt(a: seq<Member>, b: seq<Member>, k: string)
    requires SameLookups(a, b)
    ensures Get(a, k) == Get(b, k)
  {
  }

  /** An ordered map is determined by its lookups. */
  lemma {:induction false} Extensional(a: seq<Member>, b: seq<Member>)
    requires Sorted(a) && Sorted(b) && SameLookups(a, b)
    ensures a == b
  {
    if a == [] || b == [] {
      if a != [] { SameAt(a, b, a[0].key); }
      if b != [] { SameAt(a, b, b[0].key); }
    } else {
      HeadsAgree(a, b);
      HeadsAgree(b, a);
      LessTotal(a[0].key, b[0].key);
      assert Get(a, a[0].key) == Get(b, a[0].key);
      forall k ensures Get(a[1..], k) == Get(b[1..], k) {
        if k == a[0].key {
          GetBelow(a[1..], k);
          GetBelow(b[1..], k);
        } else { assert Get(a, k) == Get(b, k); }
      }
      Extensional(a[1..], b[1..]);
      assert a == [a[0]] + a[1..] && b == [b[0]] + b[1..];
    }
  }

  lemma HeadsAgree(a: seq<Member>, b: seq<Member>)
    requires Sorted(a) && Sorted(b) && SameLookups(a, b) && a != [] && b != []
    ensures !Less(a[0].key, b[0].key)
  {
    if Less(a[0].key, b[0].key) {
      forall i | 0 <= i < |b| ensures Less(a[0].key, b[i].key) {
        if i > 0 { LessTransitive(a[0].key, b[0].key, b[i].key); }
      }
      SameAt(a, b, a[0].key);
      GetBelow(b, a[0].key);
    }
  }
}
