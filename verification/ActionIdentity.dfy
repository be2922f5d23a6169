/** The length-framed identity of a pending action. */
module ActionIdentity {
  import opened Text

  function Digit(n: nat): char
    requires n < 10
  {
    ('0' as int + n) as char
  }

  /** Decimal printing, as `{}` formats an unsigned integer. */
  function Decimal(n: nat): (s: string)
    ensures s != [] && forall i :: 0 <= i < |s| ==> '0' <= s[i] <= '9'
  {
    if n < 10 then [Digit(n)] else Decimal(n / 10) + [Digit(n % 10)]
  }

  function Frame(run: string): string {
    "v2:" + Decimal(Utf8Len(run)) + ":" + run + ":"
  }

  /** `canonical_pending_action_id`. */
  function ActionId(run: string, call: string): string {
    Frame(run) + call
  }

  /** `is_canonical_pending_action_id_for_run`. */
  predicate IsActionIdFor(id: string, run: string) {
    Frame(run) <= id && id[|Frame(run)|..] != [] && ActionId(run, id[|Frame(run)|..]) == id
  }

  /** The number a string of digits stands for. */
  function Value(s: string): int {
    if s == [] then 0 else 10 * Value(s[..|s| - 1]) + (s[|s| - 1] as int - '0' as int)
  }

  /** Printing is read back as the number printed. */
  lemma {:induction false} DecimalReadsBack(n: nat)
    ensures Value(Decimal(n)) == n
  {
    if n < 10 {
      assert Decimal(n)[..0] == [];
    } else {
      DecimalReadsBack(n / 10);
      var d := Decimal(n);
      assert d[..|d| - 1] == Decimal(n / 10);
    }
  }

  lemma DecimalShort(n: nat)
    ensures |Decimal(n)| == 1 <==> n < 10
  {
  }

  lemma {:induction false} DecimalInjective(m: nat, n: nat)
    requires Decimal(m) == Decimal(n)
    ensures m == n
  {
    DecimalShort(m);
    DecimalShort(n);
    if m < 10 {
      assert Decimal(m)[0] == Digit(m) && Decimal(n)[0] == Digit(n);
    } else {
      var a, b := Decimal(m / 10), Decimal(n / 10);
      assert a == Decimal(m)[..|Decimal(m)| - 1] == Decimal(n)[..|Decimal(n)| - 1] == b;
      assert Digit(m % 10) == Decimal(m)[|Decimal(m)| - 1] == Decimal(n)[|Decimal(n)| - 1] == Digit(n % 10);
      DecimalInjective(m / 10, n / 10);
    }
  }

  /** Up to the first colon, equal texts agree; digits hold no colon. */
  lemma SplitAtColon(a: string, x: string, b: string, y: string)
    requires a + ":" + x == b + ":" + y
    requires forall i :: 0 <= i < |a| ==> a[i] != ':'
    requires forall i :: 0 <= i < |b| ==> b[i] != ':'
    ensures a == b && x == y
  {
    var s := a + ":" + x;
    var t := b + ":" + y;
    assert s[|a|] == ':' && t[|b|] == ':';
    assert forall i :: 0 <= i < |a| ==> s[i] == a[i];
    assert forall i :: 0 <= i < |b| ==> t[i] == b[i];
    assert |a| == |b|;
    assert s[..|a|] == a && t[..|b|] == b;
    assert s[|a| + 1..] == x && t[|b| + 1..] == y;
  }

  /** Two runs of the same number of bytes that start the same text are the same. */
  lemma {:induction false} SameBytes(a: string, x: string, b: string, y: string)
    requires a + x == b + y && Utf8Len(a) == Utf8Len(b)
    ensures a == b && x == y
  {
    var s, t := a + x, b + y;
    if |a| <= |b| {
      assert b == t[..|b|] == s[..|b|];
      assert b == a + b[|a|..] by { assert s[..|a|] == a; }
      Utf8LenAppend(a, b[|a|..]);
      ZeroBytes(b[|a|..]);
    } else {
      assert a == s[..|a|] == t[..|a|];
      assert a == b + a[|b|..] by { assert t[..|b|] == b; }
      Utf8LenAppend(b, a[|b|..]);
      ZeroBytes(a[|b|..]);
    }
    assert s[|a|..] == x && t[|b|..] == y;
  }

  lemma ZeroBytes(s: string)
    requires Utf8Len(s) == 0
    ensures s == []
  {
  }

  /** One id names one run and one call, whatever colons and digits either contains. */
  lemma ActionIdInjective(run1: string, call1: string, run2: string, call2: string)
    requires ActionId(run1, call1) == ActionId(run2, call2)
    ensures run1 == run2 && call1 == call2
  {
    hide Decimal, Utf8Len;
    var d1, d2 := Decimal(Utf8Len(run1)), Decimal(Utf8Len(run2));
    var x1, x2 := run1 + (":" + call1), run2 + (":" + call2);
    assert ActionId(run1, call1) == "v2:" + (d1 + ":" + x1);
    assert ActionId(run2, call2) == "v2:" + (d2 + ":" + x2);
    assert ActionId(run1, call1)[3..] == d1 + ":" + x1;
    assert ActionId(run2, call2)[3..] == d2 + ":" + x2;
    SplitAtColon(d1, x1, d2, x2);
    DecimalInjective(Utf8Len(run1), Utf8Len(run2));
    SameBytes(run1, ":" + call1, run2, ":" + call2);
    assert (":" + call1)[1..] == call1 && (":" + call2)[1..] == call2;
  }

  /** An id spelled out. */
  lemma IdSpelledOut()
    ensures ActionId("run", "call:1") == "v2:3:run:call:1"
  {
    assert Utf8Len("run") == 3 by { AsciiThree("run"); }
    assert Decimal(3) == "3";
    assert "v2:" + "3" + ":" + "run" + ":" + "call:1" == "v2:3:run:call:1";
  }

  lemma AsciiThree(s: string)
    requires |s| == 3 && forall i :: 0 <= i < 3 ==> s[i] as int < 0x80
    ensures Utf8Len(s) == 3
  {
    assert Utf8Len(s[3..]) == 0;
    assert s[2..][1..] == s[3..] && s[1..][1..] == s[2..];
    assert Utf8Len(s[2..]) == 1;
    assert Utf8Len(s[1..]) == 2;
  }

  /** The checker accepts an id for a run exactly when some non-empty call prints to it. */
  lemma AcceptedIff(id: string, run: string)
    ensures IsActionIdFor(id, run) <==> exists call :: call != [] && ActionId(run, call) == id
  {
    hide Decimal, Frame;
    if IsActionIdFor(id, run) {
      assert ActionId(run, id[|Frame(run)|..]) == id;
    }
    forall call | call != [] && ActionId(run, call) == id ensures IsActionIdFor(id, run) {
      assert id[|Frame(run)|..] == call;
    }
  }

  /** No id is accepted for two different runs. */
  lemma OneRun(id: string, run1: string, run2: string)
    requires IsActionIdFor(id, run1) && IsActionIdFor(id, run2)
    ensures run1 == run2
  {
    hide Frame;
    ActionIdInjective(run1, id[|Frame(run1)|..], run2, id[|Frame(run2)|..]);
  }
}
