/** The life of an Agent wake. */
module AgentWake {

  datatype Wake =
    | Queued | Claimed | Running | WaitingForApproval
    | Completed | Failed | Interrupted | Cancelled | OutcomeUnknown | Satisfied

  predicate Terminal(w: Wake) {
    w in {Completed, Failed, Interrupted, Cancelled, OutcomeUnknown, Satisfied}
  }

  predicate CanTransition(from: Wake, to: Wake) {
    from == to
    || match from
       case Queued => to in {Claimed, Cancelled, Satisfied}
       case Claimed => to in {Queued, Running, Failed, Interrupted, Cancelled, OutcomeUnknown}
       case Running => to in {WaitingForApproval, Completed, Failed, Interrupted, Cancelled, OutcomeUnknown}
       case WaitingForApproval => to in {Running, Completed, Failed, Interrupted, Cancelled, OutcomeUnknown}
       case _ => false
  }

  /** A history: it starts queued and every step is a permitted transition. */
  predicate History(ws: seq<Wake>) {
    ws != [] && ws[0] == Queued && forall i :: 0 < i < |ws| ==> CanTransition(ws[i - 1], ws[i])
  }

  /** A terminal status is never left. */
  lemma {:induction false} TerminalStays(ws: seq<Wake>, i: nat, j: nat)
    requires History(ws) && i <= j < |ws| && Terminal(ws[i])
    ensures ws[j] == ws[i]
    decreases j
  {
    if i < j {
      TerminalStays(ws, i, j - 1);
      assert CanTransition(ws[j - 1], ws[j]);
    }
  }

  /** Once running, a wake is never again queued, claimed or satisfied. */
  lemma {:induction false} RunningNeverReturns(ws: seq<Wake>, i: nat, j: nat)
    requires History(ws) && i <= j < |ws| && ws[i] == Running
    ensures ws[j] !in {Queued, Claimed, Satisfied}
    decreases j
  {
    if i < j {
      RunningNeverReturns(ws, i, j - 1);
      assert CanTransition(ws[j - 1], ws[j]);
    }
  }

  /** The first position with a given status is entered from a different one. */
  lemma {:induction false} EnteredFrom(ws: seq<Wake>, j: nat, w: Wake) returns (i: nat)
    requires History(ws) && j < |ws| && ws[j] == w && w != Queued
    ensures 0 < i <= j && ws[i] == w && ws[i - 1] != w && CanTransition(ws[i - 1], w)
  {
    i := j;
    while ws[i - 1] == w
      invariant 0 < i <= j && ws[i] == w
      decreases i
    {
      i := i - 1;
    }
    assert CanTransition(ws[i - 1], ws[i]);
  }

  /** A running or waiting wake was claimed and then set running; waiting is always preceded by running. */
  lemma {:induction false} RunningWasClaimed(ws: seq<Wake>, j: nat) returns (c: nat, r: nat)
    requires History(ws) && j < |ws| && ws[j] in {Running, WaitingForApproval}
    ensures c < r <= j && ws[c] == Claimed && ws[r] == Running
    decreases j
  {
    var i := EnteredFrom(ws, j, ws[j]);
    if ws[i - 1] == Claimed { c, r := i - 1, i; }
    else { c, r := RunningWasClaimed(ws, i - 1); }
  }

  /** Reaching completion implies that the wake was claimed and then running. */
  lemma CompletedWasRun(ws: seq<Wake>, j: nat) returns (c: nat, r: nat)
    requires History(ws) && j < |ws| && ws[j] == Completed
    ensures c < r < j && ws[c] == Claimed && ws[r] == Running
  {
    var i := EnteredFrom(ws, j, Completed);
    c, r := RunningWasClaimed(ws, i - 1);
  }

  /** A satisfied wake was never run: it came straight from the queue and no status after the queue came before it. */
  lemma SatisfiedFromQueue(ws: seq<Wake>, j: nat) returns (i: nat)
    requires History(ws) && j < |ws| && ws[j] == Satisfied
    ensures 0 < i <= j && ws[i - 1] == Queued && (forall k :: i <= k <= j ==> ws[k] == Satisfied)
    ensures forall k :: 0 <= k < i ==> ws[k] in {Queued, Claimed}
  {
    i := EnteredFrom(ws, j, Satisfied);
    forall k | i <= k <= j ensures ws[k] == Satisfied { TerminalStays(ws, i, k); }
    forall k | 0 <= k < i ensures ws[k] in {Queued, Claimed} { BeforeQueued(ws, k, i - 1); }
  }

  /** Whatever precedes a queued status is queued or claimed. */
  lemma {:induction false} BeforeQueued(ws: seq<Wake>, k: nat, j: nat)
    requires History(ws) && k <= j < |ws| && ws[j] == Queued
    ensures ws[k] in {Queued, Claimed}
  {
    var n := j;
    while n > k
      invariant k <= n <= j && ws[n] in {Queued, Claimed}
    {
      assert CanTransition(ws[n - 1], ws[n]);
      n := n - 1;
    }
  }

  /** The permitted moves between different statuses, one by one. */
  lemma TransitionsExactly(a: Wake, b: Wake)
    ensures CanTransition(a, b) <==>
            a == b
            || (a, b) in {(Queued, Claimed), (Queued, Cancelled), (Queued, Satisfied),
                          (Claimed, Queued), (Claimed, Running), (Claimed, Failed), (Claimed, Interrupted),
                          (Claimed, Cancelled), (Claimed, OutcomeUnknown),
                          (Running, WaitingForApproval), (Running, Completed), (Running, Failed), (Running, Interrupted),
                          (Running, Cancelled), (Running, OutcomeUnknown),
                          (WaitingForApproval, Running), (WaitingForApproval, Completed), (WaitingForApproval, Failed),
                          (WaitingForApproval, Interrupted), (WaitingForApproval, Cancelled),
                          (WaitingForApproval, OutcomeUnknown)}
  {
  }

  /** A status is terminal exactly when no other status can follow it. */
  lemma TerminalIff(w: Wake)
    ensures Terminal(w) <==> forall v :: CanTransition(w, v) ==> v == w
  {
    if !Terminal(w) { assert CanTransition(w, Cancelled); }
  }

  /** Every status is reached by some history. */
  lemma EveryStatusReached(w: Wake) returns (ws: seq<Wake>)
    ensures History(ws) && ws[|ws| - 1] == w
  {
    match w
    case Queued => ws := [Queued];
    case Claimed => ws := [Queued, Claimed];
    case Satisfied => ws := [Queued, Satisfied];
    case Running => ws := [Queued, Claimed, Running];
    case WaitingForApproval => ws := [Queued, Claimed, Running, WaitingForApproval];
    case Cancelled => ws := [Queued, Cancelled];
    case _ => ws := [Queued, Claimed, Running, w];
  }
}
