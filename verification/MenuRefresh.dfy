/** The menu-bar refresh controller as an interleaving of its callbacks. */
module MenuRefresh {
  import opened Prelude

  const REFRESH_MS := 5000
  const COALESCE_MS := 100
  const MAX_DEFER_MS := 500

  /** The controller's fields; a timer handle is modelled by whether it is armed. */
  datatype Controller = Controller(
    disposed: bool,
    lastSignature: Option<string>,
    refreshInFlight: bool,
    refreshRequested: bool,
    invalidatedSince: Option<int>,
    consecutiveFailures: nat,
    scheduledRefresh: Option<nat>,   // the delay the armed timer was given
    refreshTimer: bool)

  const FRESH := Controller(false, None, false, false, None, 0, None, false)

  function Pow2(n: nat): nat {
    if n == 0 then 1 else 2 * Pow2(n - 1)
  }

  function Delay(failures: nat): nat {
    if failures == 0 then COALESCE_MS
    else
      var wait := COALESCE_MS * Pow2(if failures < 6 then failures else 6);
      if wait < REFRESH_MS then wait else REFRESH_MS
  }

  function Refresh(c: Controller, now: int): Controller {
    if c.disposed then c
    else
      var d := c.(refreshRequested := true,
                  invalidatedSince := if c.invalidatedSince.None? then Some(now) else c.invalidatedSince);
      if d.refreshInFlight || d.scheduledRefresh.Some? then d
      else d.(scheduledRefresh := Some(Delay(d.consecutiveFailures)))
  }

  function Start(c: Controller, now: int): Controller {
    if c.disposed || c.refreshTimer then c else Refresh(c, now).(refreshTimer := true)
  }

  function Dispose(c: Controller): Controller {
    c.(disposed := true, refreshTimer := false, scheduledRefresh := None)
  }

  /** The coalescing timer's callback, up to the point where the load is awaited. */
  function TimerFires(c: Controller): Controller {
    var d := c.(scheduledRefresh := None);
    if d.refreshInFlight || d.disposed then d else d.(refreshInFlight := true, refreshRequested := false)
  }

  /** The `finally` block. */
  function Settle(c: Controller, now: int): Controller {
    var d := c.(refreshInFlight := false);
    if d.refreshRequested && !d.disposed then Refresh(d, now) else d
  }

  /** Whether a finished load is published, and with it the signature taken over. */
  predicate Publishes(c: Controller, now: int) {
    !c.disposed
    && !(c.refreshRequested && c.invalidatedSince.Some? && now - c.invalidatedSince.value < MAX_DEFER_MS)
  }

  /** The load resolves with records of this signature; the flag says whether the menu is applied. */
  function LoadSucceeds(c: Controller, signature: string, now: int): (Controller, bool) {
    var d := c.(consecutiveFailures := 0);
    if !Publishes(d, now) then (Settle(d, now), false)
    else
      var e := d.(invalidatedSince := if d.refreshRequested then Some(now) else None);
      if e.lastSignature == Some(signature) then (Settle(e, now), false)
      else (Settle(e.(lastSignature := Some(signature)), now), true)
  }

  function LoadFails(c: Controller, now: int): Controller {
    Settle(c.(consecutiveFailures := c.consecutiveFailures + 1), now)
  }

  /** The controller with its fields changed in place, one method per callback. */
  class MenuController {
    var disposed: bool
    var lastSignature: Option<string>
    var refreshInFlight: bool
    var refreshRequested: bool
    var invalidatedSince: Option<int>
    var consecutiveFailures: nat
    var scheduledRefresh: Option<nat>
    var refreshTimer: bool

    function View(): Controller
      reads this
    {
      Controller(disposed, lastSignature, refreshInFlight, refreshRequested, invalidatedSince, consecutiveFailures,
                 scheduledRefresh, refreshTimer)
    }

    constructor ()
      ensures View() == FRESH
    {
      disposed, lastSignature, refreshInFlight, refreshRequested := false, None, false, false;
      invalidatedSince, consecutiveFailures, scheduledRefresh, refreshTimer := None, 0, None, false;
    }

    method OnStart(now: int)
      modifies this
      ensures View() == Start(old(View()), now)
    {
      if disposed || refreshTimer { return; }
      OnRefresh(now);
      refreshTimer := true;
    }

    method OnDispose()
      modifies this
      ensures View() == Dispose(old(View()))
    {
      disposed := true;
      refreshTimer := false;
      scheduledRefresh := None;
    }

    method OnRefresh(now: int)
      modifies this
      ensures View() == Refresh(old(View()), now)
    {
      if disposed { return; }
      refreshRequested := true;
      if invalidatedSince.None? { invalidatedSince := Some(now); }
      if refreshInFlight || scheduledRefresh.Some? { return; }
      scheduledRefresh := Some(Delay(consecutiveFailures));
    }

    method OnTimer()
      modifies this
      ensures View() == TimerFires(old(View()))
    {
      scheduledRefresh := None;
      if refreshInFlight || disposed { return; }
      refreshInFlight := true;
      refreshRequested := false;
    }

    method OnLoaded(signature: string, now: int) returns (applied: bool)
      modifies this
      ensures (View(), applied) == LoadSucceeds(old(View()), signature, now)
    {
      consecutiveFailures := 0;
      applied := false;
      if !disposed
         && !(refreshRequested && invalidatedSince.Some? && now - invalidatedSince.value < MAX_DEFER_MS) {
        invalidatedSince := if refreshRequested then Some(now) else None;
        if lastSignature != Some(signature) {
          lastSignature := Some(signature);
          applied := true;
        }
      }
      Finally(now);
    }

    method OnLoadFailed(now: int)
      modifies this
      ensures View() == LoadFails(old(View()), now)
    {
      consecutiveFailures := consecutiveFailures + 1;
      Finally(now);
    }

    method Finally(now: int)
      modifies this
      ensures View() == Settle(old(View()), now)
    {
      refreshInFlight := false;
      if refreshRequested && !disposed { OnRefresh(now); }
    }
  }

  // ----- interleavings

  datatype Event =
    | Started(now: int)
    | Refreshed(now: int)                        // an invalidation, or the interval timer
    | Timer
    | Loaded(signature: string, now: int)
    | LoadFailed(now: int)
    | Disposed

  /** An armed timer may fire and a pending load may end; everything else may happen at any time. */
  predicate Enabled(c: Controller, e: Event) {
    match e
    case Timer => c.scheduledRefresh.Some?
    case Loaded(_, _) => c.refreshInFlight
    case LoadFailed(_) => c.refreshInFlight
    case _ => true
  }

  function Step(c: Controller, e: Event): Controller {
    match e
    case Started(now) => Start(c, now)
    case Refreshed(now) => Refresh(c, now)
    case Timer => TimerFires(c)
    case Loaded(signature, now) => LoadSucceeds(c, signature, now).0
    case LoadFailed(now) => LoadFails(c, now)
    case Disposed => Dispose(c)
  }

  /** The state after a run; None when some event was not enabled. */
  function Run(es: seq<Event>): Option<Controller> {
    if es == [] then Some(FRESH)
    else
      match Run(es[..|es| - 1])
      case None => None
      case Some(c) => if Enabled(c, es[|es| - 1]) then Some(Step(c, es[|es| - 1])) else None
  }

  predicate Occurs(es: seq<Event>) {
    Run(es).Some?
  }

  /** An event that marks the menu stale: a refresh call on a live controller, or the first start. */
  predicate Invalidates(c: Controller, e: Event) {
    !c.disposed && (e.Refreshed? || (e.Started? && !c.refreshTimer))
  }

  /** The last event of the run before which the load now pending, or last ended, began. */
  function LoadBegan(es: seq<Event>): nat {
    if es == [] then 0
    else
      var n := |es| - 1;
      match Run(es[..n])
      case Some(c) => if es[n].Timer? && !c.refreshInFlight && !c.disposed then n + 1 else LoadBegan(es[..n])
      case None => LoadBegan(es[..n])
  }

  /** One past the last invalidation of the run. */
  function LastInvalidation(es: seq<Event>): nat {
    if es == [] then 0
    else
      var n := |es| - 1;
      match Run(es[..n])
      case Some(c) => if Invalidates(c, es[n]) then n + 1 else LastInvalidation(es[..n])
      case None => LastInvalidation(es[..n])
  }

  /** Timer and load exclude each other, and a live request always has one of them working for it. */
  predicate Sound(c: Controller) {
    !(c.scheduledRefresh.Some? && c.refreshInFlight)
    && (c.refreshRequested && !c.disposed ==> c.scheduledRefresh.Some? || c.refreshInFlight)
    && (c.disposed ==> c.scheduledRefresh.None? && !c.refreshTimer)
    && (c.scheduledRefresh.Some? ==> c.refreshRequested && COALESCE_MS <= c.scheduledRefresh.value <= REFRESH_MS)
    && (c.refreshRequested ==> c.invalidatedSince.Some?)
  }

  lemma DelayBounds(failures: nat)
    ensures COALESCE_MS <= Delay(failures) <= REFRESH_MS
    ensures failures >= 6 ==> Delay(failures) == REFRESH_MS
    ensures Delay(failures) <= Delay(failures + 1)
    ensures Delay(0) == 100 && Delay(1) == 200 && Delay(2) == 400 && Delay(3) == 800 && Delay(4) == 1600
            && Delay(5) == 3200 && Delay(6) == 5000
  {
    assert Pow2(1) == 2 && Pow2(2) == 4 && Pow2(3) == 8 && Pow2(4) == 16 && Pow2(5) == 32 && Pow2(6) == 64;
  }

  lemma StepSound(c: Controller, e: Event)
    requires Sound(c) && Enabled(c, e)
    ensures Sound(Step(c, e))
  {
    hide Pow2, Delay;
    DelayBounds(c.consecutiveFailures);
    DelayBounds(c.consecutiveFailures + 1);
    DelayBounds(0);
  }

  /** In every interleaving the controller stays sound. */
  lemma {:induction false} RunSound(es: seq<Event>)
    requires Occurs(es)
    ensures Sound(Run(es).value)
  {
    hide Step, Enabled;
    if es == [] {
    } else {
      RunSound(es[..|es| - 1]);
      assert Enabled(Run(es[..|es| - 1]).value, es[|es| - 1]);
      StepSound(Run(es[..|es| - 1]).value, es[|es| - 1]);
    }
  }

  /** While nothing is requested, the load in question began no earlier than the last invalidation. */
  lemma {:induction false} LoadIsFresh(es: seq<Event>)
    requires Occurs(es) && !Run(es).value.refreshRequested
    ensures LastInvalidation(es) <= LoadBegan(es)
  {
    hide Pow2, Delay;
    if es == [] {
    } else {
      var n := |es| - 1;
      var front := es[..n];
      var c := Run(front).value;
      RunSound(front);
      InvalidationBound(front);
      if !c.refreshRequested { LoadIsFresh(front); }
    }
  }

  lemma {:induction false} InvalidationBound(es: seq<Event>)
    ensures LastInvalidation(es) <= |es| && LoadBegan(es) <= |es|
  {
    hide Run, Invalidates;
    if es == [] {
    } else {
      InvalidationBound(es[..|es| - 1]);
    }
  }

  predicate Idle(c: Controller) {
    !c.disposed && c.scheduledRefresh.None? && !c.refreshInFlight
  }

  /** The signature of the last load that ended, if it ended well. */
  function LastLoad(es: seq<Event>): Option<string> {
    if es == [] then None
    else
      match es[|es| - 1]
      case Loaded(signature, _) => Some(signature)
      case LoadFailed(_) => None
      case _ => LastLoad(es[..|es| - 1])
  }

  /**
   * Whenever the controller is idle and its last load succeeded, the recorded signature is that load's, the load
   * began no earlier than the last invalidation, and nothing is left marked stale.
   */
  lemma {:induction false} IdleIsCurrent(es: seq<Event>)
    requires Occurs(es) && Idle(Run(es).value) && LastLoad(es).Some?
    ensures Run(es).value.lastSignature == LastLoad(es)
    ensures LastInvalidation(es) <= LoadBegan(es)
    ensures Run(es).value.invalidatedSince == None
  {
    hide Pow2, Delay;
    var front := es[..|es| - 1];
    RunSound(front);
    RunSound(es);
    LoadIsFresh(es);
    if !es[|es| - 1].Loaded? { IdleIsCurrent(front); }
  }

  /** Whether the event at the end of a run changes the native menu. */
  predicate Applies(c: Controller, e: Event) {
    e.Loaded? && LoadSucceeds(c, e.signature, e.now).1
  }

  /** A disposed controller stays disposed, arms nothing, applies nothing and records nothing. */
  lemma {:induction false} DisposedIsFinal(es: seq<Event>, i: nat)
    requires Occurs(es) && i <= |es| && Occurs(es[..i]) && Run(es[..i]).value.disposed
    ensures var c, d := Run(es[..i]).value, Run(es).value;
            d.disposed && d.scheduledRefresh.None? && d.lastSignature == c.lastSignature
            && (c.refreshInFlight || !d.refreshInFlight)
    ensures i < |es| ==> !Applies(Run(es[..|es| - 1]).value, es[|es| - 1])
    decreases |es|
  {
    hide Pow2, Delay;
    RunSound(es[..i]);
    if i < |es| {
      var front := es[..|es| - 1];
      assert front[..i] == es[..i];
      DisposedIsFinal(front, i);
    } else {
      assert es[..i] == es;
    }
  }

  /**
   * What becomes of a load that ends well. It is withheld exactly while a newer request is pending and the first
   * unpublished invalidation is younger than half a second; the next attempt is then armed and the deadline does not
   * move. Otherwise its signature is taken over, the menu is applied exactly if it differs, and a pending request is
   * served next.
   */
  lemma DeferralIsBounded(es: seq<Event>, signature: string, now: int)
    requires Occurs(es) && Run(es).value.refreshInFlight && !Run(es).value.disposed
    ensures var c := Run(es).value; var r := LoadSucceeds(c, signature, now); var d := r.0;
            !d.refreshInFlight && d.consecutiveFailures == 0
            && if c.refreshRequested && c.invalidatedSince.Some? && now < c.invalidatedSince.value + 500
               then !r.1 && d.lastSignature == c.lastSignature && d.scheduledRefresh == Some(100)
                    && d.invalidatedSince == c.invalidatedSince
               else d.lastSignature == Some(signature) && (r.1 <==> c.lastSignature != Some(signature))
                    && (if c.refreshRequested then d.scheduledRefresh == Some(100) && d.invalidatedSince == Some(now)
                        else Idle(d) && d.invalidatedSince.None?)
  {
    RunSound(es);
  }

  /** From every live state with an armed timer, the timer and a load that ends well lead to a current, idle menu. */
  lemma TwoStepsToCurrent(es: seq<Event>, signature: string, now: int)
    requires Occurs(es) && !Run(es).value.disposed && Run(es).value.scheduledRefresh.Some?
    ensures var all := es + [Timer] + [Loaded(signature, now)];
            Occurs(all) && Idle(Run(all).value) && Run(all).value.lastSignature == Some(signature)
            && !Run(all).value.refreshRequested
  {
    hide Pow2, Delay;
    RunSound(es);
    var c := Run(es).value;
    RunNext(es, Timer);
    RunNext(es + [Timer], Loaded(signature, now));
    assert Run(es + [Timer]) == Some(TimerFires(c));
    var d := LoadSucceeds(TimerFires(c), signature, now).0;
    assert Run(es + [Timer] + [Loaded(signature, now)]) == Some(d);
  }

  lemma RunNext(es: seq<Event>, e: Event)
    requires Occurs(es)
    ensures Run(es + [e]) == if Enabled(Run(es).value, e) then Some(Step(Run(es).value, e)) else None
  {
    hide Enabled, Step;
    assert (es + [e])[..|es|] == es;
  }

  /** Failed loads since the last one that ended well. */
  function FailuresSince(es: seq<Event>): nat {
    if es == [] then 0
    else
      match es[|es| - 1]
      case Loaded(_, _) => 0
      case LoadFailed(_) => FailuresSince(es[..|es| - 1]) + 1
      case _ => FailuresSince(es[..|es| - 1])
  }

  /** The controller counts its failures in a row, and waits accordingly before the next attempt. */
  lemma {:induction false} FailuresCounted(es: seq<Event>, now: int)
    requires Occurs(es)
    ensures Run(es).value.consecutiveFailures == FailuresSince(es)
    ensures Idle(Run(es).value) ==> Step(Run(es).value, Refreshed(now)).scheduledRefresh == Some(Delay(FailuresSince(es)))
  {
    hide Pow2, Delay;
    if es == [] {
    } else {
      FailuresCounted(es[..|es| - 1], now);
    }
  }

  /** A failed load changes nothing of what is shown; a request made meanwhile is served after a longer wait. */
  lemma FailureKeepsMenu(c: Controller, now: int)
    requires Sound(c) && c.refreshInFlight
    ensures var d := LoadFails(c, now);
            d.lastSignature == c.lastSignature && !d.refreshInFlight && d.invalidatedSince == c.invalidatedSince
            && d.consecutiveFailures == c.consecutiveFailures + 1
            && (if c.refreshRequested && !c.disposed then d.scheduledRefresh == Some(Delay(c.consecutiveFailures + 1))
                else d.scheduledRefresh == c.scheduledRefresh)
  {
    hide Pow2, Delay;
  }

  /** Requests coalesce: the first invalidation is remembered, and an armed timer or a pending load is left alone. */
  lemma RequestsCoalesce(c: Controller, now: int)
    ensures var d := Refresh(c, now);
            if c.disposed then d == c
            else d.refreshRequested && d.lastSignature == c.lastSignature && d.refreshInFlight == c.refreshInFlight
                 && d.invalidatedSince == (if c.invalidatedSince.Some? then c.invalidatedSince else Some(now))
                 && (c.scheduledRefresh.Some? || c.refreshInFlight ==> d.scheduledRefresh == c.scheduledRefresh)
  {
    hide Pow2, Delay;
  }

  /** The interval starts once, with a first request; a disposed controller never starts. */
  lemma StartsOnce(c: Controller, now: int)
    ensures var d := Start(c, now);
            if c.disposed || c.refreshTimer then d == c
            else d.refreshTimer && d.refreshRequested && (d.refreshInFlight || d.scheduledRefresh.Some?)
  {
    hide Pow2, Delay;
  }

  /** The menu's content always is what the last applied load reported. */
  function LastApplied(es: seq<Event>): Option<string> {
    if es == [] then None
    else
      var n := |es| - 1;
      match Run(es[..n])
      case Some(c) => if Applies(c, es[n]) then Some(es[n].signature) else LastApplied(es[..n])
      case None => LastApplied(es[..n])
  }

  lemma {:induction false} SignatureIsApplied(es: seq<Event>)
    requires Occurs(es)
    ensures Run(es).value.lastSignature == LastApplied(es)
  {
    hide Pow2, Delay;
    if es == [] {
    } else {
      SignatureIsApplied(es[..|es| - 1]);
    }
  }
}
