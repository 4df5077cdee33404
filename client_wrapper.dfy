/** The readiness gate: `isLoading` starts true and a single 1500 ms timer set
    at mount turns it false; unmounting clears the timer. The host's clock is
    the event `Elapse(ms)`, and the host running the timer's callback is the
    separate event `Expire`: `setTimeout` promises the callback no sooner than
    the delay, and it may run arbitrarily later, or never if the timer is
    cleared first. */
module Readiness {
  import Loading

  /** The delay passed to `setTimeout`, in milliseconds. */
  const TimerDelayMs: nat := 1500

  /** `isLoading`, whether the timer is still pending, and the time since mount. */
  datatype GateState = GateState(isLoading: bool, timerPending: bool, elapsedMs: nat)

  /** What the host can do to the wrapper after mount: let time pass, run the
      timer's callback, or unmount the component. */
  datatype Event = Elapse(ms: nat) | Expire | Unmount

  /** Mount: `useState(true)`, and the effect schedules the timer. */
  function Mount(): (s: GateState)
    ensures s.isLoading && s.timerPending && s.elapsedMs == 0
    ensures Inv(s)
  {
    GateState(true, true, 0)
  }

  /** The host runs a timer's callback only while the timer has not been
      cleared and its delay has passed. */
  predicate Due(s: GateState) {
    s.timerPending && s.elapsedMs >= TimerDelayMs
  }

  /** The timer callback: `setIsLoading(false)`; the timer is spent. */
  function Fire(s: GateState): (s': GateState)
    ensures !s'.isLoading && !s'.timerPending && s'.elapsedMs == s.elapsedMs
  {
    s.(isLoading := false, timerPending := false)
  }

  /** While the timer is pending the page is still loading. */
  ghost predicate Inv(s: GateState) {
    s.timerPending ==> s.isLoading
  }

  /** One event. An `Expire` that is not due is one the host never delivers,
      so it changes nothing. */
  function Step(s: GateState, e: Event): (s': GateState)
    ensures Inv(s) ==> Inv(s')
    ensures !s.isLoading ==> !s'.isLoading
    ensures !s.timerPending ==> !s'.timerPending && s'.isLoading == s.isLoading
    ensures s'.isLoading != s.isLoading ==> e.Expire? && Due(s)
  {
    match e
    case Elapse(ms) => s.(elapsedMs := s.elapsedMs + ms)
    case Expire => if Due(s) then Fire(s) else s
    case Unmount =>
      // the effect's cleanup: clearTimeout(timer)
      s.(timerPending := false)
  }

  function Run(s: GateState, es: seq<Event>): GateState
    decreases |es|
  {
    if es == [] then s else Run(Step(s, es[0]), es[1..])
  }

  /** The time that passes while the component is still mounted: the
      durations before the first `Unmount`. */
  function MountedTime(es: seq<Event>): (t: nat)
    ensures es != [] && es[0].Unmount? ==> t == 0
    decreases |es|
  {
    if es == [] then 0
    else match es[0]
      case Unmount => 0
      case Expire => MountedTime(es[1..])
      case Elapse(ms) => ms + MountedTime(es[1..])
  }

  /** The mounted time of a prefix is at most that of the whole run. */
  lemma {:induction false} MountedTimePrefix(es: seq<Event>, j: nat)
    requires j <= |es|
    ensures MountedTime(es[..j]) <= MountedTime(es)
    decreases j
  {
    if j > 0 {
      assert es[..j][1..] == es[1..][..j - 1];
      MountedTimePrefix(es[1..], j - 1);
    }
  }

  /** The callback runs at position `j` of a run from `s`: the event there is
      `Expire`, the timer was pending at the start and no `Unmount` came
      before, and by then the delay had passed. */
  ghost predicate FiresAt(s: GateState, es: seq<Event>, j: int) {
    && 0 <= j < |es|
    && es[j].Expire?
    && s.timerPending
    && (forall i :: 0 <= i < j ==> !es[i].Unmount?)
    && s.elapsedMs + MountedTime(es[..j]) >= TimerDelayMs
  }

  /** The only transition is loading to ready. */
  lemma {:induction false} RunNeverReloads(s: GateState, es: seq<Event>)
    requires !s.isLoading
    ensures !Run(s, es).isLoading
    decreases |es|
  {
    if es != [] {
      RunNeverReloads(Step(s, es[0]), es[1..]);
    }
  }

  /** With no pending timer nothing writes `isLoading`. */
  lemma {:induction false} NoWriteWithoutTimer(s: GateState, es: seq<Event>)
    requires !s.timerPending
    ensures Run(s, es).isLoading == s.isLoading
    ensures !Run(s, es).timerPending
    decreases |es|
  {
    if es != [] {
      NoWriteWithoutTimer(Step(s, es[0]), es[1..]);
    }
  }

  /** After unmount the timer is gone and `isLoading` is never written again,
      even if the delay had already passed and the callback was still waiting
      to run. */
  lemma NoWriteAfterUnmount(s: GateState, es: seq<Event>)
    ensures Run(Step(s, Unmount), es).isLoading == s.isLoading
    ensures !Run(Step(s, Unmount), es).timerPending
  {
    NoWriteWithoutTimer(Step(s, Unmount), es);
  }

  /** Shifting a firing position past a first event that neither unmounts nor
      fires the timer. */
  lemma FiresAtShift(s: GateState, es: seq<Event>, j: int)
    requires es != [] && !es[0].Unmount? && !(es[0].Expire? && Due(s))
    ensures FiresAt(s, es, j + 1) <==> FiresAt(Step(s, es[0]), es[1..], j)
  {
    var t := Step(s, es[0]);
    if 0 <= j < |es| - 1 {
      assert es[..j + 1] == [es[0]] + es[1..][..j];
      assert (forall i :: 0 <= i < j + 1 ==> !es[i].Unmount?) <==>
             (forall i :: 0 <= i < j ==> !es[1..][i].Unmount?) by {
        forall i | 0 <= i < j ensures es[1..][i] == es[i + 1] { }
      }
    }
  }

  /** From any state satisfying the invariant, the page is ready after a run
      exactly when it was ready already, or the callback ran at some position
      while the timer was pending and its delay had passed. */
  lemma {:induction false} RunLoadingIff(s: GateState, es: seq<Event>)
    requires Inv(s)
    ensures Run(s, es).isLoading <==> s.isLoading && !exists j :: FiresAt(s, es, j)
    decreases |es|
  {
    if es != [] {
      var t := Step(s, es[0]);
      RunLoadingIff(t, es[1..]);
      match es[0]
      case Unmount =>
        NoWriteWithoutTimer(t, es[1..]);
      case Elapse(_) =>
        FiringShift(s, es);
      case Expire =>
        if Due(s) {
          assert FiresAt(s, es, 0) by { assert es[..0] == []; }
          RunNeverReloads(t, es[1..]);
        } else {
          FiringShift(s, es);
        }
    }
  }

  /** Past a first event that neither unmounts nor fires the timer, the
      callback runs in the whole run exactly when it runs in the rest. */
  lemma FiringShift(s: GateState, es: seq<Event>)
    requires es != [] && !es[0].Unmount? && !(es[0].Expire? && Due(s))
    ensures (exists j :: FiresAt(s, es, j)) <==> exists j :: FiresAt(Step(s, es[0]), es[1..], j)
  {
    var t := Step(s, es[0]);
    assert !FiresAt(s, es, 0) by { assert es[..0] == []; }
    if j :| FiresAt(s, es, j) {
      FiresAtShift(s, es, j - 1);
      assert FiresAt(t, es[1..], j - 1);
    }
    if j :| FiresAt(t, es[1..], j) {
      FiresAtShift(s, es, j);
      assert FiresAt(s, es, j + 1);
    }
  }

  /** From mount: ready exactly when the callback ran at a position where
      1500 ms of mounted time had passed and no unmount had come first. */
  lemma ReadyExactlyWhenFired(es: seq<Event>)
    ensures !Run(Mount(), es).isLoading <==>
      exists j :: 0 <= j < |es| && es[j].Expire?
        && (forall i :: 0 <= i < j ==> !es[i].Unmount?)
        && MountedTime(es[..j]) >= TimerDelayMs
  {
    RunLoadingIff(Mount(), es);
    assert forall j :: FiresAt(Mount(), es, j) <==>
      (0 <= j < |es| && es[j].Expire?
        && (forall i :: 0 <= i < j ==> !es[i].Unmount?)
        && MountedTime(es[..j]) >= TimerDelayMs);
  }

  /** The page is loading while less than 1500 ms of mounted time have passed,
      whatever the host does. */
  lemma LoadingBeforeDelay(es: seq<Event>)
    requires MountedTime(es) < TimerDelayMs
    ensures Run(Mount(), es).isLoading
  {
    RunLoadingIff(Mount(), es);
    if j :| FiresAt(Mount(), es, j) {
      MountedTimePrefix(es, j);
    }
  }

  /** The callback may run late: an unmount after the deadline but before
      the callback cancels it, and the page stays loading. */
  lemma UnmountBeforeLateCallback()
    ensures Run(Mount(), [Elapse(1600), Unmount, Expire]).isLoading
    ensures !Run(Mount(), [Elapse(1600), Expire, Unmount]).isLoading
  {
    assert [Elapse(1600), Unmount, Expire][1..] == [Unmount, Expire];
    assert [Unmount, Expire][1..] == [Expire];
    assert [Elapse(1600), Expire, Unmount][1..] == [Expire, Unmount];
    assert [Expire, Unmount][1..] == [Unmount];
  }

  /** Firing the callback again leaves the page ready. */
  lemma FireIdempotent(s: GateState)
    ensures Fire(Fire(s)) == Fire(s)
  {
  }

  /** A second `Expire` finds no pending timer and changes nothing. */
  lemma ExpireTwice(s: GateState)
    ensures Step(Step(s, Expire), Expire) == Step(s, Expire)
  {
  }

  /** `{!isLoading && children}`: the page content is shown exactly when the
      overlay, which gets the same flag, is not. */
  function ChildrenVisible(s: GateState): (visible: bool)
    ensures visible != Loading.OverlayVisible(s.isLoading)
  {
    !s.isLoading
  }

  /** The wrapper component. */
  class ClientWrapper {
    var isLoading: bool
    var timerPending: bool
    var elapsedMs: nat

    function State(): GateState
      reads this
    {
      GateState(isLoading, timerPending, elapsedMs)
    }

    ghost predicate Valid()
      reads this
    {
      Inv(State())
    }

    /** Mount: the state starts loading and the effect sets the timer. */
    constructor ()
      ensures Valid() && State() == Mount()
    {
      isLoading := true;
      timerPending := true;
      elapsedMs := 0;
    }

    /** The host clock advancing. */
    method Elapse(ms: nat)
      requires Valid()
      modifies this
      ensures Valid() && State() == Step(old(State()), Event.Elapse(ms))
    {
      elapsedMs := elapsedMs + ms;
    }

    /** The `setTimeout` callback, which the host runs only for a timer that
        has not been cleared and whose delay has passed. */
    method Expire()
      requires Valid() && timerPending && elapsedMs >= TimerDelayMs
      modifies this
      ensures Valid() && State() == Step(old(State()), Event.Expire)
    {
      isLoading := false;
      timerPending := false;
    }

    /** The effect's cleanup: `clearTimeout(timer)`. */
    method Unmount()
      requires Valid()
      modifies this
      ensures Valid() && State() == Step(old(State()), Event.Unmount)
    {
      timerPending := false;
    }

    /** Which of the two subtrees is rendered. */
    function ShowsChildren(): (shown: bool)
      reads this
      ensures shown != Loading.OverlayVisible(isLoading)
    {
      ChildrenVisible(State())
    }
  }
}
