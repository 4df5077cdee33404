/** The loading splash: a progress value raised by a random amount on every
    interval tick and clamped at 100, and a status label picked from six ordered
    steps by bucketing the unclamped sum. Progress is an exact real here, and
    `Math.random()` is the parameter `r`, with 0 <= r < 1. */
module Loading {

  /** `loadingSteps`, in order. */
  const Steps: seq<string> := [
    "Initializing...",
    "Loading assets...",
    "Preparing 3D models...",
    "Setting up animations...",
    "Almost ready...",
    "Welcome to Zsideo!"
  ]

  /** The value at which progress is clamped. */
  const Full: real := 100.0

  /** What `Math.random()` may return. */
  predicate IsRandom(r: real) {
    0.0 <= r < 1.0
  }

  /** The amount one tick adds before clamping: `Math.random() * 12 + 3`. */
  function Increment(r: real): (inc: real)
    requires IsRandom(r)
    ensures 3.0 <= inc < 15.0
  {
    r * 12.0 + 3.0
  }

  /** `Math.floor((currentProgress / 100) * loadingSteps.length)` */
  function StepIndex(sum: real): (i: int)
    ensures 0.0 <= sum ==> 0 <= i
    ensures i < |Steps| <==> sum < Full
  {
    ((sum / 100.0) * |Steps| as real).Floor
  }

  /** A label position is shown for the sums of one bucket of width 100/6. */
  lemma StepIndexBounds(sum: real)
    ensures StepIndex(sum) as real <= sum * 6.0 / 100.0 < StepIndex(sum) as real + 1.0
  {
  }

  /** Larger sums never fall into earlier buckets. */
  lemma StepIndexMonotone(p: real, q: real)
    requires p <= q
    ensures StepIndex(p) <= StepIndex(q)
  {
    StepIndexBounds(p);
    StepIndexBounds(q);
  }

  /** A jump shorter than a bucket's width (100/6) crosses at most one bucket boundary. */
  lemma StepIndexAdvancesAtMostOne(p: real, d: real)
    requires 0.0 <= d < 100.0 / 6.0
    ensures StepIndex(p) <= StepIndex(p + d) <= StepIndex(p) + 1
  {
    StepIndexBounds(p);
    StepIndexBounds(p + d);
  }

  /** The two pieces of state, `progress` and `loadingText`. */
  datatype LoadState = LoadState(progress: real, text: string)

  /** `useState(0)` and `useState("Initializing...")` */
  function Initial(): (s: LoadState)
    ensures s.progress == 0.0 && s.text == Steps[0]
    ensures Inv(s)
  {
    LoadState(0.0, "Initializing...")
  }

  /** The updater run on each tick. The label is written only while the
      unclamped sum still falls in one of the six buckets, that is below 100. */
  function Update(s: LoadState, r: real): (s': LoadState)
    requires 0.0 <= s.progress && IsRandom(r)
    ensures s'.progress <= Full
    ensures s.progress <= Full ==> s.progress <= s'.progress
    ensures s'.text in Steps || s'.text == s.text
  {
    var currentProgress := s.progress + Increment(r);
    var stepIndex := StepIndex(currentProgress);
    var text := if stepIndex < |Steps| then Steps[stepIndex] else s.text;
    LoadState(if currentProgress < Full then currentProgress else Full, text)
  }

  /** The label is written exactly when the unclamped sum is still below 100,
      and then it is the step of the sum's bucket; otherwise it is kept. */
  lemma UpdateLabel(s: LoadState, r: real)
    requires 0.0 <= s.progress && IsRandom(r)
    ensures var sum := s.progress + Increment(r);
      && (sum < Full ==> Update(s, r).text == Steps[StepIndex(sum)])
      && (sum >= Full ==> Update(s, r).text == s.text)
  {
    StepIndexBounds(s.progress + Increment(r));
  }

  /** The label position that goes with a progress value: its bucket, or the
      last step once progress is full. */
  function ShownStep(p: real): (k: int)
    requires 0.0 <= p
    ensures 0 <= k < |Steps|
    ensures p < Full ==> k == StepIndex(p)
    ensures p >= Full ==> k == |Steps| - 1
  {
    StepIndexMonotone(0.0, p);
    if StepIndex(p) < |Steps| then StepIndex(p) else |Steps| - 1
  }

  /** What every reachable state satisfies: progress lies in [0, 100] and the
      label is the step of its bucket, the last step once progress is full. */
  ghost predicate Inv(s: LoadState) {
    0.0 <= s.progress <= Full && s.text == Steps[ShownStep(s.progress)]
  }

  /** Progress reaches 100 only from above 85, which is already the last
      bucket, so the label that is frozen there is always the last step. */
  lemma TickPreservesInv(s: LoadState, r: real)
    requires Inv(s) && IsRandom(r)
    ensures Inv(Update(s, r))
  {
    var sum := s.progress + Increment(r);
    StepIndexBounds(sum);
    if sum >= Full && s.progress < Full {
      StepIndexBounds(s.progress);
    }
  }

  /** Progress never decreases, rises by less than 15, and below 100 rises by
      at least 3 unless it reaches 100. */
  lemma TickProgressBounds(s: LoadState, r: real)
    requires Inv(s) && IsRandom(r)
    ensures s.progress <= Update(s, r).progress <= Full
    ensures Update(s, r).progress < s.progress + 15.0
    ensures Update(s, r).progress == Full || Update(s, r).progress >= s.progress + 3.0
  {
  }

  /** Once full, a tick changes nothing: progress stays 100 and the label is frozen. */
  lemma TickAtFullIsIdentity(s: LoadState, r: real)
    requires Inv(s) && s.progress == Full && IsRandom(r)
    ensures Update(s, r) == s
  {
    StepIndexBounds(s.progress + Increment(r));
  }

  /** The label never moves back and never skips a step. */
  lemma TickLabelAdvancesAtMostOne(s: LoadState, r: real)
    requires Inv(s) && IsRandom(r)
    ensures ShownStep(s.progress) <= ShownStep(Update(s, r).progress) <= ShownStep(s.progress) + 1
  {
    var sum := s.progress + Increment(r);
    StepIndexAdvancesAtMostOne(s.progress, Increment(r));
    StepIndexBounds(s.progress);
  }

  /** The state after one tick per element of `rs`. */
  function Run(s: LoadState, rs: seq<real>): LoadState
    requires 0.0 <= s.progress
    requires forall j :: 0 <= j < |rs| ==> IsRandom(rs[j])
    decreases |rs|
  {
    if rs == [] then s else Run(Update(s, rs[0]), rs[1..])
  }

  lemma {:induction false} RunPreservesInv(s: LoadState, rs: seq<real>)
    requires Inv(s)
    requires forall j :: 0 <= j < |rs| ==> IsRandom(rs[j])
    ensures Inv(Run(s, rs))
    ensures Run(s, rs).text in Steps
    ensures s.progress <= Run(s, rs).progress
    decreases |rs|
  {
    if rs != [] {
      TickPreservesInv(s, rs[0]);
      TickProgressBounds(s, rs[0]);
      RunPreservesInv(Update(s, rs[0]), rs[1..]);
    }
  }

  /** Each tick adds at least 3 until progress is full. */
  lemma {:induction false} RunProgressLowerBound(s: LoadState, rs: seq<real>)
    requires Inv(s)
    requires forall j :: 0 <= j < |rs| ==> IsRandom(rs[j])
    ensures Run(s, rs).progress == Full || Run(s, rs).progress >= s.progress + 3.0 * |rs| as real
    decreases |rs|
  {
    if rs != [] {
      var t := Update(s, rs[0]);
      TickPreservesInv(s, rs[0]);
      TickProgressBounds(s, rs[0]);
      RunProgressLowerBound(t, rs[1..]);
      if t.progress == Full {
        RunStaysFull(t, rs[1..]);
      }
    }
  }

  lemma {:induction false} RunStaysFull(s: LoadState, rs: seq<real>)
    requires Inv(s) && s.progress == Full
    requires forall j :: 0 <= j < |rs| ==> IsRandom(rs[j])
    ensures Run(s, rs) == s
    decreases |rs|
  {
    if rs != [] {
      TickAtFullIsIdentity(s, rs[0]);
      RunStaysFull(s, rs[1..]);
    }
  }

  /** From the initial state, 34 ticks always fill the bar (34 * 3 >= 100),
      and the label then shows the last step. */
  lemma FullWithin34Ticks(rs: seq<real>)
    requires |rs| >= 34
    requires forall j :: 0 <= j < |rs| ==> IsRandom(rs[j])
    ensures Run(Initial(), rs).progress == Full
    ensures Run(Initial(), rs).text == Steps[|Steps| - 1]
  {
    RunProgressLowerBound(Initial(), rs);
    RunPreservesInv(Initial(), rs);
  }

  /** The overlay is rendered exactly while the `isLoading` prop is true. */
  function OverlayVisible(isLoading: bool): bool {
    isLoading
  }

  /** The component's state. */
  class LoadingScreen {
    var progress: real
    var loadingText: string

    function State(): LoadState
      reads this
    {
      LoadState(progress, loadingText)
    }

    ghost predicate Valid()
      reads this
    {
      Inv(State())
    }

    constructor ()
      ensures Valid() && State() == Initial()
    {
      progress := 0.0;
      loadingText := "Initializing...";
    }

    /** The interval callback: sum into a local, write the label if the sum is
        still inside the six buckets, then store the sum clamped at 100. */
    method Tick(r: real)
      requires Valid() && IsRandom(r)
      modifies this
      ensures Valid() && State() == Update(old(State()), r)
    {
      TickPreservesInv(State(), r);
      var currentProgress := progress + r * 12.0 + 3.0;
      var stepIndex := ((currentProgress / 100.0) * |Steps| as real).Floor;
      if stepIndex < |Steps| {
        StepIndexMonotone(0.0, currentProgress);
        loadingText := Steps[stepIndex];
      }
      progress := if currentProgress < 100.0 then currentProgress else 100.0;
    }

    /** The interval only exists while `isLoading` is true; otherwise the
        effect returns early and nothing is scheduled. */
    method IntervalTick(isLoading: bool, r: real)
      requires Valid() && IsRandom(r)
      modifies this
      ensures Valid()
      ensures State() == if isLoading then Update(old(State()), r) else old(State())
    {
      if isLoading {
        Tick(r);
      }
    }
  }
}
