/**
  Counting frames without a lock: each call of `frame` loads the flag and then
  adds, and the session thread may open or close a window between the two, its
  own stores apart from each other.
 */
module SessionFrames {
  import opened Wrappers
  import S = Session

  /** Where the session thread is in opening or closing a window, holding the lock. */
  datatype Window =
    | Unlocked
    | Opening(cleared: bool)   // `window_open_at` is set; then the counter is cleared, then the flag set
    | Closing(lowered: bool)   // `window_open_at` is taken; then the flag is lowered, then the counter taken

  /** What a sample counted, and the calls behind that number. */
  datatype Counted = Counted(frames: nat, calls: set<nat>)

  /**
    The flag and the counter, and a ledger of calls: those that read an open
    window and have yet to add, those behind the counter, those that were
    thrown away, and all that ever added.
   */
  datatype World = World(openAt: bool, flag: bool, counter: nat, window: Window,
                         loaded: set<nat>, live: set<nat>, discarded: set<nat>, added: set<nat>, calls: set<nat>,
                         samples: seq<Counted>)

  const START := World(false, false, 0, Unlocked, {}, {}, {}, {}, {}, [])

  datatype Step =
    | Load(call: nat)          // a new call of `frame` loads the flag
    | Add(call: nat)           // and, if it read true, adds one
    | OpenWindow
    | ClearCounter
    | RaiseFlag
    | CloseWindow
    | LowerFlag
    | TakeCounter(sampled: bool)   // a sample is made, unless sampling went off or the window is empty
  {
    predicate Enabled(w: World) {
      match this
      case Load(call) => call !in w.calls
      case Add(call) => call in w.loaded
      case OpenWindow => w.window.Unlocked? && !w.openAt
      case ClearCounter => w.window == Opening(false)
      case RaiseFlag => w.window == Opening(true)
      case CloseWindow => w.window.Unlocked? && w.openAt
      case LowerFlag => w.window == Closing(false)
      case TakeCounter(sampled) => w.window == Closing(true) && (sampled ==> w.counter > 0)
    }

    function Apply(w: World): World
      requires Enabled(w)
    {
      match this
      case Load(call) => w.(calls := w.calls + {call}, loaded := if w.flag then w.loaded + {call} else w.loaded)
      case Add(call) =>
        w.(counter := w.counter + 1, loaded := w.loaded - {call}, live := w.live + {call}, added := w.added + {call})
      case OpenWindow => w.(openAt := true, window := Opening(false))
      case ClearCounter => w.(counter := 0, window := Opening(true), live := {}, discarded := w.discarded + w.live)
      case RaiseFlag => w.(flag := true, window := Unlocked)
      case CloseWindow => w.(openAt := false, window := Closing(false))
      case LowerFlag => w.(flag := false, window := Closing(true))
      case TakeCounter(sampled) =>
        w.(counter := 0, live := {}, window := Unlocked,
           samples := if sampled then w.samples + [Counted(w.counter, w.live)] else w.samples,
           discarded := if sampled then w.discarded else w.discarded + w.live)
    }
  }

  ghost predicate IsRun(w: World, steps: seq<Step>)
    decreases steps
  {
    steps == [] || (steps[0].Enabled(w) && IsRun(steps[0].Apply(w), steps[1..]))
  }

  ghost function After(w: World, steps: seq<Step>): World
    requires IsRun(w, steps)
    decreases steps
  {
    if steps == [] then w else After(steps[0].Apply(w), steps[1..])
  }

  function Sum(samples: seq<Counted>): nat {
    if samples == [] then 0 else Sum(samples[..|samples| - 1]) + samples[|samples| - 1].frames
  }

  /** With the lock free, the flag says whether a window is open. */
  ghost predicate FlagAgrees(w: World) {
    match w.window
    case Unlocked => w.flag == w.openAt
    case Opening(_) => w.openAt && !w.flag
    case Closing(lowered) => !w.openAt && w.flag == !lowered
  }

  /** Each number counts the calls it should, and no call is behind two of them. */
  ghost predicate CountedOnce(w: World) {
    && |w.live| == w.counter
    && w.loaded <= w.calls && w.added <= w.calls && w.loaded !! w.added
    && w.live <= w.added && w.discarded <= w.added && w.live !! w.discarded
    && (forall i :: 0 <= i < |w.samples| ==>
          && |w.samples[i].calls| == w.samples[i].frames > 0
          && w.samples[i].calls <= w.added
          && w.samples[i].calls !! w.live && w.samples[i].calls !! w.discarded)
    && (forall i, j :: 0 <= i < j < |w.samples| ==> w.samples[i].calls !! w.samples[j].calls)
  }

  /** The frames of all samples, the running count and what was thrown away are all that was added. */
  ghost predicate Conserved(w: World) {
    Sum(w.samples) + w.counter + |w.discarded| == |w.added|
  }

  lemma SumGrows(samples: seq<Counted>, x: Counted)
    ensures Sum(samples + [x]) == Sum(samples) + x.frames
  {
    assert (samples + [x])[..|samples|] == samples;
  }

  lemma DisjointSum(a: set<nat>, b: set<nat>)
    requires a !! b
    ensures |a + b| == |a| + |b|
  {
    assert (a + b) - b == a;
  }

  lemma TakingIsCounted(w: World, sampled: bool)
    requires CountedOnce(w) && Conserved(w) && TakeCounter(sampled).Enabled(w)
    ensures CountedOnce(TakeCounter(sampled).Apply(w)) && Conserved(TakeCounter(sampled).Apply(w))
  {
    hide Sum;
    SumGrows(w.samples, Counted(w.counter, w.live));
    DisjointSum(w.discarded, w.live);
  }

  lemma AddingIsCounted(w: World, call: nat)
    requires CountedOnce(w) && Conserved(w) && Add(call).Enabled(w)
    ensures CountedOnce(Add(call).Apply(w)) && Conserved(Add(call).Apply(w))
  {
    hide Sum;
  }

  lemma CountingIsKept(w: World, s: Step)
    requires CountedOnce(w) && Conserved(w) && s.Enabled(w)
    ensures CountedOnce(s.Apply(w)) && Conserved(s.Apply(w))
  {
    hide Sum;
    match s
    case ClearCounter => DisjointSum(w.discarded, w.live);
    case TakeCounter(sampled) => TakingIsCounted(w, sampled);
    case Add(call) => AddingIsCounted(w, call);
    case _ =>
  }

  /**
    In every interleaving: the flag agrees with the window, each call of
    `frame` is counted in at most one sample, and no added frame goes missing.
   */
  lemma {:induction false} EveryRunCounts(w: World, steps: seq<Step>)
    requires IsRun(w, steps) && FlagAgrees(w) && CountedOnce(w) && Conserved(w)
    ensures var end := After(w, steps); FlagAgrees(end) && CountedOnce(end) && Conserved(end)
    decreases steps
  {
    hide CountedOnce, Conserved;
    if steps != [] {
      CountingIsKept(w, steps[0]);
      EveryRunCounts(steps[0].Apply(w), steps[1..]);
    }
  }

  lemma StartCounts()
    ensures FlagAgrees(START) && CountedOnce(START) && Conserved(START)
  {
  }

  /** From the start on, whatever the threads do. */
  lemma FramesAreCounted(steps: seq<Step>)
    requires IsRun(START, steps)
    ensures var end := After(START, steps);
      && Sum(end.samples) + end.counter + |end.discarded| == |end.added|
      && (forall i, j :: 0 <= i < j < |end.samples| ==> end.samples[i].calls !! end.samples[j].calls)
      && (forall i :: 0 <= i < |end.samples| ==> |end.samples[i].calls| == end.samples[i].frames > 0)
      && (end.window.Unlocked? ==> end.flag == end.openAt)
  {
    hide IsRun, After, Sum;
    StartCounts();
    EveryRunCounts(START, steps);
  }

  // ---------- With no thread in between, the steps are the operations ----------

  predicate Same(w: World, s: S.State) {
    && w.window.Unlocked? && w.openAt == s.windowOpenAt.Some?
    && w.flag == s.windowOpen && w.counter == s.frames
  }

  lemma ThreeSteps(w: World, a: Step, b: Step, c: Step)
    requires a.Enabled(w) && b.Enabled(a.Apply(w)) && c.Enabled(b.Apply(a.Apply(w)))
    ensures IsRun(w, [a, b, c]) && After(w, [a, b, c]) == c.Apply(b.Apply(a.Apply(w)))
  {
    hide Step.Enabled, Step.Apply;
    assert [a, b, c][1..] == [b, c] && [b, c][1..] == [c] && [c][1..] == [];
    assert IsRun(b.Apply(a.Apply(w)), [c]);
    assert After(b.Apply(a.Apply(w)), [c]) == c.Apply(b.Apply(a.Apply(w)));
  }

  lemma OpeningIsThreeSteps(w: World, s: S.State, elapsed: nat)
    requires Same(w, s) && s.windowOpenAt.None?
    ensures var steps := [OpenWindow, ClearCounter, RaiseFlag];
      IsRun(w, steps) && Same(After(w, steps), s.Opened(elapsed))
  {
    ThreeSteps(w, OpenWindow, ClearCounter, RaiseFlag);
  }

  /** Closing a window counts its frames in a sample exactly when the session makes one. */
  lemma ClosingIsThreeSteps(w: World, s: S.State, at: Option<S.Moment>)
    requires Same(w, s) && s.windowOpenAt.Some?
    ensures var sample := if at.Some? then s.SampleAt(at.value) else None;
      var steps := [CloseWindow, LowerFlag, TakeCounter(sample.Some?)];
      && IsRun(w, steps) && Same(After(w, steps), s.Closed(at))
      && (sample.Some? ==> After(w, steps).samples == w.samples + [Counted(sample.value.frames, w.live)])
  {
    hide S.RoundedSeconds;
    var sample := if at.Some? then s.SampleAt(at.value) else None;
    ThreeSteps(w, CloseWindow, LowerFlag, TakeCounter(sample.Some?));
  }

  /** A call of `frame` is one step or two. */
  lemma FrameIsSteps(w: World, s: S.State, call: nat)
    requires Same(w, s) && call !in w.calls && w.loaded == {}
    ensures var steps := if w.flag then [Load(call), Add(call)] else [Load(call)];
      IsRun(w, steps) && Same(After(w, steps), s.Framed())
  {
    if w.flag {
      TwoSteps(w, Load(call), Add(call));
    } else {
      assert [Load(call)][1..] == [];
    }
  }

  lemma TwoSteps(w: World, a: Step, b: Step)
    requires a.Enabled(w) && b.Enabled(a.Apply(w))
    ensures IsRun(w, [a, b]) && After(w, [a, b]) == b.Apply(a.Apply(w))
  {
    hide Step.Enabled, Step.Apply;
    assert [a, b][1..] == [b] && [b][1..] == [];
    assert IsRun(a.Apply(w), [b]);
    assert After(a.Apply(w), [b]) == b.Apply(a.Apply(w));
  }
}
