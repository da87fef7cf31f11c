/**
  Arming lobby polling, from any number of game threads, against the session
  thread that polls and may retire polling for good. `armed` is read without
  the lock; both `armed` and the polling state are written under it.
 */
module LobbyPolling {
  import opened Wrappers
  import opened LobbyQueue

  datatype Owner = Free | ArmThread(stored: bool) | RetireThread(stored: bool)

  /** Where the session thread is in its poll of this round. */
  datatype Poller = Waiting | InCall | Refusing | Retiring

  /** `waiting` are the threads past the unlocked check of `arm`; `issued` counts polls, `retired` is history. */
  datatype World = World(armed: bool, polling: Polling, owner: Owner, waiting: set<nat>,
                         poller: Poller, issued: nat, retired: bool)

  const START := World(false, Off, Free, {}, Waiting, 0, false)

  datatype Step =
    | ArmCheck(thread: nat)     // `armed` is loaded; a thread that reads true returns
    | ArmLock(thread: nat)      // the lock is taken; unless unavailable, polling becomes active
    | ArmStore                  // `armed` is stored
    | ArmUnlock
    | PollCheck                 // the session thread loads `armed`, and polls if it reads true
    | PollAnswered(featureUnavailable: bool)
    | RetireLock
    | RetireStore               // `armed` is cleared
    | RetireUnlock              // polling is unavailable, and the lock is free again
  {
    predicate Enabled(w: World) {
      match this
      case ArmCheck(_) => true
      case ArmLock(thread) => thread in w.waiting && w.owner.Free?
      case ArmStore => w.owner == ArmThread(false)
      case ArmUnlock => w.owner == ArmThread(true)
      case PollCheck => w.poller.Waiting?
      case PollAnswered(_) => w.poller.InCall?
      case RetireLock => w.poller.Refusing? && w.owner.Free?
      case RetireStore => w.owner == RetireThread(false)
      case RetireUnlock => w.owner == RetireThread(true)
    }

    function Apply(w: World): World
      requires Enabled(w)
    {
      match this
      case ArmCheck(thread) => if w.armed then w else w.(waiting := w.waiting + {thread})
      case ArmLock(thread) =>
        var w := w.(waiting := w.waiting - {thread});
        if w.polling.Unavailable? then w else w.(polling := Active, owner := ArmThread(false))
      case ArmStore => w.(armed := true, owner := ArmThread(true))
      case ArmUnlock => w.(owner := Free)
      case PollCheck => if w.armed then w.(poller := InCall, issued := w.issued + 1) else w
      case PollAnswered(featureUnavailable) => w.(poller := if featureUnavailable then Refusing else Waiting)
      case RetireLock => w.(poller := Retiring, owner := RetireThread(false))
      case RetireStore => w.(armed := false, owner := RetireThread(true))
      case RetireUnlock => w.(polling := Unavailable, poller := Waiting, owner := Free, retired := true)
    }
  }

  ghost predicate IsRun(w: World, steps: seq<Step>)
    decreases steps
  {
    steps == [] || (steps[0].Enabled(w) && IsRun(steps[0].Apply(w), steps[1..]))
  }

  ghost function After(w: World, steps: seq<Step>): World
    requires IsRun(w, steps)
    decreases steps
  {
    if steps == [] then w else After(steps[0].Apply(w), steps[1..])
  }

  ghost predicate Sound(w: World) {
    && (w.owner.Free? ==> (w.armed <==> w.polling.Active?))
    && (w.owner.ArmThread? ==> w.polling.Active? && !w.retired && (w.owner.stored ==> w.armed))
    && (w.owner.RetireThread? <==> w.poller.Retiring?)
    && (w.owner == RetireThread(true) ==> !w.armed)
    && (w.polling.Unavailable? <==> w.retired)
    && (w.retired ==> !w.armed && w.poller.Waiting?)
  }

  lemma StartIsSound()
    ensures Sound(START)
  {
  }

  /** Whenever the lock is free, the flag says that polling is active, in every interleaving. */
  lemma {:induction false} FlagAgreesWithState(w: World, steps: seq<Step>)
    requires IsRun(w, steps) && Sound(w)
    ensures Sound(After(w, steps))
    ensures After(w, steps).owner.Free? ==> (After(w, steps).armed <==> After(w, steps).polling.Active?)
    decreases steps
  {
    if steps != [] {
      FlagAgreesWithState(steps[0].Apply(w), steps[1..]);
    }
  }

  /** From the start on, whatever the threads do. */
  lemma ArmedMeansActive(steps: seq<Step>)
    requires IsRun(START, steps)
    ensures var end := After(START, steps);
      && (end.owner.Free? ==> (end.armed <==> end.polling.Active?))
      && (end.polling.Unavailable? <==> end.retired)
      && (end.retired ==> !end.armed)
  {
    StartIsSound();
    FlagAgreesWithState(START, steps);
  }

  /** The poll that retires polling has been refused. */
  predicate Refused(w: World) {
    w.poller.Refusing? || w.poller.Retiring? || w.retired
  }

  /**
    From the refusal on no poll is ever issued again, whoever arms, also before
    the refusal has taken the lock; and once retired, polling stays unavailable.
   */
  lemma {:induction false} RetiredForGood(w: World, steps: seq<Step>)
    requires IsRun(w, steps) && Sound(w) && Refused(w)
    ensures var end := After(w, steps);
      && Refused(end) && end.issued == w.issued
      && (w.retired || end.poller.Waiting? ==> end.retired && end.polling.Unavailable? && !end.armed)
    decreases steps
  {
    if steps != [] {
      RetiredForGood(steps[0].Apply(w), steps[1..]);
    }
  }

  // ---------- With no thread in between, the steps are the operations ----------

  lemma {:induction false} RunGoesOn(w: World, steps: seq<Step>, s: Step)
    requires IsRun(w, steps) && s.Enabled(After(w, steps))
    ensures IsRun(w, steps + [s]) && After(w, steps + [s]) == s.Apply(After(w, steps))
    decreases steps
  {
    hide Step.Apply, Step.Enabled;
    if steps == [] {
      assert [] + [s] == [s] && [s][1..] == [];
    } else {
      assert (steps + [s])[1..] == steps[1..] + [s];
      RunGoesOn(steps[0].Apply(w), steps[1..], s);
    }
  }

  /** The steps of one call of `arm`, by where it returns. */
  function ArmingSteps(w: World, thread: nat): seq<Step> {
    if w.armed then [] + [ArmCheck(thread)]
    else if w.polling.Unavailable? then [] + [ArmCheck(thread)] + [ArmLock(thread)]
    else [] + [ArmCheck(thread)] + [ArmLock(thread)] + [ArmStore] + [ArmUnlock]
  }

  /** Arming from start to end leaves polling, flag and lock as the object's method does. */
  lemma ArmingIsSteps(w: World, s: Shared, thread: nat)
    requires Sound(w) && w.owner.Free? && w.polling == s.polling && thread !in w.waiting
    ensures IsRun(w, ArmingSteps(w, thread))
    ensures After(w, ArmingSteps(w, thread)) == w.(polling := s.Armed().polling, armed := s.Armed().polling.Active?)
  {
    RunGoesOn(w, [], ArmCheck(thread));
    if !w.armed {
      assert w.waiting + {thread} - {thread} == w.waiting;
      RunGoesOn(w, [] + [ArmCheck(thread)], ArmLock(thread));
      if !w.polling.Unavailable? {
        RunGoesOn(w, [] + [ArmCheck(thread)] + [ArmLock(thread)], ArmStore);
        RunGoesOn(w, [] + [ArmCheck(thread)] + [ArmLock(thread)] + [ArmStore], ArmUnlock);
      }
    }
  }

  const REFUSED_POLL := [] + [PollCheck] + [PollAnswered(true)] + [RetireLock] + [RetireStore] + [RetireUnlock]

  /** A poll that is refused for good, from start to end. */
  lemma RetiringIsSteps(w: World, s: Shared)
    requires Sound(w) && w.owner.Free? && w.polling == s.polling && w.armed && w.poller.Waiting?
    ensures IsRun(w, REFUSED_POLL)
    ensures After(w, REFUSED_POLL)
         == w.(polling := s.Polled(PollAnswer.Refused(true)).polling, armed := false, issued := w.issued + 1, retired := true)
  {
    RunGoesOn(w, [], PollCheck);
    RunGoesOn(w, [] + [PollCheck], PollAnswered(true));
    RunGoesOn(w, [] + [PollCheck] + [PollAnswered(true)], RetireLock);
    RunGoesOn(w, [] + [PollCheck] + [PollAnswered(true)] + [RetireLock], RetireStore);
    RunGoesOn(w, [] + [PollCheck] + [PollAnswered(true)] + [RetireLock] + [RetireStore], RetireUnlock);
  }
}
