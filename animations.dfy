/** The animation scheduler (js/animations.js): a timer-driven state machine
    that plays one expression at a time (blink, wink or smile) by flipping the
    shared animation flags, then resets them and arms the next trigger.
    Timers are data: `pending` holds every armed timeout (its callback and
    delay), and the environment runs one with `Fire`. Math.random() draws are
    parameters in [0, 1). */
module Animations {
  import opened Portrait
  import opened Ascii

  // Timing constants (ms)
  const BLINK_DURATION: real := 150.0
  const WINK_DURATION: real := 300.0
  const SMILE_DURATION: real := 1500.0
  const MIN_INTERVAL: real := 2000.0
  const MAX_INTERVAL: real := 6000.0

  /** Kind draws below this blink. */
  const BLINK_BELOW: real := 0.5
  /** Kind draws in [BLINK_BELOW, WINK_BELOW) wink; the rest smile. */
  const WINK_BELOW: real := 0.8
  /** Eye draws below this wink the left eye. */
  const WINK_LEFT_BELOW: real := 0.5

  /** The callbacks handed to setTimeout. */
  datatype Callback = Trigger | EndBlink | EndWink | EndSmile

  /** An armed timeout: what runs, and after how long. */
  datatype Timeout = Timeout(callback: Callback, delay: real)

  datatype Kind = Blinking | Winking | Smiling

  /** Delay until the next trigger: MIN_INTERVAL + rand * (MAX_INTERVAL - MIN_INTERVAL). */
  function NextDelay(rand: real): (d: real)
    requires 0.0 <= rand < 1.0
    ensures MIN_INTERVAL <= d < MAX_INTERVAL
  {
    MIN_INTERVAL + rand * (MAX_INTERVAL - MIN_INTERVAL)
  }

  /** Every delay in [MIN_INTERVAL, MAX_INTERVAL) is drawn by exactly one draw. */
  lemma NextDelayOnto(d: real)
    requires MIN_INTERVAL <= d < MAX_INTERVAL
    ensures var rand := (d - MIN_INTERVAL) / (MAX_INTERVAL - MIN_INTERVAL);
            0.0 <= rand < 1.0 && NextDelay(rand) == d
    ensures forall r: real :: 0.0 <= r < 1.0 && NextDelay(r) == d ==>
              r == (d - MIN_INTERVAL) / (MAX_INTERVAL - MIN_INTERVAL)
  {
  }

  /** The expression a kind draw selects. */
  function ChooseKind(rand: real): (k: Kind)
    ensures k == Blinking <==> rand < BLINK_BELOW
    ensures k == Winking <==> BLINK_BELOW <= rand < WINK_BELOW
    ensures k == Smiling <==> WINK_BELOW <= rand
  {
    if rand < BLINK_BELOW then Blinking
    else if rand < WINK_BELOW then Winking
    else Smiling
  }

  /** Idle means neutral flags; busy means exactly one expression shows:
      some eye is closed, or the face smiles, but not both. */
  predicate Coherent(busy: bool, m: Mood)
  {
    if !busy then m == NEUTRAL
    else (!m.leftEyeOpen || !m.rightEyeOpen) != m.smiling
  }

  /** The single pending timeout t agrees with the busy flag and the animation
      flags: a trigger is armed only when idle, and each completion only while
      its own expression shows, each with its own delay. */
  predicate Agrees(t: Timeout, busy: bool, m: Mood)
  {
    match t.callback
    case Trigger => !busy && m == NEUTRAL && MIN_INTERVAL <= t.delay < MAX_INTERVAL
    case EndBlink => busy && m == Mood(false, false, false) && t.delay == BLINK_DURATION
    case EndWink => busy && m.leftEyeOpen != m.rightEyeOpen && !m.smiling && t.delay == WINK_DURATION
    case EndSmile => busy && m == Mood(true, true, true) && t.delay == SMILE_DURATION
  }

  lemma AgreesIsCoherent(t: Timeout, busy: bool, m: Mood)
    requires Agrees(t, busy, m)
    ensures Coherent(busy, m)
  {
  }

  /** The flags just after expression k starts from flags m (the wink's eye
      chosen by eyeRand, left iff below WINK_LEFT_BELOW). */
  function Started(k: Kind, eyeRand: real, m: Mood): Mood
  {
    match k
    case Blinking => m.(leftEyeOpen := false, rightEyeOpen := false)
    case Winking => if eyeRand < WINK_LEFT_BELOW then m.(leftEyeOpen := false) else m.(rightEyeOpen := false)
    case Smiling => m.(smiling := true)
  }

  /** The completion timeout an expression arms: its callback and duration. */
  function Armed(k: Kind): Timeout
  {
    match k
    case Blinking => Timeout(EndBlink, BLINK_DURATION)
    case Winking => Timeout(EndWink, WINK_DURATION)
    case Smiling => Timeout(EndSmile, SMILE_DURATION)
  }

  /** The flags just after completion callback c runs on flags m. */
  function Finished(c: Callback, m: Mood): Mood
  {
    if c == EndSmile then m.(smiling := false) else m.(leftEyeOpen := true, rightEyeOpen := true)
  }

  class Scheduler {
    /** The engine's `animState`, shared with it. */
    const animState: AnimState
    var isAnimating: bool
    /** Timeouts armed and not yet run. */
    var pending: seq<Timeout>

    constructor (animState: AnimState)
      ensures this.animState == animState && !isAnimating && pending == []
    {
      this.animState := animState;
      isAnimating := false;
      pending := [];
    }

    /** Exactly one timeout is pending, and it agrees with the flags. */
    ghost predicate Valid()
      reads this, animState
    {
      |pending| == 1 && Agrees(pending[0], isAnimating, animState.Snapshot())
    }

    /** Arms the first trigger. From the constructor's state with neutral
        flags, this establishes the invariant. */
    method Init(rand: real)
      requires 0.0 <= rand < 1.0
      modifies this`pending
      ensures pending == old(pending) + [Timeout(Trigger, NextDelay(rand))]
      ensures old(pending) == [] && !isAnimating && animState.Snapshot() == NEUTRAL ==> Valid()
    {
      ScheduleNext(rand);
    }

    method ScheduleNext(rand: real)
      requires 0.0 <= rand < 1.0
      modifies this`pending
      ensures pending == old(pending) + [Timeout(Trigger, NextDelay(rand))]
    {
      var delay := MIN_INTERVAL + rand * (MAX_INTERVAL - MIN_INTERVAL);
      pending := pending + [Timeout(Trigger, delay)];
    }

    /** The trigger callback: re-arm if busy, otherwise start the expression
        the kind draw selects. */
    method TriggerRandom(kindRand: real, eyeRand: real, delayRand: real)
      requires 0.0 <= kindRand < 1.0 && 0.0 <= eyeRand < 1.0 && 0.0 <= delayRand < 1.0
      modifies this`isAnimating, this`pending, animState
      ensures old(isAnimating) ==>
                isAnimating && animState.Snapshot() == old(animState.Snapshot()) &&
                pending == old(pending) + [Timeout(Trigger, NextDelay(delayRand))]
      ensures !old(isAnimating) && ChooseKind(kindRand) == Blinking ==>
                isAnimating &&
                animState.Snapshot() == old(animState.Snapshot()).(leftEyeOpen := false, rightEyeOpen := false) &&
                pending == old(pending) + [Timeout(EndBlink, BLINK_DURATION)]
      ensures !old(isAnimating) && ChooseKind(kindRand) == Winking ==>
                isAnimating &&
                animState.Snapshot() == (if eyeRand < WINK_LEFT_BELOW
                                         then old(animState.Snapshot()).(leftEyeOpen := false)
                                         else old(animState.Snapshot()).(rightEyeOpen := false)) &&
                pending == old(pending) + [Timeout(EndWink, WINK_DURATION)]
      ensures !old(isAnimating) && ChooseKind(kindRand) == Smiling ==>
                isAnimating &&
                animState.Snapshot() == old(animState.Snapshot()).(smiling := true) &&
                pending == old(pending) + [Timeout(EndSmile, SMILE_DURATION)]
    {
      if isAnimating {
        ScheduleNext(delayRand);
        return;
      }
      var rand := kindRand;
      if rand < BLINK_BELOW {
        Blink();
      } else if rand < WINK_BELOW {
        Wink(eyeRand);
      } else {
        Smile();
      }
    }

    /** Closes both eyes and arms the blink's completion. */
    method Blink()
      modifies this`isAnimating, this`pending, animState
      ensures isAnimating
      ensures animState.Snapshot() == old(animState.Snapshot()).(leftEyeOpen := false, rightEyeOpen := false)
      ensures pending == old(pending) + [Timeout(EndBlink, BLINK_DURATION)]
    {
      isAnimating := true;
      animState.leftEyeOpen := false;
      animState.rightEyeOpen := false;
      pending := pending + [Timeout(EndBlink, BLINK_DURATION)];
    }

    /** Closes the eye the draw selects (left when below WINK_LEFT_BELOW) and
        arms the wink's completion. */
    method Wink(eyeRand: real)
      modifies this`isAnimating, this`pending, animState
      ensures isAnimating
      ensures animState.Snapshot() == (if eyeRand < WINK_LEFT_BELOW
                                       then old(animState.Snapshot()).(leftEyeOpen := false)
                                       else old(animState.Snapshot()).(rightEyeOpen := false))
      ensures pending == old(pending) + [Timeout(EndWink, WINK_DURATION)]
    {
      isAnimating := true;
      var winkLeft := eyeRand < WINK_LEFT_BELOW;
      if winkLeft {
        animState.leftEyeOpen := false;
      } else {
        animState.rightEyeOpen := false;
      }
      pending := pending + [Timeout(EndWink, WINK_DURATION)];
    }

    /** Starts smiling and arms the smile's completion. */
    method Smile()
      modifies this`isAnimating, this`pending, animState
      ensures isAnimating
      ensures animState.Snapshot() == old(animState.Snapshot()).(smiling := true)
      ensures pending == old(pending) + [Timeout(EndSmile, SMILE_DURATION)]
    {
      isAnimating := true;
      animState.smiling := true;
      pending := pending + [Timeout(EndSmile, SMILE_DURATION)];
    }

    /** Blink completion: reopen both eyes, go idle, arm the next trigger. */
    method FinishBlink(delayRand: real)
      requires 0.0 <= delayRand < 1.0
      modifies this`isAnimating, this`pending, animState
      ensures !isAnimating
      ensures animState.Snapshot() == old(animState.Snapshot()).(leftEyeOpen := true, rightEyeOpen := true)
      ensures pending == old(pending) + [Timeout(Trigger, NextDelay(delayRand))]
    {
      animState.leftEyeOpen := true;
      animState.rightEyeOpen := true;
      isAnimating := false;
      ScheduleNext(delayRand);
    }

    /** Wink completion: reopen both eyes, go idle, arm the next trigger. */
    method FinishWink(delayRand: real)
      requires 0.0 <= delayRand < 1.0
      modifies this`isAnimating, this`pending, animState
      ensures !isAnimating
      ensures animState.Snapshot() == old(animState.Snapshot()).(leftEyeOpen := true, rightEyeOpen := true)
      ensures pending == old(pending) + [Timeout(Trigger, NextDelay(delayRand))]
    {
      animState.leftEyeOpen := true;
      animState.rightEyeOpen := true;
      isAnimating := false;
      ScheduleNext(delayRand);
    }

    /** Smile completion: stop smiling, go idle, arm the next trigger. */
    method FinishSmile(delayRand: real)
      requires 0.0 <= delayRand < 1.0
      modifies this`isAnimating, this`pending, animState
      ensures !isAnimating
      ensures animState.Snapshot() == old(animState.Snapshot()).(smiling := false)
      ensures pending == old(pending) + [Timeout(Trigger, NextDelay(delayRand))]
    {
      animState.smiling := false;
      isAnimating := false;
      ScheduleNext(delayRand);
    }

    /** The environment runs pending timeout i: it leaves `pending` and its
        callback runs with the given draws. Every callback arms exactly one
        timeout, so the number pending never changes; a trigger that starts
        an expression arms its completion, and everything else arms a new
        trigger. The invariant is preserved. */
    method Fire(i: nat, kindRand: real, eyeRand: real, delayRand: real)
      requires i < |pending|
      requires 0.0 <= kindRand < 1.0 && 0.0 <= eyeRand < 1.0 && 0.0 <= delayRand < 1.0
      modifies this`isAnimating, this`pending, animState
      ensures |pending| == old(|pending|)
      ensures pending[..|pending| - 1] == old(pending[..i] + pending[i + 1..])
      ensures (pending[|pending| - 1].callback == Trigger) <==>
              (old(pending[i].callback) != Trigger || old(isAnimating))
      ensures old(pending[i].callback) == Trigger && !old(isAnimating) ==>
                isAnimating &&
                animState.Snapshot() == Started(ChooseKind(kindRand), eyeRand, old(animState.Snapshot())) &&
                pending[|pending| - 1] == Armed(ChooseKind(kindRand))
      ensures old(pending[i].callback) == Trigger && old(isAnimating) ==>
                isAnimating && animState.Snapshot() == old(animState.Snapshot()) &&
                pending[|pending| - 1] == Timeout(Trigger, NextDelay(delayRand))
      ensures old(pending[i].callback) != Trigger ==>
                !isAnimating &&
                animState.Snapshot() == Finished(old(pending[i].callback), old(animState.Snapshot())) &&
                pending[|pending| - 1] == Timeout(Trigger, NextDelay(delayRand))
      ensures old(Valid()) ==> Valid()
    {
      var t := pending[i];
      pending := pending[..i] + pending[i + 1..];
      match t.callback
      case Trigger => TriggerRandom(kindRand, eyeRand, delayRand);
      case EndBlink => FinishBlink(delayRand);
      case EndWink => FinishWink(delayRand);
      case EndSmile => FinishSmile(delayRand);
    }

    /** While the invariant holds, idle means neutral flags and busy means
        exactly one expression. */
    lemma ValidIsCoherent()
      requires Valid()
      ensures Coherent(isAnimating, animState.Snapshot())
    {
      AgreesIsCoherent(pending[0], isAnimating, animState.Snapshot());
    }
  }

  /** Start-up wiring, in the page's order: the region grid is classified,
      the engine seeds its glyph grid from it, and the scheduler is built on
      the engine's own `animState` record (so the flags it flips are the ones
      the mutation pass reads) and arms its first trigger. */
  method Startup(glyphRand: seq<seq<real>>, delayRand: real) returns (e: Engine, s: Scheduler)
    requires IsDrawGrid(glyphRand) && 0.0 <= delayRand < 1.0
    ensures fresh(e) && fresh(e.regions) && fresh(e.animState) && fresh(s)
    ensures IsRegionGrid(e.regions.grid)
    ensures e.Valid() && e.lastUpdate == 0.0
    ensures forall y, x :: 0 <= y < ROWS && 0 <= x < COLS ==>
              e.charGrid[y][x] == GetChar(GetCellType(x, y), glyphRand[y][x])
    ensures s.animState == e.animState
    ensures s.Valid() && !s.isAnimating && s.pending == [Timeout(Trigger, NextDelay(delayRand))]
  {
    var regions := new RegionGrid();
    var grid := regions.Init();
    e := new Engine(regions);
    e.InitCharGrid(glyphRand);
    s := new Scheduler(e.animState);
    s.Init(delayRand);
  }

  /** From any trigger state, a kind draw of 0.9 starts a smile and arms its
      completion. */
  method SmileScenario(s: Scheduler, eyeRand: real, delayRand: real)
    requires s.Valid() && s.pending[0].callback == Trigger
    requires 0.0 <= eyeRand < 1.0 && 0.0 <= delayRand < 1.0
    modifies s`isAnimating, s`pending, s.animState
    ensures s.Valid() && s.isAnimating
    ensures s.animState.Snapshot() == Mood(true, true, true)
    ensures s.pending == [Timeout(EndSmile, SMILE_DURATION)]
  {
    s.Fire(0, 0.9, eyeRand, delayRand);
  }

  /** A frame of the engine never disturbs the scheduler: the pass only reads
      the shared flags, so the scheduler's invariant survives it. */
  method RenderKeepsSchedule(e: Engine, s: Scheduler, timestamp: real,
                             select: seq<seq<real>>, rand: seq<seq<real>>)
    requires s.animState == e.animState
    requires e.Valid() && s.Valid() && IsDrawGrid(select) && IsDrawGrid(rand)
    modifies e`charGrid, e`lastUpdate
    ensures e.Valid() && s.Valid()
    ensures s.isAnimating == old(s.isAnimating) && s.pending == old(s.pending)
    ensures s.animState.Snapshot() == old(s.animState.Snapshot())
  {
    e.Render(timestamp, select, rand);
  }
}
