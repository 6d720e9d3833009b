/**
 * The loading screen's progress counter. An interval tick adds 2 to the
 * progress until it reaches 100; the tick after that keeps it at 100, clears
 * the interval and schedules the completion callback.
 */
module Loading {

  const Step: int := 2
  const Full: int := 100

  /**
   * The counter, whether the interval is still active, and how many times the
   * completion callback has been scheduled.
   */
  datatype LoadState = LoadState(progress: int, timerActive: bool, completions: nat)

  const Start: LoadState := LoadState(0, true, 0)

  /** The interval callback: the updater passed to `setProgress`. */
  function Update(s: LoadState): (t: LoadState)
    requires s.timerActive
    ensures t.progress >= s.progress || s.progress > Full
    ensures t.completions <= s.completions + 1
  {
    if s.progress >= Full then LoadState(Full, false, s.completions + 1)
    else s.(progress := s.progress + Step)
  }

  /** The state after the interval has come due `n` times; a cleared interval no longer fires. */
  function Ticks(s: LoadState, n: nat): LoadState
  {
    if n == 0 then s
    else
      var t := Ticks(s, n - 1);
      if t.timerActive then Update(t) else t
  }

  /** Closed form of the counter: 2 per tick up to 100, cleared and completed on tick 51. */
  lemma {:induction false} TicksFromStart(n: nat)
    ensures Ticks(Start, n) ==
      if n <= 50 then LoadState(Step * n, true, 0) else LoadState(Full, false, 1)
  {
    if n > 0 {
      TicksFromStart(n - 1);
    }
  }

  /** The counter stays within [0, 100] and is always even. */
  lemma ProgressInRange(n: nat)
    ensures 0 <= Ticks(Start, n).progress <= Full
    ensures Ticks(Start, n).progress % 2 == 0
  {
    TicksFromStart(n);
  }

  /** The counter never decreases from one tick to a later one. */
  lemma ProgressMonotone(m: nat, n: nat)
    requires m <= n
    ensures Ticks(Start, m).progress <= Ticks(Start, n).progress
  {
    TicksFromStart(m);
    TicksFromStart(n);
  }

  /** 100 is reached after exactly 50 ticks, and not before. */
  lemma FullAfterFiftyTicks(n: nat)
    ensures Ticks(Start, n).progress == Full <==> n >= 50
  {
    TicksFromStart(n);
  }

  /** The completion is scheduled on tick 51 and never again. */
  lemma CompletionScheduledOnce(n: nat)
    ensures Ticks(Start, n).completions == (if n >= 51 then 1 else 0)
    ensures Ticks(Start, n).timerActive <==> n <= 50
  {
    TicksFromStart(n);
  }

  /** The loading screen component with its interval. */
  class LoadingScreen {
    var progress: int
    var timerActive: bool
    var completions: nat
    ghost var ticks: nat  // how many times the interval has fired

    function State(): LoadState
      reads this
    {
      LoadState(progress, timerActive, completions)
    }

    ghost predicate Valid()
      reads this
    {
      State() == Ticks(Start, ticks) && ticks <= 51
    }

    /** Mounting: progress 0 and the interval started. */
    constructor ()
      ensures Valid()
      ensures progress == 0 && timerActive && completions == 0 && ticks == 0
    {
      progress := 0;
      timerActive := true;
      completions := 0;
      ticks := 0;
    }

    /** One firing of the interval. */
    method Tick()
      requires Valid()
      requires timerActive
      modifies this
      ensures Valid()
      ensures ticks == old(ticks) + 1
      ensures State() == Update(old(State()))
      ensures old(progress) <= progress <= Full
      ensures old(progress) < Full ==> progress == old(progress) + Step && timerActive
      ensures old(progress) >= Full ==> !timerActive && completions == old(completions) + 1
    {
      TicksFromStart(ticks);
      if progress >= Full {
        timerActive := false;
        completions := completions + 1;
        progress := Full;
      } else {
        progress := progress + Step;
      }
      ticks := ticks + 1;
      TicksFromStart(ticks);
    }

    /** The interval firing until it clears itself. */
    method RunInterval() returns (fired: nat)
      requires Valid()
      modifies this
      ensures Valid()
      ensures fired == 51 - old(ticks) && ticks == 51
      ensures progress == Full && !timerActive && completions == 1
    {
      fired := 0;
      TicksFromStart(ticks);
      while timerActive
        invariant Valid()
        invariant ticks == old(ticks) + fired
        invariant timerActive <==> ticks <= 50
        decreases 51 - ticks
      {
        Tick();
        fired := fired + 1;
        TicksFromStart(ticks);
      }
      TicksFromStart(ticks);
    }
  }
}
