/**
 Background work: who asks for it, who is waiting for it, and why there is
 always a call scheduled when there is work to do. Runs have no background
 error and no shutdown. A step is what one thread does while it holds the mutex.
 */
module Schedule {

  const LEVELS: nat := 7
  const L0_TRIGGER: nat := 4
  const L0_STOP: nat := 12

  /** How full a version's levels are: number of files at level 0, bytes in the others. */
  datatype Levels = Levels(files0: nat, bytes: seq<nat>)

  /** Ten megabytes at level 1, ten times as much at each further one. */
  function MaxBytes(level: nat): (r: real)
    ensures r > 0.0
    decreases level
  {
    if level <= 1 then 10485760.0 else 10.0 * MaxBytes(level - 1)
  }

  function Score(v: Levels, level: nat): real {
    if level == 0 then v.files0 as real / L0_TRIGGER as real
    else if level < |v.bytes| then v.bytes[level] as real / MaxBytes(level)
    else 0.0
  }

  /** Finalize: the level that needs compaction most. */
  method Finalize(v: Levels) returns (bestLevel: int, bestScore: real)
    ensures 0 <= bestLevel < LEVELS - 1 && bestScore == Score(v, bestLevel)
    ensures forall l :: 0 <= l < LEVELS - 1 ==> Score(v, l) <= bestScore
  {
    bestLevel, bestScore := -1, -1.0;
    var level := 0;
    while level < LEVELS - 1
      invariant 0 <= level <= LEVELS - 1 && -1 <= bestLevel < LEVELS - 1
      invariant level == 0 ==> bestLevel == -1 && bestScore == -1.0
      invariant level > 0 ==> 0 <= bestLevel && bestScore == Score(v, bestLevel)
      invariant forall l :: 0 <= l < level ==> Score(v, l) <= bestScore
    {
      var score := Score(v, level);
      ScoreNotNegative(v, level);
      if score > bestScore {
        bestLevel, bestScore := level, score;
      }
      level := level + 1;
    }
  }

  lemma ScoreNotNegative(v: Levels, level: nat)
    ensures Score(v, level) >= 0.0
  {
    if 0 < level < |v.bytes| { Ratio(v.bytes[level], MaxBytes(level)); }
  }

  lemma Ratio(b: nat, max: real)
    requires max > 0.0
    ensures b as real / max >= 0.0 && (b as real / max >= 1.0 <==> b as real >= max)
  {
    var q := b as real / max;
    assert q * max == b as real;
    Product(q, max);
  }

  lemma Product(q: real, max: real)
    requires max > 0.0
    ensures (q < 0.0 ==> q * max < 0.0) && (q < 1.0 ==> q * max < max) && (q >= 1.0 ==> q * max >= max)
  {
    if q < 1.0 { assert (1.0 - q) * max > 0.0; } else { assert (q - 1.0) * max >= 0.0; }
  }

  /** Some level is over its limit; exactly then the best score reaches one. */
  ghost predicate Overfull(v: Levels) {
    v.files0 >= L0_TRIGGER || exists l :: 1 <= l < LEVELS - 1 && l < |v.bytes| && v.bytes[l] as real >= MaxBytes(l)
  }

  lemma NeedsExactlyWhenOverfull(v: Levels, bestLevel: nat, bestScore: real)
    requires bestLevel < LEVELS - 1 && bestScore == Score(v, bestLevel)
    requires forall l :: 0 <= l < LEVELS - 1 ==> Score(v, l) <= bestScore
    ensures bestScore >= 1.0 <==> Overfull(v)
    ensures bestScore >= 1.0 && bestLevel == 0 ==> v.files0 > 0
    ensures bestScore >= 1.0 && bestLevel != 0 ==> bestLevel < |v.bytes| && v.bytes[bestLevel] > 0
  {
    assert Score(v, 0) <= bestScore;
    if 0 < bestLevel < |v.bytes| { Ratio(v.bytes[bestLevel], MaxBytes(bestLevel)); }
    forall l | 1 <= l < LEVELS - 1 && l < |v.bytes| && v.bytes[l] as real >= MaxBytes(l) ensures bestScore >= 1.0 {
      Ratio(v.bytes[l], MaxBytes(l));
      assert Score(v, l) <= bestScore;
    }
  }

  // ---- The scheduler ----

  /**
   `queued` counts calls handed to the environment and not yet started, `waiting` are threads blocked on the
   background condition variable.
   */
  datatype State = State(
    imm: bool,
    manual: bool,
    version: Levels,
    fileToCompact: bool,
    scheduled: bool,
    queued: nat,
    running: bool,
    waiting: set<nat>)

  ghost predicate NeedsCompaction(s: State) {
    Overfull(s.version) || s.fileToCompact
  }

  ghost predicate Work(s: State) {
    s.imm || s.manual || NeedsCompaction(s)
  }

  ghost function MaybeSchedule(s: State): State {
    if s.scheduled || !Work(s) then s else s.(scheduled := true, queued := s.queued + 1)
  }

  datatype Step =
    | SwitchMemTable
    | RequestManual
    | SeekLimitReached
    | StartCall
    | InstallFlush(version: Levels)
    | InstallVersion(version: Levels)
    | ManualDone
    | FinishCall
    | WaitForFlush(thread: nat)
    | WaitForLevel0(thread: nat)
    | WaitForManual(thread: nat)

  ghost predicate Does(s: State, step: Step, t: State) {
    match step
    case SwitchMemTable => !s.imm && t == MaybeSchedule(s.(imm := true))
    case RequestManual => !s.manual && t == MaybeSchedule(s.(manual := true))
    case SeekLimitReached => t == MaybeSchedule(s.(fileToCompact := true))
    case StartCall => s.queued > 0 && !s.running && t == s.(queued := s.queued - 1, running := true)
    // inside a background call; the mutex is free in between
    case InstallFlush(v) => s.running && s.imm && t == s.(imm := false, version := v, fileToCompact := false)
    case InstallVersion(v) => s.running && t == s.(version := v, fileToCompact := false)
    case ManualDone => s.running && s.manual && t == s.(manual := false)
    // reschedule if there is more to do, then wake everybody
    case FinishCall => s.running && t == MaybeSchedule(s.(running := false, scheduled := false)).(waiting := {})
    case WaitForFlush(w) => s.imm && t == s.(waiting := s.waiting + {w})
    case WaitForLevel0(w) => s.version.files0 >= L0_STOP && t == s.(waiting := s.waiting + {w})
    case WaitForManual(w) => s.manual && t == s.(waiting := s.waiting + {w})
  }

  ghost predicate Inv(s: State) {
    && s.queued + (if s.running then 1 else 0) == (if s.scheduled then 1 else 0)
    && (Work(s) ==> s.scheduled)
    && (s.waiting != {} ==> s.scheduled)
  }

  lemma StepKeepsInv(s: State, step: Step, t: State)
    requires Inv(s) && Does(s, step, t)
    ensures Inv(t)
  {
    if step.InstallFlush? || step.InstallVersion? || step.ManualDone? { assert s.scheduled; }
    if step.WaitForLevel0? { assert Overfull(s.version); }
  }

  ghost predicate Run(states: seq<State>, steps: seq<Step>) {
    && |states| == |steps| + 1
    && (exists v :: states[0] == MaybeSchedule(State(false, false, v, false, false, 0, false, {})))
    && forall i :: 0 <= i < |steps| ==> Does(states[i], steps[i], states[i + 1])
  }

  lemma {:induction false} RunInv(states: seq<State>, steps: seq<Step>, k: nat)
    requires Run(states, steps) && k <= |steps|
    ensures Inv(states[k])
  {
    if k > 0 {
      RunInv(states, steps, k - 1);
      StepKeepsInv(states[k - 1], steps[k - 1], states[k]);
    }
  }

  /**
   Whenever the mutex is free: if there is work, exactly one call is queued or running, and never are there two;
   whoever waits has such a call to wake it, which ends by waking everybody and by scheduling what is left.
   */
  lemma NoLostWork(states: seq<State>, steps: seq<Step>, k: nat)
    requires Run(states, steps) && k <= |steps|
    ensures var s := states[k];
      && s.queued + (if s.running then 1 else 0) <= 1
      && (Work(s) || s.waiting != {} ==> s.queued == 1 || s.running)
      && (k < |steps| && steps[k].FinishCall? ==>
            states[k + 1].waiting == {} && (Work(states[k + 1]) ==> states[k + 1].queued == 1))
  {
    RunInv(states, steps, k);
    if k < |steps| {
      RunInv(states, steps, k + 1);
      assert Does(states[k], steps[k], states[k + 1]);
    }
  }
}
