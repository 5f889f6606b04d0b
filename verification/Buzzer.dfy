/** The buzzer of firmware/src/buzzer.rs: a single-output step player and the arbiter in front of it. */
module Buzzer {
  import opened Arithmetic

  datatype Cue =
    | UiInput | HeaterOn | HeaterOff | ActiveCoolingOn | ActiveCoolingOff | HeaterReject | ActiveCoolingReject
    | ProtectionAlarm | AttentionReminder

  predicate IsFeedback(cue: Cue)
  {
    !cue.ProtectionAlarm? && !cue.AttentionReminder?
  }

  datatype Source = Startup | FrontPanel | RuntimeControl | ThermalProtection | ThermalAttention

  datatype Disposition = Started | Preempted | Queued | Coalesced | Replaced | Dropped | Stopped

  datatype Decision = Decision(source: Source, cue: Cue, disposition: Disposition)

  datatype Step = Step(frequencyHz: Option<u32>, dutyPercent: u8, durationMs: u32)

  datatype Pattern = Pattern(steps: seq<Step>, looping: bool)

  datatype Output = Output(frequencyHz: Option<u32>, dutyPercent: u8, generation: u32)

  function Tone(hz: u32, ms: u32): Step { Step(Some(hz), 50, ms) }

  function Rest(ms: u32): Step { Step(None, 0, ms) }

  function PatternFor(cue: Cue): (p: Pattern)
    ensures p.steps != [] && !p.looping
    ensures forall k :: 0 <= k < |p.steps| ==> 0 < p.steps[k].durationMs <= 150
  {
    Pattern(
      match cue
      case UiInput => [Tone(1_080, 45)]
      case HeaterOn => [Tone(1_240, 60), Rest(30), Tone(1_680, 80)]
      case HeaterOff => [Tone(1_680, 60), Rest(30), Tone(1_240, 80)]
      case ActiveCoolingOn => [Tone(900, 45), Rest(25), Tone(1_200, 45), Rest(25), Tone(1_550, 70)]
      case ActiveCoolingOff => [Tone(1_550, 45), Rest(25), Tone(1_200, 45), Rest(25), Tone(900, 70)]
      case HeaterReject => [Tone(420, 120), Rest(35), Tone(360, 150)]
      case ActiveCoolingReject => [Tone(480, 75), Rest(20), Tone(480, 75), Rest(20), Tone(320, 120)]
      case ProtectionAlarm => [Tone(2_300, 90), Rest(40), Tone(2_300, 90), Rest(80)]
      case AttentionReminder => [Tone(1_650, 70), Rest(30), Tone(2_200, 110)],
      false)
  }

  /** Frequency, or zero for a rest, and duration of each step of a cue. */
  function Notes(cue: Cue): (r: seq<(u32, u32)>)
    ensures |r| == |PatternFor(cue).steps|
  {
    var steps := PatternFor(cue).steps;
    seq(|steps|, k requires 0 <= k < |steps| =>
      (if steps[k].frequencyHz.Some? then steps[k].frequencyHz.value else 0, steps[k].durationMs))
  }

  /** What each cue sounds like. */
  lemma Tunes()
    ensures Notes(UiInput) == [(1_080, 45)]
    ensures Notes(HeaterOn) == [(1_240, 60), (0, 30), (1_680, 80)]
    ensures Notes(HeaterOff) == [(1_680, 60), (0, 30), (1_240, 80)]
    ensures Notes(ActiveCoolingOn) == [(900, 45), (0, 25), (1_200, 45), (0, 25), (1_550, 70)]
    ensures Notes(ActiveCoolingOff) == [(1_550, 45), (0, 25), (1_200, 45), (0, 25), (900, 70)]
    ensures Notes(HeaterReject) == [(420, 120), (0, 35), (360, 150)]
    ensures Notes(ActiveCoolingReject) == [(480, 75), (0, 20), (480, 75), (0, 20), (320, 120)]
    ensures Notes(ProtectionAlarm) == [(2_300, 90), (0, 40), (2_300, 90), (0, 80)]
    ensures Notes(AttentionReminder) == [(1_650, 70), (0, 30), (2_200, 110)]
  {
  }

  /** A tone runs at half duty and a rest drives nothing; no two cues sound alike. */
  lemma CuesAreDistinct(c: Cue, d: Cue)
    ensures Notes(c) == Notes(d) ==> c == d
    ensures forall k :: 0 <= k < |PatternFor(c).steps| ==>
              var step := PatternFor(c).steps[k];
              if step.frequencyHz.Some? then step.frequencyHz.value > 0 && step.dutyPercent == 50
              else step.dutyPercent == 0
  {
    hide Notes;
    Tunes();
    if Notes(c) == Notes(d) {
      var n, m := Notes(c), Notes(d);
      assert |n| == |m| && n[0] == m[0] && n[|n| - 1] == m[|m| - 1];
    }
  }

  function Silent(generation: u32): Output { Output(None, 0, generation) }

  function OutputForStep(step: Step, generation: u32): Output
  {
    Output(step.frequencyHz, step.dutyPercent, generation)
  }

  function NextGeneration(generation: u32): u32 { (generation + 1) % 0x1_0000_0000 }

  // ---------------------------------------------------------------------------------------------
  // The player.

  datatype ActiveCue = ActiveCue(cue: Cue, stepIndex: nat, stepStartedMs: u64)

  datatype Player = Player(active: Option<ActiveCue>, output: Output, generation: u32)

  const NEW_PLAYER := Player(None, Silent(0), 0)

  predicate OnPattern(p: Player)
  {
    p.active.Some? ==> p.active.value.stepIndex < |PatternFor(p.active.value.cue).steps|
  }

  function CurrentStep(a: ActiveCue): Step
    requires a.stepIndex < |PatternFor(a.cue).steps|
  {
    PatternFor(a.cue).steps[a.stepIndex]
  }

  function ScheduledEndMs(a: ActiveCue): u64
    requires a.stepIndex < |PatternFor(a.cue).steps|
  {
    SatAdd64(a.stepStartedMs, CurrentStep(a).durationMs)
  }

  function Play(p: Player, cue: Cue, nowMs: u64): (r: Player)
    ensures OnPattern(r)
  {
    var generation := NextGeneration(p.generation);
    Player(Some(ActiveCue(cue, 0, nowMs)), OutputForStep(PatternFor(cue).steps[0], generation), generation)
  }

  function Stop(p: Player): Player
  {
    var generation :=
      if p.active.Some? || p.output.frequencyHz.Some? || p.output.dutyPercent != 0 then NextGeneration(p.generation)
      else p.generation;
    Player(None, Silent(generation), generation)
  }

  /** A late tick exposes the next step only; it never skips one. */
  function Tick(p: Player, nowMs: u64): (r: Player)
    requires OnPattern(p)
    ensures OnPattern(r)
  {
    if p.active.None? then p.(output := Silent(p.generation))
    else
      var a := p.active.value;
      var pattern := PatternFor(a.cue);
      if nowMs < ScheduledEndMs(a) then p.(output := OutputForStep(CurrentStep(a), p.generation))
      else if a.stepIndex + 1 >= |pattern.steps| && !pattern.looping then
        var generation := NextGeneration(p.generation);
        Player(None, Silent(generation), generation)
      else
        var index := if a.stepIndex + 1 >= |pattern.steps| then 0 else a.stepIndex + 1;
        var next := ActiveCue(a.cue, index, Max(ScheduledEndMs(a), nowMs));
        Player(Some(next), OutputForStep(CurrentStep(next), p.generation), p.generation)
  }

  function NextTransitionMs(p: Player): Option<u64>
    requires OnPattern(p)
  {
    if p.active.None? then None else Some(ScheduledEndMs(p.active.value))
  }

  /** Stopping silences the output at once and takes a new generation exactly when something sounded; an
      idle player stays silent under its generation, whatever the tick. */
  lemma StopSilences(p: Player, nowMs: u64)
    ensures var r := Stop(p);
            var sounded := p.active.Some? || p.output.frequencyHz.Some? || p.output.dutyPercent != 0;
            && r.active.None? && r.output == Output(None, 0, r.generation)
            && r.generation == (if sounded then (p.generation + 1) % 0x1_0000_0000 else p.generation)
            && Tick(r, nowMs) == r
  {
  }

  // ---------------------------------------------------------------------------------------------
  // Playback over arbitrary ticks.

  /** The player after the ticks of `ts`, in order. */
  function Ticked(p: Player, ts: seq<u64>): (r: Player)
    requires OnPattern(p)
    ensures OnPattern(r)
  {
    if ts == [] then p else Tick(Ticked(p, ts[..|ts| - 1]), ts[|ts| - 1])
  }

  function TotalMs(steps: seq<Step>): nat
  {
    if steps == [] then 0 else TotalMs(steps[..|steps| - 1]) + steps[|steps| - 1].durationMs
  }

  /** How many steps of `cue` the player has left behind. */
  function Position(p: Player, cue: Cue): nat
  {
    if p.active.Some? then p.active.value.stepIndex else |PatternFor(cue).steps|
  }

  /** The player is at some step of the cue started at `startMs` under generation `g`, showing that
      step, or has finished and is silent under the next generation. */
  predicate Playing(p: Player, cue: Cue, startMs: u64, g: u32)
  {
    var steps := PatternFor(cue).steps;
    match p.active
    case Some(a) =>
      && a.cue == cue && a.stepIndex < |steps|
      && a.stepStartedMs >= startMs + TotalMs(steps[..a.stepIndex])
      && p.generation == g && p.output == Output(steps[a.stepIndex].frequencyHz, steps[a.stepIndex].dutyPercent, g)
    case None =>
      var next := (g + 1) % 0x1_0000_0000;
      p.generation == next && p.output == Output(None, 0, next)
  }

  /** No scheduled step end saturates the clock. */
  predicate BelowSaturation(t: u64)
  {
    t + 150 < 0x1_0000_0000_0000_0000
  }

  lemma TotalExtends(steps: seq<Step>, k: nat)
    requires k < |steps|
    ensures TotalMs(steps[..k + 1]) == TotalMs(steps[..k]) + steps[k].durationMs
  {
    assert steps[..k + 1][..k] == steps[..k];
  }

  /** One tick moves on by at most one step, and only once the step has had its full duration. */
  lemma TickMovesOne(p: Player, cue: Cue, startMs: u64, g: u32, nowMs: u64)
    requires OnPattern(p) && Playing(p, cue, startMs, g) && BelowSaturation(nowMs)
    requires p.active.Some? ==> BelowSaturation(p.active.value.stepStartedMs)
    ensures var r := Tick(p, nowMs);
            && Playing(r, cue, startMs, g)
            && (r.active.Some? ==> BelowSaturation(r.active.value.stepStartedMs))
            && (Position(r, cue) == Position(p, cue) ==> r.active == p.active)
            && (Position(r, cue) != Position(p, cue) ==>
                  && p.active.Some? && Position(r, cue) == Position(p, cue) + 1
                  && nowMs >= p.active.value.stepStartedMs + CurrentStep(p.active.value).durationMs
                  && (r.active.Some? ==> r.active.value.stepStartedMs == nowMs))
            && (p.active.Some? && nowMs >= p.active.value.stepStartedMs + CurrentStep(p.active.value).durationMs ==>
                  Position(r, cue) == Position(p, cue) + 1)
  {
    hide TotalMs;
    if p.active.Some? {
      TotalExtends(PatternFor(cue).steps, p.active.value.stepIndex);
    }
  }

  /** Under any ticks a cue shows its own steps only, in order and one at a time, and is never ahead
      of its schedule; after the last step it is silent under a new generation. */
  lemma {:induction false} PlaysInOrder(p: Player, cue: Cue, startMs: u64, ts: seq<u64>)
    requires BelowSaturation(startMs) && forall k :: 0 <= k < |ts| ==> BelowSaturation(ts[k])
    ensures var began := Play(p, cue, startMs);
            var r := Ticked(began, ts);
            && Playing(r, cue, startMs, (p.generation + 1) % 0x1_0000_0000)
            && (r.active.Some? ==> BelowSaturation(r.active.value.stepStartedMs))
            && (ts != [] ==>
                  var before := Position(Ticked(began, ts[..|ts| - 1]), cue);
                  before <= Position(r, cue) <= before + 1)
  {
    hide Tick, PatternFor, Playing;
    var began := Play(p, cue, startMs);
    if ts == [] {
      PlayBegins(p, cue, startMs);
    } else {
      var n := |ts| - 1;
      PlaysInOrder(p, cue, startMs, ts[..n]);
      TickMovesOne(Ticked(began, ts[..n]), cue, startMs, NextGeneration(p.generation), ts[n]);
    }
  }

  lemma PlayBegins(p: Player, cue: Cue, startMs: u64)
    ensures Playing(Play(p, cue, startMs), cue, startMs, NextGeneration(p.generation))
  {
    assert PatternFor(cue).steps[..0] == [];
  }

  /** When the step a tick leaves was entered. */
  function EnteredMs(began: Player, startMs: u64, ts: seq<u64>, cue: Cue): u64
    requires OnPattern(began)
  {
    if ts == [] then startMs
    else
      var n := |ts| - 1;
      if Position(Ticked(began, ts), cue) != Position(Ticked(began, ts[..n]), cue) then ts[n]
      else EnteredMs(began, startMs, ts[..n], cue)
  }

  lemma {:induction false} EnteredIsStarted(p: Player, cue: Cue, startMs: u64, ts: seq<u64>)
    requires BelowSaturation(startMs) && forall k :: 0 <= k < |ts| ==> BelowSaturation(ts[k])
    ensures var r := Ticked(Play(p, cue, startMs), ts);
            r.active.Some? ==> r.active.value.stepStartedMs == EnteredMs(Play(p, cue, startMs), startMs, ts, cue)
  {
    hide Tick, PatternFor, Playing;
    if ts != [] {
      var n := |ts| - 1;
      var began := Play(p, cue, startMs);
      EnteredIsStarted(p, cue, startMs, ts[..n]);
      PlaysInOrder(p, cue, startMs, ts[..n]);
      TickMovesOne(Ticked(began, ts[..n]), cue, startMs, NextGeneration(p.generation), ts[n]);
    }
  }

  /** Each step is held for at least its duration, from the tick that entered it to the tick that
      leaves it, however late either is. */
  lemma StepsAreHeld(p: Player, cue: Cue, startMs: u64, ts: seq<u64>, nowMs: u64)
    requires BelowSaturation(startMs) && BelowSaturation(nowMs)
    requires forall k :: 0 <= k < |ts| ==> BelowSaturation(ts[k])
    requires var began := Play(p, cue, startMs);
             Position(Ticked(began, ts + [nowMs]), cue) != Position(Ticked(began, ts), cue)
    ensures var began := Play(p, cue, startMs);
            var left := Ticked(began, ts);
            && left.active.Some? && left.active.value.cue == cue
            && nowMs - EnteredMs(began, startMs, ts, cue) >= CurrentStep(left.active.value).durationMs
  {
    hide Tick, PatternFor;
    var began := Play(p, cue, startMs);
    assert (ts + [nowMs])[..|ts|] == ts;
    PlaysInOrder(p, cue, startMs, ts);
    EnteredIsStarted(p, cue, startMs, ts);
    TickMovesOne(Ticked(began, ts), cue, startMs, NextGeneration(p.generation), nowMs);
  }

  /** The first `n` exact transition times of a cue started at `startMs`. */
  function ExactTicks(cue: Cue, startMs: u64, n: nat): (ts: seq<int>)
    requires n <= |PatternFor(cue).steps|
    ensures |ts| == n
  {
    if n == 0 then [] else ExactTicks(cue, startMs, n - 1) + [startMs + TotalMs(PatternFor(cue).steps[..n])]
  }

  /** Ticked exactly at its transitions, the player announces each one, is on schedule after every
      tick, and finishes after exactly the sum of the durations. */
  lemma {:induction false} ExactPlayback(p: Player, cue: Cue, startMs: u64, n: nat, ts: seq<u64>)
    requires n <= |PatternFor(cue).steps| && ts == ExactTicks(cue, startMs, n)
    requires startMs + TotalMs(PatternFor(cue).steps) + 150 < 0x1_0000_0000_0000_0000
    ensures var steps := PatternFor(cue).steps;
            var r := Ticked(Play(p, cue, startMs), ts);
            if n == |steps| then r.active.None? && ts[n - 1] == startMs + TotalMs(steps)
            else && r.active == Some(ActiveCue(cue, n, startMs + TotalMs(steps[..n])))
                 && NextTransitionMs(r) == Some(startMs + TotalMs(steps[..n + 1]))
  {
    hide PatternFor, TotalMs, Tick;
    var steps := PatternFor(cue).steps;
    var began := Play(p, cue, startMs);
    Totals(steps);
    if n > 0 {
      assert ts[..n - 1] == ExactTicks(cue, startMs, n - 1);
      ExactPlayback(p, cue, startMs, n - 1, ts[..n - 1]);
      TickOnTime(Ticked(began, ts[..n - 1]));
      assert steps[..|steps|] == steps;
    }
    if n < |steps| {
      TotalExtends(steps, n);
      TotalBounded(steps, n + 1);
    }
  }

  /** A tick exactly at the announced transition enters the next step at that time, or finishes. */
  lemma TickOnTime(p: Player)
    requires OnPattern(p) && p.active.Some?
    ensures var a := p.active.value;
            var now := ScheduledEndMs(a);
            Tick(p, now).active ==
              if a.stepIndex + 1 == |PatternFor(a.cue).steps| then None
              else Some(ActiveCue(a.cue, a.stepIndex + 1, now))
  {
    hide PatternFor;
  }

  lemma Totals(steps: seq<Step>)
    ensures TotalMs(steps[..0]) == 0
  {
  }

  lemma {:induction false} TotalBounded(steps: seq<Step>, n: nat)
    requires n <= |steps|
    ensures TotalMs(steps[..n]) <= TotalMs(steps)
    decreases |steps| - n
  {
    if n == |steps| {
      assert steps[..n] == steps;
    } else {
      TotalExtends(steps, n);
      TotalBounded(steps, n + 1);
    }
  }
}
