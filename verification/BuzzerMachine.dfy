/** The buzzer as the firmware keeps it: a controller and an arbiter that update their fields in
    place, each method proved equal to its counterpart in the value models. */
module BuzzerMachine {
  import opened Arithmetic
  import opened Buzzer
  import A = BuzzerArbitration

  class BuzzerController {
    var active: Option<ActiveCue>
    var output: Output
    var generation: u32

    ghost function View(): Player
      reads this
    {
      Player(active, output, generation)
    }

    ghost predicate Valid()
      reads this
    {
      OnPattern(View())
    }

    constructor ()
      ensures Valid() && View() == NEW_PLAYER
    {
      active, output, generation := None, Silent(0), 0;
    }

    method Play(cue: Cue, nowMs: u64)
      modifies this
      ensures Valid() && View() == Buzzer.Play(old(View()), cue, nowMs)
    {
      hide PatternFor;
      generation := NextGeneration(generation);
      active := Some(ActiveCue(cue, 0, nowMs));
      output := OutputForStep(PatternFor(cue).steps[0], generation);
    }

    method Stop()
      modifies this
      ensures Valid() && View() == Buzzer.Stop(old(View()))
    {
      if active.Some? || output.frequencyHz.Some? || output.dutyPercent != 0 {
        generation := NextGeneration(generation);
      }
      active := None;
      output := Silent(generation);
    }

    method Tick(nowMs: u64)
      requires Valid()
      modifies this
      ensures Valid() && View() == Buzzer.Tick(old(View()), nowMs)
    {
      hide PatternFor;
      if active.None? {
        output := Silent(generation);
        return;
      }
      var a := active.value;
      var pattern := PatternFor(a.cue);
      var step := pattern.steps[a.stepIndex];
      var end := SatAdd64(a.stepStartedMs, step.durationMs);
      if nowMs < end {
        output := OutputForStep(step, generation);
        return;
      }
      a := a.(stepStartedMs := Max(end, nowMs));
      a := a.(stepIndex := a.stepIndex + 1);
      // Every pattern is one-shot, so running past its end always finishes the cue.
      if a.stepIndex >= |pattern.steps| {
        active := None;
        generation := NextGeneration(generation);
        output := Silent(generation);
        return;
      }
      output := OutputForStep(pattern.steps[a.stepIndex], generation);
      active := Some(a);
    }

    method NextTransitionMs() returns (t: Option<u64>)
      requires Valid()
      ensures t == Buzzer.NextTransitionMs(View())
    {
      hide PatternFor;
      if active.None? {
        return None;
      }
      var step := PatternFor(active.value.cue).steps[active.value.stepIndex];
      t := Some(SatAdd64(active.value.stepStartedMs, step.durationMs));
    }
  }

  class BuzzerArbiter {
    const controller: BuzzerController
    var safety: A.SafetyState
    var pendingFeedback: Option<A.PendingCue>
    var pendingAttention: Option<Source>

    ghost function View(): A.Arbiter
      reads this, controller
    {
      A.Arbiter(controller.View(), safety, pendingFeedback, pendingAttention)
    }

    ghost predicate Valid()
      reads this, controller
    {
      A.Inv(View())
    }

    constructor ()
      ensures Valid() && View() == A.NEW_ARBITER && fresh(controller)
    {
      controller := new BuzzerController();
      safety, pendingFeedback, pendingAttention := A.Normal, None, None;
    }

    method ActivateProtection(source: Source, nowMs: u64) returns (d: Decision)
      requires Valid()
      modifies this, controller
      ensures Valid() && A.Result(View(), Some(d)) == A.ActivateProtection(old(View()), source, nowMs)
    {
      hide PatternFor, Buzzer.Play;
      A.ApplyKeeps(View(), A.Activate(source, nowMs));
      var disposition := if controller.active.Some? then Preempted else Started;
      safety := A.ProtectionActive;
      pendingFeedback := None;
      pendingAttention := None;
      controller.Play(ProtectionAlarm, nowMs);
      d := Decision(source, ProtectionAlarm, disposition);
    }

    method RequestProtectionReplay(source: Source, nowMs: u64) returns (d: Decision)
      requires Valid()
      modifies this, controller
      ensures Valid() && A.Result(View(), Some(d)) == A.RequestProtectionReplay(old(View()), source, nowMs)
    {
      hide PatternFor, Buzzer.Play;
      A.ApplyKeeps(View(), A.Replay(source, nowMs));
      if safety != A.ProtectionActive {
        return Decision(source, ProtectionAlarm, Dropped);
      }
      if controller.active.Some? && controller.active.value.cue == ProtectionAlarm {
        return Decision(source, ProtectionAlarm, Coalesced);
      }
      // Under protection nothing else can be active, so the alarm starts rather than preempts.
      controller.Play(ProtectionAlarm, nowMs);
      d := Decision(source, ProtectionAlarm, Started);
    }

    method EnterAttentionPending() returns (d: Option<Decision>)
      requires Valid()
      modifies this, controller
      ensures Valid() && A.Result(View(), d) == A.EnterAttentionPending(old(View()))
    {
      hide PatternFor, Buzzer.Stop;
      A.ApplyKeeps(View(), A.EnterAttention);
      safety := A.AttentionPending;
      pendingFeedback := None;
      pendingAttention := None;
      if controller.active.Some? && controller.active.value.cue == ProtectionAlarm {
        controller.Stop();
        return Some(Decision(ThermalProtection, ProtectionAlarm, Stopped));
      }
      return None;
    }

    method ClearAttention() returns (d: Option<Decision>)
      requires Valid()
      modifies this, controller
      ensures Valid() && A.Result(View(), d) == A.ClearAttention(old(View()))
    {
      hide PatternFor, Buzzer.Stop;
      A.ApplyKeeps(View(), A.Clear);
      safety := A.Normal;
      pendingFeedback := None;
      pendingAttention := None;
      if controller.active.None? {
        return None;
      }
      var cue := controller.active.value.cue;
      if IsFeedback(cue) {
        return None;
      }
      controller.Stop();
      return Some(Decision(if cue == ProtectionAlarm then ThermalProtection else ThermalAttention, cue, Stopped));
    }

    method RequestAttentionReminder(source: Source, nowMs: u64) returns (d: Decision)
      requires Valid()
      modifies this, controller
      ensures Valid() && A.Result(View(), Some(d)) == A.RequestAttentionReminder(old(View()), source, nowMs)
    {
      hide PatternFor, Buzzer.Play;
      A.ApplyKeeps(View(), A.Remind(source, nowMs));
      if safety != A.AttentionPending {
        return Decision(source, AttentionReminder, Dropped);
      }
      if controller.active.None? {
        controller.Play(AttentionReminder, nowMs);
        return Decision(source, AttentionReminder, Started);
      }
      if !IsFeedback(controller.active.value.cue) || pendingAttention.Some? {
        return Decision(source, AttentionReminder, Coalesced);
      }
      pendingAttention := Some(source);
      return Decision(source, AttentionReminder, Queued);
    }

    method RequestFeedback(source: Source, cue: Cue, nowMs: u64) returns (d: Decision)
      requires Valid()
      modifies this, controller
      ensures Valid() && A.Result(View(), Some(d)) == A.RequestFeedback(old(View()), source, cue, nowMs)
    {
      hide PatternFor, Buzzer.Play;
      A.ApplyKeeps(View(), A.Feedback(source, cue, nowMs));
      if !IsFeedback(cue) || safety != A.Normal {
        return Decision(source, cue, Dropped);
      }
      if controller.active.None? {
        controller.Play(cue, nowMs);
        return Decision(source, cue, Started);
      }
      var disposition := Coalesced;
      if pendingFeedback.None? {
        pendingFeedback := Some(A.PendingCue(source, cue));
        disposition := Queued;
      } else if cue != UiInput {
        pendingFeedback := Some(A.PendingCue(source, cue));
        disposition := Replaced;
      }
      d := Decision(source, cue, disposition);
    }

    method Tick(nowMs: u64) returns (output: Output, deferred: Option<Decision>)
      requires Valid()
      modifies this, controller
      ensures Valid() && A.Result(View(), deferred) == A.TickArbiter(old(View()), nowMs)
      ensures output == View().player.output
    {
      hide PatternFor, Buzzer.Play, Buzzer.Tick;
      A.ApplyKeeps(View(), A.Elapse(nowMs));
      controller.Tick(nowMs);
      deferred := None;
      if controller.active.None? {
        if safety == A.AttentionPending && pendingAttention.Some? {
          deferred := Some(Decision(pendingAttention.value, AttentionReminder, Started));
          pendingAttention := None;
          controller.Play(AttentionReminder, nowMs);
        } else if safety == A.Normal && pendingFeedback.Some? {
          var next := pendingFeedback.value;
          pendingFeedback := None;
          controller.Play(next.cue, nowMs);
          deferred := Some(Decision(next.source, next.cue, Started));
        }
      }
      output := controller.output;
    }
  }
}
