/** The priority arbiter over the buzzer player, as a transition function over its operations, and
    what every run of it keeps. */
module BuzzerArbitration {
  import opened Arithmetic
  import opened Buzzer

  datatype SafetyState = Normal | ProtectionActive | AttentionPending

  datatype PendingCue = PendingCue(source: Source, cue: Cue)

  datatype Arbiter = Arbiter(
    player: Player,
    safety: SafetyState,
    pendingFeedback: Option<PendingCue>,
    pendingAttention: Option<Source>)

  const NEW_ARBITER := Arbiter(NEW_PLAYER, Normal, None, None)

  function ActiveCueOf(p: Player): Option<Cue>
  {
    if p.active.Some? then Some(p.active.value.cue) else None
  }

  /** What an operation leaves behind and what it reports. */
  datatype Result = Result(arbiter: Arbiter, decision: Option<Decision>)

  function StartOrPreempt(p: Player): Disposition { if p.active.Some? then Preempted else Started }

  function ActivateProtection(a: Arbiter, source: Source, nowMs: u64): Result
  {
    Result(Arbiter(Play(a.player, ProtectionAlarm, nowMs), ProtectionActive, None, None),
           Some(Decision(source, ProtectionAlarm, StartOrPreempt(a.player))))
  }

  function RequestProtectionReplay(a: Arbiter, source: Source, nowMs: u64): Result
  {
    if !a.safety.ProtectionActive? then Result(a, Some(Decision(source, ProtectionAlarm, Dropped)))
    else if ActiveCueOf(a.player) == Some(ProtectionAlarm) then
      Result(a, Some(Decision(source, ProtectionAlarm, Coalesced)))
    else
      Result(a.(player := Play(a.player, ProtectionAlarm, nowMs)),
             Some(Decision(source, ProtectionAlarm, StartOrPreempt(a.player))))
  }

  function EnterAttentionPending(a: Arbiter): Result
  {
    var entered := Arbiter(a.player, AttentionPending, None, None);
    if ActiveCueOf(a.player) == Some(ProtectionAlarm) then
      Result(entered.(player := Stop(a.player)), Some(Decision(ThermalProtection, ProtectionAlarm, Stopped)))
    else Result(entered, None)
  }

  function ClearAttention(a: Arbiter): Result
  {
    var cleared := Arbiter(a.player, Normal, None, None);
    match ActiveCueOf(a.player)
    case Some(ProtectionAlarm) =>
      Result(cleared.(player := Stop(a.player)), Some(Decision(ThermalProtection, ProtectionAlarm, Stopped)))
    case Some(AttentionReminder) =>
      Result(cleared.(player := Stop(a.player)), Some(Decision(ThermalAttention, AttentionReminder, Stopped)))
    case _ => Result(cleared, None)
  }

  function RequestAttentionReminder(a: Arbiter, source: Source, nowMs: u64): Result
  {
    if !a.safety.AttentionPending? then Result(a, Some(Decision(source, AttentionReminder, Dropped)))
    else
      match ActiveCueOf(a.player)
      case None =>
        Result(a.(player := Play(a.player, AttentionReminder, nowMs)),
               Some(Decision(source, AttentionReminder, Started)))
      case Some(AttentionReminder) => Result(a, Some(Decision(source, AttentionReminder, Coalesced)))
      case Some(ProtectionAlarm) => Result(a, Some(Decision(source, AttentionReminder, Coalesced)))
      case Some(_) =>
        if a.pendingAttention.Some? then Result(a, Some(Decision(source, AttentionReminder, Coalesced)))
        else Result(a.(pendingAttention := Some(source)), Some(Decision(source, AttentionReminder, Queued)))
  }

  function RequestFeedback(a: Arbiter, source: Source, cue: Cue, nowMs: u64): Result
  {
    if !IsFeedback(cue) || !a.safety.Normal? then Result(a, Some(Decision(source, cue, Dropped)))
    else if a.player.active.None? then
      Result(a.(player := Play(a.player, cue, nowMs)), Some(Decision(source, cue, Started)))
    else if a.pendingFeedback.None? then
      Result(a.(pendingFeedback := Some(PendingCue(source, cue))), Some(Decision(source, cue, Queued)))
    else if cue.UiInput? then Result(a, Some(Decision(source, cue, Coalesced)))
    else Result(a.(pendingFeedback := Some(PendingCue(source, cue))), Some(Decision(source, cue, Replaced)))
  }

  /** A tick of the player; when it leaves the player idle, the pending cue of the safety state starts. */
  function TickArbiter(a: Arbiter, nowMs: u64): Result
    requires OnPattern(a.player)
  {
    var p := Tick(a.player, nowMs);
    var t := a.(player := p);
    if p.active.Some? then Result(t, None)
    else if a.safety.AttentionPending? && a.pendingAttention.Some? then
      Result(t.(player := Play(p, AttentionReminder, nowMs), pendingAttention := None),
             Some(Decision(a.pendingAttention.value, AttentionReminder, Started)))
    else if a.safety.Normal? && a.pendingFeedback.Some? then
      var next := a.pendingFeedback.value;
      Result(t.(player := Play(p, next.cue, nowMs), pendingFeedback := None),
             Some(Decision(next.source, next.cue, Started)))
    else Result(t, None)
  }

  datatype Op =
    | Activate(source: Source, nowMs: u64)
    | Replay(source: Source, nowMs: u64)
    | EnterAttention
    | Clear
    | Remind(source: Source, nowMs: u64)
    | Feedback(source: Source, cue: Cue, nowMs: u64)
    | Elapse(nowMs: u64)

  function Apply(a: Arbiter, op: Op): Result
    requires OnPattern(a.player)
  {
    match op
    case Activate(source, nowMs) => ActivateProtection(a, source, nowMs)
    case Replay(source, nowMs) => RequestProtectionReplay(a, source, nowMs)
    case EnterAttention => EnterAttentionPending(a)
    case Clear => ClearAttention(a)
    case Remind(source, nowMs) => RequestAttentionReminder(a, source, nowMs)
    case Feedback(source, cue, nowMs) => RequestFeedback(a, source, cue, nowMs)
    case Elapse(nowMs) => TickArbiter(a, nowMs)
  }

  // ---------------------------------------------------------------------------------------------
  // What every operation keeps.

  predicate Inv(a: Arbiter)
  {
    && OnPattern(a.player)
    && (a.safety.ProtectionActive? && a.player.active.Some? ==> a.player.active.value.cue.ProtectionAlarm?)
    && (a.player.active.Some? && a.player.active.value.cue.ProtectionAlarm? ==> a.safety.ProtectionActive?)
    && (a.player.active.Some? && a.player.active.value.cue.AttentionReminder? ==> a.safety.AttentionPending?)
    && (a.pendingFeedback.Some? ==>
          a.safety.Normal? && a.player.active.Some? && IsFeedback(a.pendingFeedback.value.cue))
    && (a.pendingAttention.Some? ==>
          a.safety.AttentionPending? && a.player.active.Some? && IsFeedback(a.player.active.value.cue))
  }

  lemma TickKeepsCue(p: Player, nowMs: u64)
    requires OnPattern(p)
    ensures Tick(p, nowMs).active.Some? ==> p.active.Some? && Tick(p, nowMs).active.value.cue == p.active.value.cue
  {
    hide PatternFor;
  }

  lemma ApplyKeeps(a: Arbiter, op: Op)
    requires Inv(a)
    ensures Inv(Apply(a, op).arbiter)
  {
    hide Tick, PatternFor;
    if op.Elapse? {
      TickKeepsCue(a.player, op.nowMs);
    }
  }

  /** The arbiter after the operations of `ops`, in order. */
  function Run(ops: seq<Op>): (a: Arbiter)
    ensures Inv(a)
  {
    if ops == [] then NEW_ARBITER
    else
      var before := Run(ops[..|ops| - 1]);
      ApplyKeeps(before, ops[|ops| - 1]);
      Apply(before, ops[|ops| - 1]).arbiter
  }

  /** In every run: under protection only the alarm sounds, each safety cue sounds only in its own
      state, and a pending cue always waits behind an active one in the state that may start it. */
  lemma SafetyCuesStayInState(ops: seq<Op>)
    ensures var a := Run(ops);
            var active := ActiveCueOf(a.player);
            && (a.safety.ProtectionActive? ==> active == None || active == Some(ProtectionAlarm))
            && (active == Some(ProtectionAlarm) ==> a.safety.ProtectionActive?)
            && (active == Some(AttentionReminder) ==> a.safety.AttentionPending?)
            && (a.pendingFeedback.Some? ==> active.Some? && IsFeedback(active.value) && a.safety.Normal?)
            && (a.pendingAttention.Some? ==> active.Some? && IsFeedback(active.value) && a.safety.AttentionPending?)
  {
    hide Run;
    assert Inv(Run(ops));
  }

  // ---------------------------------------------------------------------------------------------
  // Which feedback waits.

  /** The operation clears the slot or lets the active cue end: a change of the safety state, or a tick
      that leaves the player idle. */
  predicate Empties(a: Arbiter, op: Op)
    requires OnPattern(a.player)
  {
    op.Activate? || op.EnterAttention? || op.Clear? || (op.Elapse? && Tick(a.player, op.nowMs).active.None?)
  }

  /** The operation is a feedback request that has to wait: the state is normal and a cue sounds. */
  predicate Waits(a: Arbiter, op: Op)
  {
    op.Feedback? && IsFeedback(op.cue) && a.safety.Normal? && a.player.active.Some?
  }

  /** The feedback requests that had to wait since the slot was last emptied, oldest first. */
  function Waiting(ops: seq<Op>): seq<PendingCue>
  {
    if ops == [] then []
    else
      var n := |ops| - 1;
      var a := Run(ops[..n]);
      if Empties(a, ops[n]) then []
      else if Waits(a, ops[n]) then Waiting(ops[..n]) + [PendingCue(ops[n].source, ops[n].cue)]
      else Waiting(ops[..n])
  }

  function LastSpecialised(w: seq<PendingCue>): Option<PendingCue>
  {
    if w == [] then None
    else if !w[|w| - 1].cue.UiInput? then Some(w[|w| - 1])
    else LastSpecialised(w[..|w| - 1])
  }

  /** The last specialised request, else the first plain one. */
  function Chosen(w: seq<PendingCue>): Option<PendingCue>
  {
    if LastSpecialised(w).Some? then LastSpecialised(w)
    else if w == [] then None
    else Some(w[0])
  }

  lemma ChosenExtends(w: seq<PendingCue>, c: PendingCue)
    ensures Chosen(w + [c]) == if Chosen(w).None? || !c.cue.UiInput? then Some(c) else Chosen(w)
  {
    assert (w + [c])[..|w|] == w;
    assert LastSpecialised(w + [c]) == if !c.cue.UiInput? then Some(c) else LastSpecialised(w);
    if w == [] {
      assert (w + [c])[0] == c;
    }
  }

  /** How one operation changes the feedback slot. */
  lemma FeedbackSlotStep(a: Arbiter, op: Op)
    requires Inv(a)
    ensures Apply(a, op).arbiter.pendingFeedback ==
              if Empties(a, op) then None
              else if Waits(a, op) && (a.pendingFeedback.None? || !op.cue.UiInput?)
              then Some(PendingCue(op.source, op.cue))
              else a.pendingFeedback
  {
    hide Tick, Play;
  }

  /** The waiting feedback is the last specialised request since the slot was emptied, else the first
      plain input. */
  lemma {:induction false} PendingFeedbackIsChosen(ops: seq<Op>)
    ensures Run(ops).pendingFeedback == Chosen(Waiting(ops))
  {
    hide Apply, Empties, Chosen, Inv;
    NothingChosen();
    if ops != [] {
      var n := |ops| - 1;
      PendingFeedbackIsChosen(ops[..n]);
      FeedbackSlotStep(Run(ops[..n]), ops[n]);
      if ops[n].Feedback? {
        ChosenExtends(Waiting(ops[..n]), PendingCue(ops[n].source, ops[n].cue));
      }
    }
  }

  lemma NothingChosen()
    ensures Chosen([]) == None
  {
  }

  /** A reported decision tells what happened: a start or preemption makes the cue active, a queued or
      replacing one waits, and a coalesced or dropped one changes nothing. */
  lemma DecisionsAreTruthful(a: Arbiter, op: Op)
    requires Inv(a) && Apply(a, op).decision.Some?
    ensures var r := Apply(a, op);
            var d := r.decision.value;
            match d.disposition
            case Started => a.player.active.None? || op.Elapse?
            case Preempted => a.player.active.Some?
            case Queued =>
              && a.player.active.Some? && r.arbiter.player == a.player
              && (if d.cue.AttentionReminder?
                  then a.pendingAttention.None? && r.arbiter.pendingAttention == Some(d.source)
                  else a.pendingFeedback.None? && r.arbiter.pendingFeedback == Some(PendingCue(d.source, d.cue)))
            case Replaced =>
              && a.pendingFeedback.Some? && r.arbiter.player == a.player
              && r.arbiter.pendingFeedback == Some(PendingCue(d.source, d.cue))
            case Coalesced => r.arbiter == a
            case Dropped => r.arbiter == a
            case Stopped => ActiveCueOf(a.player) == Some(d.cue) && r.arbiter.player.active.None?
    ensures var r := Apply(a, op);
            var d := r.decision.value;
            d.disposition.Started? || d.disposition.Preempted? ==> ActiveCueOf(r.arbiter.player) == Some(d.cue)
  {
    hide Tick, PatternFor;
  }

  // ---------------------------------------------------------------------------------------------
  // What each operation decides.

  /** The cue sounds from its first step, at `nowMs`, under a new generation. */
  predicate Sounds(before: Player, after: Player, cue: Cue, nowMs: u64)
  {
    && after.active == Some(ActiveCue(cue, 0, nowMs))
    && after.generation == (before.generation + 1) % 0x1_0000_0000
    && var first := PatternFor(cue).steps[0];
       after.output == Output(first.frequencyHz, first.dutyPercent, after.generation)
  }

  /** A feedback request is dropped exactly when it is no feedback cue or the state is not normal. In the
      normal state it starts on an idle player, and otherwise waits: first in the slot, in place of what
      waited there unless it is a plain input. */
  lemma FeedbackDecision(a: Arbiter, source: Source, cue: Cue, nowMs: u64)
    requires Inv(a)
    ensures var r := Apply(a, Feedback(source, cue, nowMs));
            && r.decision.Some? && r.decision.value.source == source && r.decision.value.cue == cue
            && var d := r.decision.value.disposition;
               var heard := cue != ProtectionAlarm && cue != AttentionReminder && a.safety.Normal?;
               && (d.Dropped? <==> !heard)
               && (d.Started? <==> heard && a.player.active.None?)
               && (d.Queued? <==> heard && a.player.active.Some? && a.pendingFeedback.None?)
               && (d.Coalesced? <==>
                     heard && a.player.active.Some? && a.pendingFeedback.Some? && cue.UiInput?)
               && (d.Replaced? <==>
                     heard && a.player.active.Some? && a.pendingFeedback.Some? && !cue.UiInput?)
               && (d.Started? ==>
                     Sounds(a.player, r.arbiter.player, cue, nowMs) && r.arbiter == a.(player := r.arbiter.player))
               && (d.Queued? || d.Replaced? ==> r.arbiter == a.(pendingFeedback := Some(PendingCue(source, cue))))
               && (d.Dropped? || d.Coalesced? ==> r.arbiter == a)
  {
    hide PatternFor;
  }

  /** A reminder is dropped exactly when no attention is pending; it starts on an idle player, joins a
      reminder that sounds or waits, and otherwise waits behind the feedback cue. */
  lemma ReminderDecision(a: Arbiter, source: Source, nowMs: u64)
    requires Inv(a)
    ensures var r := Apply(a, Remind(source, nowMs));
            && r.decision.Some? && r.decision.value.source == source && r.decision.value.cue == AttentionReminder
            && var d := r.decision.value.disposition;
               var sounding := a.player.active.Some? && a.player.active.value.cue.AttentionReminder?;
               && (d.Dropped? <==> !a.safety.AttentionPending?)
               && (d.Started? <==> a.safety.AttentionPending? && a.player.active.None?)
               && (d.Coalesced? <==> a.safety.AttentionPending? && (sounding || a.pendingAttention.Some?))
               && (d.Queued? <==>
                     && a.safety.AttentionPending? && a.player.active.Some? && !sounding
                     && a.pendingAttention.None?)
               && (d.Started? ==>
                     && Sounds(a.player, r.arbiter.player, AttentionReminder, nowMs)
                     && r.arbiter == a.(player := r.arbiter.player))
               && (d.Queued? ==> r.arbiter == a.(pendingAttention := Some(source)))
               && (d.Dropped? || d.Coalesced? ==> r.arbiter == a)
  {
    hide PatternFor;
  }

  /** A replay is dropped exactly when protection is not active, joins an alarm that sounds, and else
      starts it; activating protection starts the alarm over whatever sounds and forgets what waits. */
  lemma ProtectionDecision(a: Arbiter, source: Source, nowMs: u64)
    requires Inv(a)
    ensures var r := Apply(a, Replay(source, nowMs));
            && r.decision.Some? && r.decision.value.source == source && r.decision.value.cue == ProtectionAlarm
            && var d := r.decision.value.disposition;
               && (d.Dropped? <==> !a.safety.ProtectionActive?)
               && (d.Coalesced? <==> a.safety.ProtectionActive? && a.player.active.Some?)
               && (d.Started? <==> a.safety.ProtectionActive? && a.player.active.None?)
               && (d.Started? ==>
                     && Sounds(a.player, r.arbiter.player, ProtectionAlarm, nowMs)
                     && r.arbiter == a.(player := r.arbiter.player))
               && (!d.Started? ==> r.arbiter == a)
    ensures var r := Apply(a, Activate(source, nowMs));
            && r.arbiter == Arbiter(r.arbiter.player, ProtectionActive, None, None)
            && Sounds(a.player, r.arbiter.player, ProtectionAlarm, nowMs)
            && r.decision == Some(Decision(source, ProtectionAlarm,
                                           if a.player.active.None? then Started else Preempted))
  {
    hide PatternFor;
  }

  /** Entering and clearing attention set the state and forget what waits. They stop and report exactly
      the safety cue that may no longer sound, and leave a feedback cue alone. */
  lemma AttentionDecision(a: Arbiter)
    requires Inv(a)
    ensures var r := Apply(a, EnterAttention);
            && r.arbiter == Arbiter(r.arbiter.player, AttentionPending, None, None)
            && if ActiveCueOf(a.player) == Some(ProtectionAlarm)
               then && r.arbiter.player.active.None? && r.arbiter.player.output.frequencyHz.None?
                    && r.decision == Some(Decision(ThermalProtection, ProtectionAlarm, Stopped))
               else r.arbiter.player == a.player && r.decision.None?
    ensures var r := Apply(a, Clear);
            && r.arbiter == Arbiter(r.arbiter.player, Normal, None, None)
            && match ActiveCueOf(a.player)
               case Some(ProtectionAlarm) =>
                 && r.arbiter.player.active.None? && r.arbiter.player.output.frequencyHz.None?
                 && r.decision == Some(Decision(ThermalProtection, ProtectionAlarm, Stopped))
               case Some(AttentionReminder) =>
                 && r.arbiter.player.active.None? && r.arbiter.player.output.frequencyHz.None?
                 && r.decision == Some(Decision(ThermalAttention, AttentionReminder, Stopped))
               case _ => r.arbiter.player == a.player && r.decision.None?
  {
    hide PatternFor;
  }

  /** A tick plays on. Whenever it leaves the player idle with a cue waiting in the state that may start
      it, that cue sounds from this tick, is reported with its own source, and waits no longer. */
  lemma TickDecision(a: Arbiter, nowMs: u64)
    requires Inv(a)
    ensures var r := Apply(a, Elapse(nowMs));
            var p := Tick(a.player, nowMs);
            && r.arbiter.safety == a.safety
            && if p.active.None? && a.pendingAttention.Some? then
                 && Sounds(p, r.arbiter.player, AttentionReminder, nowMs) && r.arbiter.pendingAttention.None?
                 && r.decision == Some(Decision(a.pendingAttention.value, AttentionReminder, Started))
               else if p.active.None? && a.pendingFeedback.Some? then
                 && Sounds(p, r.arbiter.player, a.pendingFeedback.value.cue, nowMs) && r.arbiter.pendingFeedback.None?
                 && r.decision == Some(Decision(a.pendingFeedback.value.source, a.pendingFeedback.value.cue, Started))
               else r.arbiter == a.(player := p) && r.decision.None?
  {
    hide PatternFor, Tick;
  }
}
