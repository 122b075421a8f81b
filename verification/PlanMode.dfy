/** The plan-mode tracker: transitions, prompt reminders, and restarts from a snapshot. */
module PlanMode {
  import opened Options
  import opened History

  datatype Mode = Inactive | Pending | Active | ExitPending

  datatype Reminder = Full | Sparse | Reentry | ExitNote

  datatype Snapshot = Snapshot(
    mode: Mode, wasPreviouslyActive: bool, reminderCount: nat, pendingExitReminder: bool, awaitingApproval: bool)

  datatype Event =
    | EnterPending
    | UserExit(turnInFlight: bool)
    | TurnCompleted
    | ExitApproved
    | AwaitApproval(awaiting: bool)
    | Compacted
    | Prompt                               // build the reminder for the next prompt
    | Restart                              // snapshot, then restore

  // What a run leaves behind: reminders sent, and the compactions that reset their count.
  datatype Mark = Activation(reminder: Reminder) | PerTurn(reminder: Reminder) | Exited | Compaction

  // ---------------------------------------------------------------------------
  // One step
  // ---------------------------------------------------------------------------

  const Fresh := Snapshot(Inactive, false, 0, false, false)

  // Transient states do not survive a restart.
  function Restored(s: Snapshot): Snapshot {
    match s.mode
    case Pending => s.(mode := Inactive)
    case ExitPending => s.(mode := Inactive, pendingExitReminder := true)
    case _ => s
  }

  function Step(s: Snapshot, e: Event): Snapshot {
    match e
    case EnterPending =>
      if s.mode == Inactive then s.(mode := Pending, pendingExitReminder := false)
      else if s.mode == ExitPending then s.(mode := Active, pendingExitReminder := false)
      else s
    case UserExit(turnInFlight) =>
      var t := s.(awaitingApproval := false);
      if s.mode == Pending then t.(mode := Inactive)
      else if s.mode == Active then
        (if turnInFlight then t.(mode := ExitPending) else t.(mode := Inactive, pendingExitReminder := true))
      else t
    case TurnCompleted => if s.mode == ExitPending then s.(mode := Inactive, pendingExitReminder := true) else s
    case ExitApproved => if s.mode == Active then s.(mode := Inactive, reminderCount := 0, awaitingApproval := false) else s
    case AwaitApproval(awaiting) => s.(awaitingApproval := awaiting)
    case Compacted => if s.mode == Active then s.(reminderCount := 0) else s
    case Prompt =>
      if s.mode == Pending then s.(mode := Active, wasPreviouslyActive := true, reminderCount := 1)
      else if s.mode == Active then s.(reminderCount := s.reminderCount + 1)
      else s.(pendingExitReminder := false)
    case Restart => Restored(s)
  }

  function ReminderFor(s: Snapshot): Option<Reminder> {
    if s.mode == Pending then Some(if s.wasPreviouslyActive then Reentry else Full)
    else if s.mode == Active then Some(if s.reminderCount % 2 == 0 then Full else Sparse)
    else if s.pendingExitReminder then Some(ExitNote)
    else None
  }

  function Marks(s: Snapshot, e: Event): seq<Mark> {
    if e == Compacted && s.mode == Active then [Compaction]
    else if e != Prompt || ReminderFor(s) == None then []
    else
      var r := ReminderFor(s).value;
      [if s.mode == Pending then Activation(r) else if s.mode == Active then PerTurn(r) else Exited]
  }

  function Run(es: seq<Event>): (Snapshot, seq<Mark>) {
    if es == [] then (Fresh, [])
    else
      var (s, log) := Run(es[..|es| - 1]);
      (Step(s, es[|es| - 1]), log + Marks(s, es[|es| - 1]))
  }

  // ---------------------------------------------------------------------------
  // What the log of a run looks like
  // ---------------------------------------------------------------------------

  ghost predicate HasActivation(log: seq<Mark>) {
    exists i :: 0 <= i < |log| && log[i].Activation?
  }

  // How many reminders were sent since the last activation or compaction.
  ghost function SinceReset(log: seq<Mark>): nat {
    if log == [] then 0
    else
      match log[|log| - 1]
      case Activation(_) => 1
      case PerTurn(_) => SinceReset(log[..|log| - 1]) + 1
      case Exited => SinceReset(log[..|log| - 1])
      case Compaction => 0
  }

  // An activation came after the last exit note.
  ghost predicate OpenActivation(log: seq<Mark>) {
    exists i :: 0 <= i < |log| && log[i].Activation? && forall j :: i < j < |log| ==> log[j] != Exited
  }

  // What holds of the mark at position i, given the marks before it.
  ghost predicate MarkFits(log: seq<Mark>, i: nat)
    requires i < |log|
  {
    var before := log[..i];
    match log[i]
    case Activation(r) => r == if HasActivation(before) then Reentry else Full
    case PerTurn(r) => HasActivation(before) && r == if SinceReset(before) % 2 == 1 then Sparse else Full
    case Exited => OpenActivation(before)
    case Compaction => HasActivation(before)
  }

  ghost predicate Linked(s: Snapshot, log: seq<Mark>) {
    && (s.wasPreviouslyActive <==> HasActivation(log))
    && (s.mode == Active || s.mode == ExitPending ==> OpenActivation(log) && s.reminderCount == SinceReset(log))
    && (s.pendingExitReminder ==> s.mode == Inactive && OpenActivation(log))
  }

  lemma MarkAdded(log: seq<Mark>, m: Mark)
    ensures var all := log + [m];
            && all[..|log|] == log
            && (HasActivation(all) <==> HasActivation(log) || m.Activation?)
            && (OpenActivation(all) <==> m.Activation? || (OpenActivation(log) && m != Exited))
  {
    var all := log + [m];
    assert forall i :: 0 <= i < |log| ==> all[i] == log[i];
    assert all[|log|] == m;
    if OpenActivation(log) && m != Exited {
      var i :| 0 <= i < |log| && log[i].Activation? && forall j :: i < j < |log| ==> log[j] != Exited;
      assert all[i].Activation? && forall j :: i < j < |all| ==> all[j] != Exited;
    }
  }

  lemma StepKeepsLinked(s: Snapshot, log: seq<Mark>, e: Event)
    requires Linked(s, log)
    ensures Linked(Step(s, e), log + Marks(s, e))
    ensures Marks(s, e) != [] ==> |Marks(s, e)| == 1 && MarkFits(log + Marks(s, e), |log|)
  {
    var marks := Marks(s, e);
    if marks == [] {
      assert log + marks == log;
    } else {
      MarkAdded(log, marks[0]);
    }
  }

  // In every run: a pending exit note implies the inactive mode, an active or exiting one
  // implies an earlier activation, and every reminder is the one its history calls for.
  lemma {:induction false} RunsAreLinked(es: seq<Event>)
    ensures var (s, log) := Run(es);
            Linked(s, log) && forall i :: 0 <= i < |log| ==> MarkFits(log, i)
  {
    if es != [] {
      var (s, log) := Run(es[..|es| - 1]);
      RunsAreLinked(es[..|es| - 1]);
      StepKeepsLinked(s, log, es[|es| - 1]);
      var (t, all) := Run(es);
      forall i | 0 <= i < |all| ensures MarkFits(all, i) {
        if i < |log| {
          assert all[..i] == log[..i];
          assert MarkFits(log, i);
        }
      }
    }
  }

  lemma {:induction false} PendingExitNoteMeansInactive(es: seq<Event>)
    ensures var (s, log) := Run(es);
            && (s.pendingExitReminder ==> s.mode == Inactive)
            && (s.mode == Active || s.mode == ExitPending ==> s.wasPreviouslyActive)
  {
    RunsAreLinked(es);
  }

  // Two exit notes are always separated by an activation.
  lemma ExitNotesAreSeparated(es: seq<Event>, i: nat, j: nat)
    requires var (s, log) := Run(es); i < j < |log| && log[i] == log[j] == Exited
    ensures var (s, log) := Run(es); exists k :: i < k < j && log[k].Activation?
  {
    var (s, log) := Run(es);
    RunsAreLinked(es);
    assert MarkFits(log, j);
    var k :| 0 <= k < j && log[..j][k].Activation? && forall m :: k < m < j ==> log[..j][m] != Exited;
    assert log[..j][i] == Exited;
  }

  ghost function CountExits(log: seq<Mark>): nat {
    if log == [] then 0 else CountExits(log[..|log| - 1]) + (if log[|log| - 1] == Exited then 1 else 0)
  }

  ghost function CountActivations(log: seq<Mark>): nat {
    if log == [] then 0 else CountActivations(log[..|log| - 1]) + (if log[|log| - 1].Activation? then 1 else 0)
  }

  lemma {:induction false} ExitsBelowActivations(log: seq<Mark>)
    requires forall i :: 0 <= i < |log| ==> MarkFits(log, i)
    ensures CountExits(log) + (if OpenActivation(log) then 1 else 0) <= CountActivations(log)
  {
    if log != [] {
      var n := |log| - 1;
      forall i | 0 <= i < n ensures MarkFits(log[..n], i) {
        assert MarkFits(log, i) && log[..n][..i] == log[..i];
      }
      ExitsBelowActivations(log[..n]);
      assert log == log[..n] + [log[n]];
      MarkAdded(log[..n], log[n]);
      assert MarkFits(log, n);
    }
  }

  // Exit notes never outnumber activations.
  lemma ExitNotesNeverOutnumberActivations(es: seq<Event>)
    ensures CountExits(Run(es).1) <= CountActivations(Run(es).1)
  {
    RunsAreLinked(es);
    ExitsBelowActivations(Run(es).1);
  }

  // An approved exit is silent: the next prompt carries no reminder at all.
  lemma ApprovedExitIsSilent(es: seq<Event>)
    requires Run(es).0.mode == Active
    ensures ReminderFor(Run(es + [ExitApproved]).0) == None
  {
    assert (es + [ExitApproved])[..|es|] == es;
    RunsAreLinked(es);
  }

  // ---------------------------------------------------------------------------
  // The state, told from the events
  // ---------------------------------------------------------------------------

  // The state before the i-th event; past the end, the last state.
  function Before(es: seq<Event>, i: nat): Snapshot {
    if i <= |es| then Run(es[..i]).0 else Run(es).0
  }

  function EventAt(es: seq<Event>, i: nat): Event {
    if i < |es| then es[i] else Restart
  }

  lemma NextState(es: seq<Event>, i: nat)
    requires i < |es|
    ensures Before(es, i + 1) == Step(Before(es, i), es[i])
  {
    assert es[..i + 1][..i] == es[..i];
  }

  // What leads into each mode.
  ghost predicate Enters(s: Snapshot, e: Event, m: Mode) {
    match m
    case Pending => e == EnterPending && s.mode == Inactive
    case Active => (e == EnterPending && s.mode == ExitPending) || (e == Prompt && s.mode == Pending)
    case ExitPending => e == UserExit(true) && s.mode == Active
    case Inactive =>
      || (e.UserExit? && s.mode == Pending) || (e == UserExit(false) && s.mode == Active)
      || (e == TurnCompleted && s.mode == ExitPending) || (e == ExitApproved && s.mode == Active)
      || (e == Restart && (s.mode == Pending || s.mode == ExitPending))
  }

  ghost predicate EntersAt(es: seq<Event>, i: nat, m: Mode) {
    Enters(Before(es, i), EventAt(es, i), m)
  }

  ghost predicate LeavesAt(es: seq<Event>, i: nat, m: Mode) {
    exists other: Mode :: other != m && EntersAt(es, i, other)
  }

  // The tracker is in a mode exactly if the last event that led anywhere led there; in the
  // inactive one also if none did.
  lemma {:induction false} ModeIff(es: seq<Event>, m: Mode)
    ensures Run(es).0.mode == m <==>
            Latched(|es|, m == Inactive, (i: nat) => EntersAt(es, i, m), (i: nat) => LeavesAt(es, i, m))
  {
    var flag, enters, leaves := (i: nat) => Before(es, i).mode == m, (i: nat) => EntersAt(es, i, m), (i: nat) => LeavesAt(es, i, m);
    forall i: nat | i < |es|
      ensures MovesAt(i, flag, enters, leaves)
    {
      NextState(es, i);
      ModeStep(es, i, m);
    }
    FlagIsLatched(|es|, flag, enters, leaves);
    assert es[..|es|] == es && Before(es, 0) == Fresh;
  }

  lemma {:induction false} ModeStep(es: seq<Event>, i: nat, m: Mode)
    requires i < |es| && Before(es, i + 1) == Step(Before(es, i), es[i])
    ensures Before(es, i + 1).mode == m <==> EntersAt(es, i, m) || (Before(es, i).mode == m && !LeavesAt(es, i, m))
  {
    var s, e := Before(es, i), es[i];
    if Step(s, e).mode != s.mode {
      assert EntersAt(es, i, Step(s, e).mode);
    }
    forall other: Mode
      ensures EntersAt(es, i, other) ==> Step(s, e).mode == other && s.mode != other
    {
    }
  }

  // An exit of the user's outside a turn, the end of the turn of a deferred one, and a restart
  // before that, make an exit note due.
  ghost predicate NoteDueAt(es: seq<Event>, i: nat) {
    var s, e := Before(es, i), EventAt(es, i);
    (e == UserExit(false) && s.mode == Active) || ((e == TurnCompleted || e == Restart) && s.mode == ExitPending)
  }

  // Sending it, and entering again, withdraw it.
  ghost predicate NoteWithdrawnAt(es: seq<Event>, i: nat) {
    var s, e := Before(es, i), EventAt(es, i);
    (e == EnterPending || e == Prompt) && (s.mode == Inactive || s.mode == ExitPending)
  }

  lemma {:induction false} NoteIsDueIff(es: seq<Event>)
    ensures Run(es).0.pendingExitReminder <==>
            Latched(|es|, false, (i: nat) => NoteDueAt(es, i), (i: nat) => NoteWithdrawnAt(es, i))
  {
    var flag, due, withdrawn := (i: nat) => Before(es, i).pendingExitReminder, (i: nat) => NoteDueAt(es, i),
      (i: nat) => NoteWithdrawnAt(es, i);
    forall i: nat | i < |es|
      ensures MovesAt(i, flag, due, withdrawn)
    {
      NextState(es, i);
      RunsAreLinked(es[..i]);
    }
    FlagIsLatched(|es|, flag, due, withdrawn);
    assert es[..|es|] == es && Before(es, 0) == Fresh;
  }

  // Approval is awaited from the event that says so to one that says not, or to an exit.
  lemma {:induction false} AwaitingIff(es: seq<Event>)
    ensures Run(es).0.awaitingApproval <==>
            Latched(|es|, false, (i: nat) => EventAt(es, i) == AwaitApproval(true), (i: nat) => EndsAwaitingAt(es, i))
  {
    var flag, sets, clears := (i: nat) => Before(es, i).awaitingApproval,
      (i: nat) => EventAt(es, i) == AwaitApproval(true), (i: nat) => EndsAwaitingAt(es, i);
    forall i: nat | i < |es|
      ensures MovesAt(i, flag, sets, clears)
    {
      NextState(es, i);
    }
    FlagIsLatched(|es|, flag, sets, clears);
    assert es[..|es|] == es && Before(es, 0) == Fresh;
  }

  ghost predicate EndsAwaitingAt(es: seq<Event>, i: nat) {
    var e := EventAt(es, i);
    e == AwaitApproval(false) || e.UserExit? || (e == ExitApproved && Before(es, i).mode == Active)
  }

  ghost predicate RemindsAt(es: seq<Event>, i: nat) {
    EventAt(es, i) == Prompt && (Before(es, i).mode == Pending || Before(es, i).mode == Active)
  }

  ghost predicate ClearsCountAt(es: seq<Event>, i: nat) {
    (EventAt(es, i) == ExitApproved || EventAt(es, i) == Compacted) && Before(es, i).mode == Active
  }

  ghost predicate StartsCountAt(es: seq<Event>, i: nat) {
    EventAt(es, i) == Prompt && Before(es, i).mode == Pending
  }

  // The prompts from the k-th event on that carried a reminder of the mode.
  ghost function RemindersFrom(es: seq<Event>, k: nat): nat {
    if |es| <= k then 0
    else
      var n := |es| - 1;
      RemindersFrom(es[..n], k) + if RemindsAt(es, n) then 1 else 0
  }

  lemma {:induction false} CountStep(es: seq<Event>)
    requires es != []
    ensures var n := |es| - 1;
            Run(es).0.reminderCount ==
            if ClearsCountAt(es, n) then 0
            else (if StartsCountAt(es, n) then 0 else Run(es[..n]).0.reminderCount) + if RemindsAt(es, n) then 1 else 0
  {
    NextState(es, |es| - 1);
    assert es[..|es|] == es;
  }

  lemma SameStretch(es: seq<Event>, n: nat, j: nat)
    requires j < n <= |es|
    ensures ClearsCountAt(es[..n], j) <==> ClearsCountAt(es, j)
    ensures StartsCountAt(es[..n], j) <==> StartsCountAt(es, j)
  {
    assert es[..n][..j] == es[..j];
  }

  // The count is that of the reminders since the last activation, approved exit or compaction.
  lemma {:induction false} CountIsOfTheLastStretch(es: seq<Event>, k: nat)
    requires k <= |es| && (k == 0 || ClearsCountAt(es, k - 1) || StartsCountAt(es, k))
    requires forall j: nat :: k <= j < |es| ==> !ClearsCountAt(es, j) && (k < j ==> !StartsCountAt(es, j))
    ensures Run(es).0.reminderCount == RemindersFrom(es, k)
  {
    if es != [] {
      var n := |es| - 1;
      CountStep(es);
      if k <= n && !StartsCountAt(es, n) {
        forall j: nat | j < n
          ensures ClearsCountAt(es[..n], j) <==> ClearsCountAt(es, j)
          ensures StartsCountAt(es[..n], j) <==> StartsCountAt(es, j)
        {
          SameStretch(es, n, j);
        }
        CountIsOfTheLastStretch(es[..n], k);
      }
    }
  }

  // A prompt activates a pending mode, reminds an active one, tells a due exit, and is silent
  // otherwise; nothing else sends anything.
  lemma {:induction false} WhatIsSent(es: seq<Event>, e: Event)
    ensures var (s, log) := Run(es);
            var sent := Run(es + [e]).1;
            && log <= sent && |sent| <= |log| + 1
            && (|sent| == |log| + 1 ==>
                  match sent[|log|]
                  case Activation(_) => e == Prompt && s.mode == Pending
                  case PerTurn(_) => e == Prompt && s.mode == Active
                  case Exited => e == Prompt && s.mode in {Inactive, ExitPending} && s.pendingExitReminder
                  case Compaction => e == Compacted && s.mode == Active)
            && (|sent| == |log| ==>
                  && (e == Compacted ==> s.mode != Active)
                  && (e == Prompt ==> s.mode in {Inactive, ExitPending} && !s.pendingExitReminder))
  {
    assert (es + [e])[..|es|] == es;
  }

  // ---------------------------------------------------------------------------
  // The tracker
  // ---------------------------------------------------------------------------

  class PiPlanTracker {
    var mode: Mode
    var wasPreviouslyActive: bool
    var reminderCount: nat
    var pendingExitReminder: bool
    var awaitingApproval: bool

    ghost function View(): Snapshot
      reads this
    {
      Snapshot(mode, wasPreviouslyActive, reminderCount, pendingExitReminder, awaitingApproval)
    }

    constructor ()
      ensures View() == Fresh
    {
      mode, wasPreviouslyActive, reminderCount, pendingExitReminder, awaitingApproval := Inactive, false, 0, false, false;
    }

    constructor FromSnapshot(snapshot: Snapshot)
      ensures View() == Restored(snapshot)
    {
      mode, pendingExitReminder := snapshot.mode, snapshot.pendingExitReminder;
      if snapshot.mode == Pending {
        mode := Inactive;
      } else if snapshot.mode == ExitPending {
        mode, pendingExitReminder := Inactive, true;
      }
      wasPreviouslyActive, reminderCount := snapshot.wasPreviouslyActive, snapshot.reminderCount;
      awaitingApproval := snapshot.awaitingApproval;
    }

    method TakeSnapshot() returns (snapshot: Snapshot)
      ensures snapshot == View()
    {
      snapshot := Snapshot(mode, wasPreviouslyActive, reminderCount, pendingExitReminder, awaitingApproval);
    }

    method Enter() returns (changed: bool)
      modifies this
      ensures View() == Step(old(View()), EnterPending)
      ensures changed <==> mode != old(mode)
    {
      if mode == Inactive {
        mode := Pending;
        pendingExitReminder := false;
        return true;
      }
      if mode == ExitPending {
        mode := Active;
        pendingExitReminder := false;
        return true;
      }
      return false;
    }

    method Activate() returns (changed: bool)
      modifies this
      ensures changed <==> old(mode) == Pending
      ensures View() == if changed
                        then old(View()).(mode := Active, wasPreviouslyActive := true, reminderCount := 0)
                        else old(View())
    {
      if mode != Pending {
        return false;
      }
      mode := Active;
      wasPreviouslyActive := true;
      reminderCount := 0;
      return true;
    }

    method Exit(turnInFlight: bool)
      modifies this
      ensures View() == Step(old(View()), UserExit(turnInFlight))
    {
      awaitingApproval := false;
      if mode == Pending {
        mode := Inactive;
      } else if mode == Active {
        if turnInFlight {
          mode := ExitPending;
        } else {
          mode := Inactive;
          pendingExitReminder := true;
        }
      }
    }

    method CompleteDeferredExit()
      modifies this
      ensures View() == Step(old(View()), TurnCompleted)
    {
      if mode != ExitPending {
        return;
      }
      mode := Inactive;
      pendingExitReminder := true;
    }

    method DeactivateApproved() returns (changed: bool)
      modifies this
      ensures View() == Step(old(View()), ExitApproved)
      ensures changed <==> old(mode) == Active
    {
      if mode != Active {
        return false;
      }
      mode := Inactive;
      reminderCount := 0;
      awaitingApproval := false;
      return true;
    }

    method ResetAfterCompaction()
      modifies this
      ensures View() == Step(old(View()), Compacted)
    {
      if mode == Active {
        reminderCount := 0;
      }
    }

    method BuildReminderForPrompt() returns (reminder: Option<Reminder>)
      modifies this
      ensures View() == Step(old(View()), Prompt)
      ensures reminder == ReminderFor(old(View()))
    {
      if mode == Pending {
        var isReentry := wasPreviouslyActive;
        var _ := Activate();
        reminderCount := reminderCount + 1;
        return Some(if isReentry then Reentry else Full);
      }
      if mode == Active {
        var useFull := reminderCount % 2 == 0;
        reminderCount := reminderCount + 1;
        return Some(if useFull then Full else Sparse);
      }
      if pendingExitReminder {
        pendingExitReminder := false;
        return Some(ExitNote);
      }
      return None;
    }
  }
}
