/** A background persist is set only on demand: something was taken from the queue after the one before it
    started. */
module PersistDemand {
  import opened Dto
  import opened StoreSpec
  import opened LoopMachine
  import opened LoopRuns

  /** When the persist before that timer started, or the loop. */
  function StartBefore(c: Config, timers: seq<Timer>, i: nat): Time
    requires i <= |timers|
  {
    if i == 0 || !HasStarted(timers[i - 1]) then c.started else timers[i - 1].at
  }

  ghost predicate TakenSince(s: State, t: Time) {
    exists j :: 0 <= j < |s.stamps| && s.stamps[j] > t
  }

  ghost predicate Demanded(c: Config, s: State) {
    && s.schedule.lastWrite == (if s.stamps == [] then 0 else s.stamps[|s.stamps| - 1])
    && forall i :: 0 <= i < |s.timers| ==> TakenSince(s, StartBefore(c, s.timers, i))
  }

  lemma CheckedDemanded(c: Config, s: State, now: Time)
    requires c.started >= 0 && Demanded(c, s) && !Busy(s.timers) && s.schedule.lastPersist == LastReport(c, s.timers)
    ensures Demanded(c, Checked(c, s, now))
  {
    hide FireTime;
    var u, n := Checked(c, s, now), |s.timers|;
    if Due(c, s.schedule) {
      assert s.timers == [] ==> LastReport(c, s.timers) == c.started;
      assert n > 0 ==> TakenSince(s, StartBefore(c, s.timers, 0));
      assert s.stamps[|s.stamps| - 1] > s.schedule.lastPersist == StartBefore(c, s.timers, n);
      forall i | 0 <= i < |u.timers| ensures TakenSince(u, StartBefore(c, u.timers, i)) {
        if i < n { assert TakenSince(s, StartBefore(c, s.timers, i)); }
      }
    }
  }

  /** The last timer changes. */
  lemma LastChanges(c: Config, s: State, u: State, i: nat, x: Timer)
    requires Demanded(c, s) && i == |s.timers| - 1 && u.timers == s.timers[i := x]
    requires u.stamps == s.stamps && u.schedule.lastWrite == s.schedule.lastWrite
    ensures Demanded(c, u)
  {
    forall k | 0 <= k < |u.timers| ensures TakenSince(u, StartBefore(c, u.timers, k)) {
      assert TakenSince(s, StartBefore(c, s.timers, k));
    }
  }

  lemma OneMoreTaken(c: Config, s: State, u: State, t: Time)
    requires Demanded(c, s) && u.timers == s.timers && u.stamps == s.stamps + [t] && u.schedule.lastWrite == t
    ensures Demanded(c, u)
  {
    forall k | 0 <= k < |u.timers| ensures TakenSince(u, StartBefore(c, u.timers, k)) {
      assert TakenSince(s, StartBefore(c, s.timers, k));
      var j :| 0 <= j < |s.stamps| && s.stamps[j] > StartBefore(c, s.timers, k);
      assert u.stamps[j] == s.stamps[j];
    }
  }

  lemma DemandedStays(c: Config, s: State, u: State)
    requires Demanded(c, s) && u.timers == s.timers && u.stamps == s.stamps && u.schedule.lastWrite == s.schedule.lastWrite
    ensures Demanded(c, u)
  {
    forall k | 0 <= k < |u.timers| ensures TakenSince(u, StartBefore(c, u.timers, k)) {
      assert TakenSince(s, StartBefore(c, s.timers, k));
    }
  }

  lemma ReportDemanded(c: Config, s: State, i: nat, t: Time)
    requires c.started >= 0 && Demanded(c, s) && TimerSet(c, s) && Enabled(c, s, Action.Report(i, t))
    ensures Demanded(c, Next(c, s, Action.Report(i, t)))
  {
    hide Spaced, WellTimed, Demanded, Checked, LastReport;
    OnlyLast(c, s.timers, s.clock, i);
    var x := Reported(s.timers[i].at, s.timers[i].saved);
    var u := s.(timers := s.timers[i := x], schedule := s.schedule.(lastPersist := x.at, persistScheduled := false), clock := t);
    LastChanges(c, s, u, i, x);
    TimerMoves(c, s.timers, s.clock, i, x, t);
    CheckedDemanded(c, u, t);
  }

  lemma PerformDemanded(c: Config, s: State, t: Time)
    requires c.started >= 0 && Demanded(c, s) && TimerSet(c, s) && Enabled(c, s, Perform(t))
    ensures Demanded(c, Next(c, s, Perform(t)))
  {
    hide Spaced, WellTimed, Demanded, Checked, LastReport, Apply;
    var u := Applied(c, s, s.phase.w).(phase := Idle, clock := t);
    DemandedStays(c, s, u);
    if Busy(s.timers) {
      NotDue(c, u, t);
    } else {
      CheckedDemanded(c, u, t);
    }
  }

  lemma NotDue(c: Config, s: State, now: Time)
    requires s.schedule.persistScheduled
    ensures Checked(c, s, now) == s
  {}

  lemma DemandedStep(c: Config, s: State, a: Action)
    requires c.started >= 0 && Demanded(c, s) && TimerSet(c, s) && Enabled(c, s, a)
    ensures Demanded(c, Next(c, s, a))
  {
    hide Spaced, WellTimed, Demanded, Checked, LastReport, Apply, StopTimer;
    var u := Next(c, s, a);
    match a
    case Take(t) => OneMoreTaken(c, s, u, t);
    case Perform(t) => PerformDemanded(c, s, t);
    case Report(i, t) => ReportDemanded(c, s, i, t);
    case Fire(i, _) => OnlyLast(c, s.timers, s.clock, i); LastChanges(c, s, u, i, u.timers[i]);
    case Start(i, _) => OnlyLast(c, s.timers, s.clock, i); LastChanges(c, s, u, i, u.timers[i]);
    case Encode(i, _) => OnlyLast(c, s.timers, s.clock, i); LastChanges(c, s, u, i, u.timers[i]);
    case Rename(i, _) => OnlyLast(c, s.timers, s.clock, i); LastChanges(c, s, u, i, u.timers[i]);
    case Drain => StopDemanded(c, s, u);
    case _ => DemandedStays(c, s, u);
  }

  lemma StopDemanded(c: Config, s: State, u: State)
    requires Demanded(c, s) && u.timers == StopTimer(s.timers) && u.stamps == s.stamps
    requires u.schedule.lastWrite == s.schedule.lastWrite
    ensures Demanded(c, u)
  {
    hide Demanded;
    if s.timers != [] && s.timers[|s.timers| - 1].Armed? {
      LastChanges(c, s, u, |s.timers| - 1, Stopped);
    } else {
      DemandedStays(c, s, u);
    }
  }

  lemma {:induction false} RunDemanded(c: Config, run: seq<Action>)
    requires c.started >= 0 && CanRun(c, Initial(c), run)
    ensures Demanded(c, After(c, Initial(c), run)) && Inv(c, After(c, Initial(c), run))
  {
    hide Next, Enabled, Spaced, WellTimed, LastReport, InOrder, FileIsPrefix, FileBehindImages, NothingForgotten;
    InitialInv(c);
    RunKeeps(c, Initial(c), run);
    if run != [] {
      RunDemanded(c, run[..|run| - 1]);
      DemandedStep(c, After(c, Initial(c), run[..|run| - 1]), run[|run| - 1]);
    }
  }

  /** Whenever a timer has been set, a request has been taken from the queue after the persist before it
      started, or after the loop started if it is the first: an idle store is not persisted again and
      again. */
  lemma PersistsFollowWrites(c: Config, s: State, i: nat)
    requires c.started >= 0 && Reachable(c, s) && i < |s.timers|
    ensures i > 0 ==> s.timers[i - 1].Reported?
    ensures exists j :: 0 <= j < |s.stamps| && s.stamps[j] > if i == 0 then c.started else s.timers[i - 1].at
  {
    hide Next, Enabled, WellTimed, LastReport, InOrder, FileIsPrefix, FileBehindImages, NothingForgotten;
    var run :| CanRun(c, Initial(c), run) && After(c, Initial(c), run) == s;
    RunDemanded(c, run);
    assert TakenSince(s, StartBefore(c, s.timers, i));
  }
}
