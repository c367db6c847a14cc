/** What every run of the loop keeps: order of the requests, contents of the file, spacing of the
    persists. */
module LoopRuns {
  import opened Dto
  import opened StoreSpec
  import opened LoopMachine

  // ------------------------------------------------------------ requests and file

  /** The request between being taken and being applied. */
  function Taken(s: State): seq<Write> {
    if s.phase.Stamped? then [s.phase.w] else []
  }

  /** First in, first out, each request once; the store is the fold of what was processed. */
  ghost predicate InOrder(c: Config, s: State) {
    && s.submitted == s.processed + Taken(s) + s.queue
    && s.store == Fold(c.own, c.restored, s.processed)
  }

  /** An image is the store after a prefix of the processed requests. */
  ghost predicate IsPrefix(c: Config, s: State, image: Image) {
    image.prefix <= |s.processed| && image.store == Fold(c.own, c.restored, s.processed[..image.prefix])
  }

  ghost predicate FileIsPrefix(c: Config, s: State) {
    && s.filePrefix <= |s.processed| && s.file == Fold(c.own, c.restored, s.processed[..s.filePrefix])
    && (forall i :: 0 <= i < |s.timers| && s.timers[i].Encoded? ==> IsPrefix(c, s, s.timers[i].image))
    && (s.phase.DrainEncoded? ==> IsPrefix(c, s, s.phase.image))
  }

  /** Images on their way to the file are no older than the file, until the loop is down. */
  ghost predicate FileBehindImages(s: State) {
    && (!s.phase.Down? ==> forall i :: 0 <= i < |s.timers| && s.timers[i].Encoded? ==> s.filePrefix <= s.timers[i].image.prefix)
    && (s.phase.DrainEncoded? ==> s.filePrefix <= s.phase.image.prefix == |s.processed|)
    && s.filePrefix <= |s.processed|
  }

  // ------------------------------------------------------------ timers

  predicate HasStarted(t: Timer) { t.Running? || t.Encoded? || t.Finished? || t.Reported? }

  /** The start of the last persist that was reported, or of the loop. */
  function LastReport(c: Config, timers: seq<Timer>): Time {
    if timers == [] then c.started
    else if timers[|timers| - 1].Reported? then timers[|timers| - 1].at
    else if |timers| > 1 && HasStarted(timers[|timers| - 2]) then timers[|timers| - 2].at
    else c.started
  }

  predicate Looping(s: State) { s.phase.Idle? || s.phase.Stamped? }

  /** Timers are used one after the other, and the starts of their persists keep the interval. */
  ghost predicate Spaced(c: Config, timers: seq<Timer>, now: Time) {
    && (forall i :: 0 <= i < |timers| - 1 ==> timers[i].Reported?)
    && (forall i :: 0 <= i < |timers| && HasStarted(timers[i]) ==> timers[i].at <= now)
    && (forall i :: 0 < i < |timers| && HasStarted(timers[i]) ==>
          HasStarted(timers[i - 1]) && timers[i].at >= timers[i - 1].at + c.interval)
    && (|timers| > 0 && HasStarted(timers[0]) ==> timers[0].at >= c.started + c.interval)
  }

  /** A pending timer fires no earlier than an interval after the last persist that was reported. */
  ghost predicate WellTimed(c: Config, k: Schedule, timers: seq<Timer>, now: Time) {
    forall i :: 0 <= i < |timers| && (timers[i].Armed? || timers[i].Fired?) ==>
      timers[i].fireAt >= k.lastPersist + c.interval && (timers[i].Fired? ==> timers[i].fireAt <= now)
  }

  predicate Busy(timers: seq<Timer>) { timers != [] && !timers[|timers| - 1].Reported? }

  ghost predicate TimerSet(c: Config, s: State) {
    && Spaced(c, s.timers, s.clock) && WellTimed(c, s.schedule, s.timers, s.clock)
    && s.schedule.lastWrite <= s.clock && s.schedule.lastPersist == LastReport(c, s.timers)
    && (Looping(s) ==> (s.schedule.persistScheduled <==> Busy(s.timers)))
  }

  /** At the head of the loop: a persist is scheduled, or nothing was written since the last one
      started, or there is no file. */
  ghost predicate NothingForgotten(c: Config, s: State) {
    s.phase.Idle? ==>
      s.schedule.persistScheduled || s.schedule.lastWrite <= s.schedule.lastPersist || !c.hasFile
  }

  ghost predicate Inv(c: Config, s: State) {
    InOrder(c, s) && FileIsPrefix(c, s) && FileBehindImages(s) && TimerSet(c, s) && NothingForgotten(c, s)
  }

  // ------------------------------------------------------------ each step keeps it

  lemma CheckedKeepsRequests(c: Config, s: State, now: Time)
    ensures var t := Checked(c, s, now);
            && t.store == s.store && t.queue == s.queue && t.phase == s.phase && t.file == s.file && t.clock == s.clock
            && t.submitted == s.submitted && t.processed == s.processed && t.filePrefix == s.filePrefix
            && t.shutdown == s.shutdown && t.late == s.late
            && (t.timers == s.timers || t.timers == s.timers + [Armed(FireTime(c, s.schedule, now))])
  {}

  predicate OfRequests(a: Action) { a.Submit? || a.Take? || a.Perform? || a.DrainWrite? }

  lemma RequestsStay(c: Config, s: State, a: Action)
    requires Enabled(c, s, a) && !OfRequests(a)
    ensures var u := Next(c, s, a);
            && u.store == s.store && u.submitted == s.submitted && u.processed == s.processed && u.queue == s.queue
            && Taken(u) == Taken(s)
  {
    hide Apply, FireTime, Due, StopTimer;
  }

  lemma ApplyInOrder(c: Config, s: State, w: Write)
    requires s.store == Fold(c.own, c.restored, s.processed)
    ensures Applied(c, s, w).store == Fold(c.own, c.restored, Applied(c, s, w).processed)
  {
    hide Fold, Apply;
    FoldSnoc(c.own, c.restored, s.processed, w);
  }

  lemma TakeInOrder(c: Config, s: State, t: Time)
    requires InOrder(c, s) && Enabled(c, s, Take(t))
    ensures InOrder(c, Next(c, s, Take(t)))
  {
    hide Fold;
    assert s.processed + [] + s.queue == s.processed + [s.queue[0]] + s.queue[1..];
  }

  lemma PerformInOrder(c: Config, s: State, t: Time)
    requires InOrder(c, s) && Enabled(c, s, Perform(t))
    ensures InOrder(c, Next(c, s, Perform(t)))
  {
    hide Fold, Apply, Checked;
    ApplyInOrder(c, s, s.phase.w);
    CheckedKeepsRequests(c, Applied(c, s, s.phase.w).(phase := Idle, clock := t), t);
    assert (s.processed + [s.phase.w]) + [] + s.queue == s.processed + [s.phase.w] + s.queue;
  }

  lemma DrainWriteInOrder(c: Config, s: State)
    requires InOrder(c, s) && Enabled(c, s, DrainWrite)
    ensures InOrder(c, Next(c, s, DrainWrite))
  {
    hide Fold, Apply;
    ApplyInOrder(c, s, s.queue[0]);
    assert s.processed + [] + s.queue == (s.processed + [s.queue[0]]) + [] + s.queue[1..];
  }

  lemma InOrderStep(c: Config, s: State, a: Action)
    requires InOrder(c, s) && Enabled(c, s, a)
    ensures InOrder(c, Next(c, s, a))
  {
    hide Fold, Apply, Checked, StopTimer, ImageOf, Saved, Applied;
    match a
    case Take(t) => TakeInOrder(c, s, t);
    case Perform(t) => PerformInOrder(c, s, t);
    case DrainWrite => DrainWriteInOrder(c, s);
    case Submit(w) => assert s.processed + Taken(s) + (s.queue + [w]) == s.processed + Taken(s) + s.queue + [w];
    case _ => RequestsStay(c, s, a);
  }

  lemma PrefixStays(c: Config, s: State, u: State, image: Image)
    requires IsPrefix(c, s, image) && s.processed <= u.processed
    ensures IsPrefix(c, u, image)
  {
    assert u.processed[..image.prefix] == s.processed[..image.prefix];
  }

  lemma ImageIsPrefix(c: Config, s: State)
    requires InOrder(c, s)
    ensures IsPrefix(c, s, ImageOf(s))
  {
    assert s.processed[..|s.processed|] == s.processed;
  }

  lemma FileStep(c: Config, s: State, a: Action)
    requires InOrder(c, s) && FileIsPrefix(c, s) && Enabled(c, s, a)
    ensures FileIsPrefix(c, Next(c, s, a))
  {
    hide Fold, Apply, FireTime, Due, IsPrefix;
    var u := Next(c, s, a);
    assert s.processed <= u.processed;
    ImageIsPrefix(c, s);
    KeptPrefixes(c, s, u);
    if a.Rename? { PrefixParts(c, s, s.timers[a.i].image); }
    if a.DrainRename? { PrefixParts(c, s, s.phase.image); }
  }

  lemma PrefixParts(c: Config, s: State, image: Image)
    requires IsPrefix(c, s, image)
    ensures image.prefix <= |s.processed| && image.store == Fold(c.own, c.restored, s.processed[..image.prefix])
  {}

  lemma KeptPrefixes(c: Config, s: State, u: State)
    requires FileIsPrefix(c, s) && s.processed <= u.processed
    ensures u.processed[..s.filePrefix] == s.processed[..s.filePrefix]
    ensures forall i :: 0 <= i < |s.timers| && s.timers[i].Encoded? ==> IsPrefix(c, u, s.timers[i].image)
    ensures IsPrefix(c, s, ImageOf(s)) ==> IsPrefix(c, u, ImageOf(s))
    ensures s.phase.DrainEncoded? ==> IsPrefix(c, u, s.phase.image)
  {
    hide Fold, IsPrefix;
    forall image | IsPrefix(c, s, image) ensures IsPrefix(c, u, image) { PrefixStays(c, s, u, image); }
  }

  lemma FileBehindStep(c: Config, s: State, a: Action)
    requires FileBehindImages(s) && FileIsPrefix(c, s) && TimerSet(c, s) && Enabled(c, s, a)
    ensures FileBehindImages(Next(c, s, a))
  {
    hide Fold, Apply, Spaced, WellTimed, LastReport, Checked, StopTimer;
    match a
    case Perform(t) => CheckedKeepsRequests(c, Applied(c, s, s.phase.w).(phase := Idle, clock := t), t);
    case Report(i, t) =>
      var x := Reported(s.timers[i].at, s.timers[i].saved);
      CheckedKeepsRequests(c, s.(timers := s.timers[i := x],
                                 schedule := s.schedule.(lastPersist := x.at, persistScheduled := false), clock := t), t);
    case Drain => StopOnlyStops(s.timers);
    case Rename(i, _) => OnlyLast(c, s.timers, s.clock, i);
    case _ =>
  }

  lemma StopOnlyStops(timers: seq<Timer>)
    ensures |StopTimer(timers)| == |timers|
    ensures forall i :: 0 <= i < |timers| ==>
              StopTimer(timers)[i] == if i == |timers| - 1 && timers[i].Armed? then Stopped else timers[i]
  {}

  lemma OnlyLast(c: Config, timers: seq<Timer>, now: Time, i: nat)
    requires Spaced(c, timers, now) && i < |timers| && !timers[i].Reported?
    ensures i == |timers| - 1 && forall j :: 0 <= j < |timers| && j != i ==> timers[j].Reported?
  {}

  lemma TimerMoves(c: Config, timers: seq<Timer>, now: Time, i: nat, x: Timer, then': Time)
    requires Spaced(c, timers, now) && i < |timers| && !timers[i].Reported? && now <= then'
    requires HasStarted(x) ==>
               if HasStarted(timers[i]) then x.at == timers[i].at else LastReport(c, timers) + c.interval <= x.at <= then'
    ensures i == |timers| - 1 && Spaced(c, timers[i := x], then')
    ensures LastReport(c, timers[i := x]) == if x.Reported? then x.at else LastReport(c, timers)
  {}

  lemma TimerAdded(c: Config, timers: seq<Timer>, now: Time, x: Timer)
    requires Spaced(c, timers, now) && !Busy(timers) && !HasStarted(x)
    ensures Spaced(c, timers + [x], now) && LastReport(c, timers + [x]) == LastReport(c, timers)
  {}

  lemma ClockMoves(c: Config, k: Schedule, timers: seq<Timer>, now: Time, then': Time)
    requires Spaced(c, timers, now) && WellTimed(c, k, timers, now) && now <= then'
    ensures Spaced(c, timers, then') && WellTimed(c, k, timers, then')
  {}

  /** `checkPersist` keeps the timers in order, and forgets nothing. */
  lemma CheckedTimers(c: Config, s: State, now: Time)
    requires Spaced(c, s.timers, s.clock) && WellTimed(c, s.schedule, s.timers, s.clock)
    requires s.schedule.lastWrite <= s.clock <= now && s.schedule.lastPersist == LastReport(c, s.timers)
    requires s.schedule.persistScheduled <==> Busy(s.timers)
    ensures TimerSet(c, Checked(c, s, now)) && NothingForgotten(c, Checked(c, s, now))
  {
    hide Spaced, LastReport, Looping;
    if Due(c, s.schedule) {
      TimerAdded(c, s.timers, s.clock, Armed(FireTime(c, s.schedule, now)));
    }
  }

  predicate OfTimer(a: Action) { a.Fire? || a.Start? || a.Encode? || a.Rename? || a.Report? }

  lemma TimerStep(c: Config, s: State, a: Action)
    requires TimerSet(c, s) && Enabled(c, s, a) && OfTimer(a)
    ensures TimerSet(c, Next(c, s, a))
  {
    hide Fold, Apply, Spaced, LastReport, FireTime, Checked;
    match a
    case Fire(i, t) => TimerMoves(c, s.timers, s.clock, i, Fired(s.timers[i].fireAt), t);
    case Start(i, t) => TimerMoves(c, s.timers, s.clock, i, Running(t), t);
    case Encode(i, ok) => TimerMoves(c, s.timers, s.clock, i, Next(c, s, a).timers[i], s.clock);
    case Rename(i, ok) => TimerMoves(c, s.timers, s.clock, i, Next(c, s, a).timers[i], s.clock);
    case Report(i, t) => ReportStep(c, s, i, t);
  }

  lemma ReportStep(c: Config, s: State, i: nat, t: Time)
    requires TimerSet(c, s) && Enabled(c, s, Action.Report(i, t))
    ensures TimerSet(c, Next(c, s, Action.Report(i, t))) && NothingForgotten(c, Next(c, s, Action.Report(i, t)))
  {
    hide Spaced, LastReport, WellTimed, Checked, FireTime, Apply;
    var x := Reported(s.timers[i].at, s.timers[i].saved);
    var k := s.schedule.(lastPersist := x.at, persistScheduled := false);
    TimerMoves(c, s.timers, s.clock, i, x, t);
    NoneWaiting(c, k, s.timers[i := x], t);
    CheckedTimers(c, s.(timers := s.timers[i := x], schedule := k, clock := t), t);
  }

  lemma NoneWaiting(c: Config, k: Schedule, timers: seq<Timer>, now: Time)
    requires Spaced(c, timers, now) && !Busy(timers)
    ensures WellTimed(c, k, timers, now)
  {}

  lemma LoopStep(c: Config, s: State, a: Action)
    requires TimerSet(c, s) && Enabled(c, s, a) && !OfTimer(a)
    ensures TimerSet(c, Next(c, s, a))
  {
    hide Fold, Apply, Spaced, LastReport, FireTime, Checked;
    match a
    case Take(t) => ClockMoves(c, s.schedule, s.timers, s.clock, t);
    case Perform(t) =>
      ClockMoves(c, s.schedule, s.timers, s.clock, t);
      CheckedTimers(c, Applied(c, s, s.phase.w).(phase := Idle, clock := t), t);
    case Drain =>
      if Busy(s.timers) {
        var i := |s.timers| - 1;
        TimerMoves(c, s.timers, s.clock, i, StopTimer(s.timers)[i], s.clock);
      }
    case _ =>
  }

  lemma NothingForgottenStep(c: Config, s: State, a: Action)
    requires NothingForgotten(c, s) && TimerSet(c, s) && Enabled(c, s, a)
    ensures NothingForgotten(c, Next(c, s, a))
  {
    hide Fold, Apply, ImageOf, FireTime;
  }

  // ------------------------------------------------------------ all runs

  lemma StepKeeps(c: Config, s: State, a: Action)
    requires Inv(c, s) && Enabled(c, s, a)
    ensures Inv(c, Next(c, s, a))
  {
    hide InOrder, FileIsPrefix, FileBehindImages, TimerSet, NothingForgotten, Next, Enabled;
    InOrderStep(c, s, a);
    FileStep(c, s, a);
    FileBehindStep(c, s, a);
    if OfTimer(a) { TimerStep(c, s, a); } else { LoopStep(c, s, a); }
    NothingForgottenStep(c, s, a);
  }

  lemma InitialInv(c: Config)
    requires c.started >= 0
    ensures Inv(c, Initial(c))
  {}

  lemma {:induction false} RunKeeps(c: Config, s: State, run: seq<Action>)
    requires Inv(c, s) && CanRun(c, s, run)
    ensures Inv(c, After(c, s, run))
  {
    hide Inv, Next, Enabled;
    if run != [] {
      RunKeeps(c, s, run[..|run| - 1]);
      StepKeeps(c, After(c, s, run[..|run| - 1]), run[|run| - 1]);
    }
  }

  lemma ReachableInv(c: Config, s: State)
    requires c.started >= 0 && Reachable(c, s)
    ensures Inv(c, s)
  {
    hide Inv;
    var run :| CanRun(c, Initial(c), run) && After(c, Initial(c), run) == s;
    InitialInv(c);
    RunKeeps(c, Initial(c), run);
  }

  /** The requests submitted in a run, in order. */
  function Submits(run: seq<Action>): seq<Write> {
    if run == [] then []
    else
      var a := run[|run| - 1];
      Submits(run[..|run| - 1]) + (if a.Submit? then [a.w] else [])
  }

  lemma {:induction false} SubmittedIsSubmits(c: Config, run: seq<Action>)
    requires CanRun(c, Initial(c), run)
    ensures After(c, Initial(c), run).submitted == Submits(run)
  {
    hide Next, Enabled;
    if run != [] {
      SubmittedIsSubmits(c, run[..|run| - 1]);
      SubmittedStep(c, After(c, Initial(c), run[..|run| - 1]), run[|run| - 1]);
    }
  }

  lemma SubmittedStep(c: Config, s: State, a: Action)
    requires Enabled(c, s, a)
    ensures Next(c, s, a).submitted == s.submitted + if a.Submit? then [a.w] else []
  {
    hide Apply, FireTime, Due, StopTimer;
  }

  /** After any run the processed requests are the submitted ones in the order of submission, less
      those still queued and the one in hand, and the store is the fold of the processed ones. */
  lemma RunsAreFifo(c: Config, run: seq<Action>)
    requires c.started >= 0 && CanRun(c, Initial(c), run)
    ensures var s := After(c, Initial(c), run);
            && s.processed + Taken(s) + s.queue == Submits(run)
            && s.store == Fold(c.own, c.restored, s.processed)
  {
    hide Next, Enabled;
    InitialInv(c);
    RunKeeps(c, Initial(c), run);
    SubmittedIsSubmits(c, run);
  }

  /** At every moment a crash leaves a file holding the store after some prefix of the requests. */
  lemma CrashLeavesPrefix(c: Config, s: State)
    requires c.started >= 0 && Reachable(c, s)
    ensures s.filePrefix <= |s.processed| && s.processed <= s.submitted
    ensures s.file == Fold(c.own, c.restored, s.submitted[..s.filePrefix])
  {
    hide Next, Enabled;
    ReachableInv(c, s);
    assert s.submitted[..s.filePrefix] == s.processed[..s.filePrefix];
  }

  /** The prefix in the file shrinks only in one case: the loop is down, and a timer that was still
      running then puts its older image in place. */
  lemma PrefixShrinksIff(c: Config, s: State, a: Action)
    requires c.started >= 0 && Reachable(c, s) && Enabled(c, s, a)
    ensures Next(c, s, a).filePrefix < s.filePrefix
            <==> s.phase.Down? && a.Rename? && a.ok && s.timers[a.i].image.prefix < s.filePrefix
  {
    hide Fold, Apply, FireTime, Due, StopTimer;
    ReachableInv(c, s);
    assert FileBehindImages(s);
  }

  /** At the loop's head a persist is scheduled, or the last one started after the last write, or
      there is no file. At most one timer is pending or running. */
  lemma SchedulerIsSafe(c: Config, s: State)
    requires c.started >= 0 && Reachable(c, s)
    ensures s.phase.Idle? ==>
              s.schedule.persistScheduled || s.schedule.lastWrite <= s.schedule.lastPersist || !c.hasFile
    ensures forall i :: 0 <= i < |s.timers| - 1 ==> s.timers[i].Reported?
    ensures Looping(s) ==> (s.schedule.persistScheduled <==> Busy(s.timers))
  {
    hide Fold, Next, Enabled;
    ReachableInv(c, s);
  }

  /** The starts of consecutive persists in the background are at least an interval apart, so by any
      time at most one per interval has started, whatever delays were computed. */
  lemma {:induction false} PersistsAreSpaced(c: Config, s: State, i: nat)
    requires c.started >= 0 && Reachable(c, s)
    requires i < |s.timers| && HasStarted(s.timers[i])
    ensures i > 0 ==> HasStarted(s.timers[i - 1]) && s.timers[i].at >= s.timers[i - 1].at + c.interval
    ensures s.timers[i].at >= c.started + (i + 1) * c.interval
  {
    hide Fold, Next, Enabled, Reachable, FileIsPrefix, FileBehindImages, InOrder;
    ReachableInv(c, s);
    if i > 0 {
      PersistsAreSpaced(c, s, i - 1);
      assert (i + 1) * c.interval == i * c.interval + c.interval;
    }
  }

  // ------------------------------------------------------------ building runs

  lemma Extend(c: Config, s: State, run: seq<Action>, a: Action)
    requires CanRun(c, s, run) && Enabled(c, After(c, s, run), a)
    ensures CanRun(c, s, run + [a]) && After(c, s, run + [a]) == Next(c, After(c, s, run), a)
  {
    hide Next, Enabled;
    assert (run + [a])[..|run|] == run;
  }

  lemma ReachNext(c: Config, s: State, a: Action)
    requires Reachable(c, s) && Enabled(c, s, a)
    ensures Reachable(c, Next(c, s, a))
  {
    hide Next, Enabled;
    var run :| CanRun(c, Initial(c), run) && After(c, Initial(c), run) == s;
    Extend(c, Initial(c), run, a);
  }

  lemma InitialIsReachable(c: Config)
    ensures Reachable(c, Initial(c))
  {
    assert CanRun(c, Initial(c), []) && After(c, Initial(c), []) == Initial(c);
  }

  /** One request served, its timer fired. */
  lemma FirstPersistFires(c: Config, w: Write) returns (s: State)
    requires c.started == 0 && c.interval == 10 && c.hasFile
    ensures Reachable(c, s) && s.phase.Idle? && s.queue == [] && s.submitted == s.processed == [w] && s.filePrefix == 0
    ensures s.timers == [Fired(11)] && s.schedule == Schedule(0, 1, true) && s.clock == 11 && !s.shutdown && !s.late
  {
    hide Apply, Reachable;
    s := Initial(c);
    InitialIsReachable(c);
    s := Step(c, s, Submit(w));
    s := Step(c, s, Take(1));
    s := Step(c, s, Perform(2));
    s := Step(c, s, Fire(0, 11));
  }

  lemma Step(c: Config, s: State, a: Action) returns (t: State)
    requires Reachable(c, s) && Enabled(c, s, a)
    ensures t == Next(c, s, a) && Reachable(c, t)
  {
    ReachNext(c, s, a);
    t := Next(c, s, a);
  }

  lemma {:induction false} ReachRun(c: Config, s: State, run: seq<Action>)
    requires Reachable(c, s) && CanRun(c, s, run)
    ensures Reachable(c, After(c, s, run))
  {
    hide Next, Enabled, Reachable;
    if run != [] {
      ReachRun(c, s, run[..|run| - 1]);
      ReachNext(c, After(c, s, run[..|run| - 1]), run[|run| - 1]);
    }
  }
}
