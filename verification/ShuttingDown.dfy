/** What shutting down leaves in the file. */
module ShuttingDown {
  import opened Dto
  import opened StoreSpec
  import opened LoopMachine
  import opened LoopRuns

  /** Unless something is submitted after the call to Shutdown, nothing is left in the queue. */
  ghost predicate QueueDrained(s: State) {
    (s.phase.DrainEncoded? || s.phase.Down? ==> s.late || s.queue == []) && (!Looping(s) ==> s.shutdown)
  }

  lemma {:induction false} RunDrains(c: Config, run: seq<Action>)
    requires CanRun(c, Initial(c), run)
    ensures QueueDrained(After(c, Initial(c), run))
  {
    hide Next, Enabled, QueueDrained;
    if run == [] {
      InitialDrained(c);
    } else {
      RunDrains(c, run[..|run| - 1]);
      DrainedStep(c, After(c, Initial(c), run[..|run| - 1]), run[|run| - 1]);
    }
  }

  lemma InitialDrained(c: Config)
    ensures QueueDrained(Initial(c))
  {}

  lemma DrainedStep(c: Config, s: State, a: Action)
    requires QueueDrained(s) && Enabled(c, s, a)
    ensures QueueDrained(Next(c, s, a))
  {
    hide Apply, FireTime, Due, StopTimer;
  }

  /** The final persist writes the store after all requests submitted before the shutdown. */
  lemma ShutdownSaves(c: Config, s: State)
    requires c.started >= 0 && Reachable(c, s) && s.phase.DrainEncoded? && !s.late
    ensures var u := Next(c, s, DrainRename(true));
            u.file == Fold(c.own, c.restored, u.submitted) && u.filePrefix == |u.submitted| && u.processed == u.submitted
  {
    hide Enabled, Apply, FireTime, Due, StopTimer, Fold;
    ReachableInv(c, s);
    ReachableDrained(c, s);
    assert s.processed[..|s.processed|] == s.processed == s.submitted;
    FinalImage(c, s);
  }

  lemma ReachableDrained(c: Config, s: State)
    requires Reachable(c, s)
    ensures QueueDrained(s)
  {
    hide QueueDrained;
    var run :| CanRun(c, Initial(c), run) && After(c, Initial(c), run) == s;
    RunDrains(c, run);
  }

  lemma FinalImage(c: Config, s: State)
    requires s.phase.DrainEncoded?
    ensures var u := Next(c, s, DrainRename(true));
            && u.file == s.phase.image.store && u.filePrefix == s.phase.image.prefix && u.processed == s.processed
            && u.submitted == s.submitted
  {}

  /** Steps the drain still has to make. */
  function DrainLeft(s: State): nat {
    match s.phase
    case Draining => |s.queue| + 2
    case DrainEncoded(_) => 1
    case _ => 0
  }

  predicate OfDrain(a: Action) { a.DrainWrite? || a.DrainEncode? || a.DrainRename? }

  /** The drain is never stuck, each of its steps brings it closer to its end, and without new
      submissions nothing sets it back. */
  lemma DrainTerminates(c: Config, s: State)
    requires s.phase.Draining? || s.phase.DrainEncoded?
    ensures exists a :: OfDrain(a) && Enabled(c, s, a)
    ensures forall a :: Enabled(c, s, a) && OfDrain(a) ==> DrainLeft(Next(c, s, a)) < DrainLeft(s)
    ensures forall a :: Enabled(c, s, a) && !a.Submit? ==> DrainLeft(Next(c, s, a)) <= DrainLeft(s)
  {
    hide Apply, FireTime, Due, StopTimer;
    var a := if s.phase.DrainEncoded? then DrainRename(true) else if s.queue == [] then DrainEncode(true) else DrainWrite;
    assert OfDrain(a) && Enabled(c, s, a);
  }

  /** Down, with a complete file, and no encoded image that is older. */
  ghost predicate SafelyDown(s: State) {
    && s.phase.Down? && s.filePrefix == |s.processed|
    && forall i :: 0 <= i < |s.timers| && s.timers[i].Encoded? ==> s.timers[i].image.prefix == |s.processed|
  }

  lemma SafelyDownStep(c: Config, s: State, a: Action)
    requires SafelyDown(s) && Enabled(c, s, a)
    ensures SafelyDown(Next(c, s, a)) && Next(c, s, a).processed == s.processed
  {
    hide Apply, FireTime, Due, StopTimer;
  }

  lemma {:induction false} SafelyDownRun(c: Config, s: State, run: seq<Action>)
    requires SafelyDown(s) && CanRun(c, s, run)
    ensures SafelyDown(After(c, s, run)) && After(c, s, run).processed == s.processed
  {
    hide Next, Enabled, SafelyDown;
    if run != [] {
      SafelyDownRun(c, s, run[..|run| - 1]);
      SafelyDownStep(c, After(c, s, run[..|run| - 1]), run[|run| - 1]);
    }
  }

  ghost predicate StaysComplete(c: Config, s: State) {
    forall run :: CanRun(c, s, run) ==> After(c, s, run).filePrefix == |After(c, s, run).processed|
  }

  ghost predicate OlderImageWaits(s: State) {
    exists i :: 0 <= i < |s.timers| && s.timers[i].Encoded? && s.timers[i].image.prefix < |s.processed|
  }

  /** After shutting down with a successful final persist, the file stays complete exactly if no
      timer is still about to put an older image in place. */
  lemma ShutdownCompleteIff(c: Config, s: State)
    requires c.started >= 0 && Reachable(c, s) && s.phase.Down? && s.filePrefix == |s.processed|
    ensures StaysComplete(c, s) <==> !OlderImageWaits(s)
  {
    hide Next, Enabled, Fold;
    ReachableInv(c, s);
    if OlderImageWaits(s) {
      OlderImageWins(c, s);
    } else {
      assert forall i :: 0 <= i < |s.timers| && s.timers[i].Encoded? ==> IsPrefix(c, s, s.timers[i].image);
      forall run | CanRun(c, s, run) ensures After(c, s, run).filePrefix == |After(c, s, run).processed| {
        SafelyDownRun(c, s, run);
      }
    }
  }

  lemma OlderImageWins(c: Config, s: State)
    requires OlderImageWaits(s)
    ensures !StaysComplete(c, s)
  {
    hide Apply, FireTime, Due, StopTimer;
    var i :| 0 <= i < |s.timers| && s.timers[i].Encoded? && s.timers[i].image.prefix < |s.processed|;
    assert CanRun(c, s, []);
    Extend(c, s, [], Rename(i, true));
    assert CanRun(c, s, [] + [Rename(i, true)]);
  }

  predicate InFlight(t: Timer) { t.Fired? || t.Running? || t.Encoded? }

  /** The loop is leaving, no persist is in the background nor about to be, and a final persist that
      succeeded has written everything. */
  ghost predicate Quiet(s: State) {
    && !Looping(s)
    && (forall i :: 0 <= i < |s.timers| ==> !InFlight(s.timers[i]) && !s.timers[i].Armed?)
    && (s.phase.DrainEncoded? ==> s.phase.image.prefix == |s.processed|)
    && (s.phase == Down(true) ==> s.filePrefix == |s.processed|)
  }

  lemma QuietStep(c: Config, s: State, a: Action)
    requires Quiet(s) && Enabled(c, s, a)
    ensures Quiet(Next(c, s, a))
  {
    hide Apply, FireTime, Due;
  }

  lemma {:induction false} QuietStays(c: Config, s: State, run: seq<Action>)
    requires Quiet(s) && CanRun(c, s, run)
    ensures Quiet(After(c, s, run))
  {
    hide Next, Enabled, Quiet;
    if run != [] {
      QuietStays(c, s, run[..|run| - 1]);
      QuietStep(c, After(c, s, run[..|run| - 1]), run[|run| - 1]);
    }
  }

  /** Beginning the drain stops the timer that is set, so none fires later. A timer that has fired is not
      stopped, nor is its persist. */
  lemma DrainStopsTimer(c: Config, s: State)
    requires c.started >= 0 && Reachable(c, s) && Enabled(c, s, Drain)
    ensures |Next(c, s, Drain).timers| == |s.timers|
    ensures forall i :: 0 <= i < |s.timers| ==>
              Next(c, s, Drain).timers[i] == if s.timers[i].Armed? then Stopped else s.timers[i]
    ensures (forall i :: 0 <= i < |s.timers| ==> !InFlight(s.timers[i])) ==> Quiet(Next(c, s, Drain))
  {
    hide Fold, Reachable;
    ReachableInv(c, s);
    StopOnlyStops(s.timers);
  }

  /** If no persist is in flight when the drain begins, and the final persist succeeds, the file holds
      every request submitted before the shutdown, and stays so in every continuation. */
  lemma QuietShutdownIsComplete(c: Config, s: State, run: seq<Action>)
    requires c.started >= 0 && Reachable(c, s) && Enabled(c, s, Drain)
    requires forall i :: 0 <= i < |s.timers| ==> !InFlight(s.timers[i])
    requires CanRun(c, Next(c, s, Drain), run) && After(c, Next(c, s, Drain), run).phase == Down(true)
    ensures var u := After(c, Next(c, s, Drain), run);
            && u.filePrefix == |u.processed| && StaysComplete(c, u)
            && (!u.late ==> u.processed == u.submitted && u.file == Fold(c.own, c.restored, u.submitted))
  {
    hide Next, Enabled, Quiet, Reachable, StaysComplete, OlderImageWaits, Fold, InFlight;
    var d := Next(c, s, Drain);
    var u := After(c, d, run);
    DrainStopsTimer(c, s);
    ReachNext(c, s, Drain);
    ReachRun(c, d, run);
    QuietStays(c, d, run);
    QuietEnd(u);
    ShutdownCompleteIff(c, u);
    ReachableInv(c, u);
    ReachableDrained(c, u);
    assert u.processed[..|u.processed|] == u.processed;
    assert !u.late ==> u.processed == u.submitted;
  }

  lemma QuietEnd(s: State)
    requires Quiet(s)
    ensures !OlderImageWaits(s) && (s.phase == Down(true) ==> s.filePrefix == |s.processed|)
  {}

  /** The drain begins with a request queued and an image of the store before it encoded. */
  lemma ImageWaits(c: Config, w: Write, x: Write) returns (s: State)
    requires c.started == 0 && c.interval == 10 && c.hasFile
    ensures Reachable(c, s) && s.phase.Draining? && s.queue == [x] && s.submitted == [w, x] && s.processed == [w]
    ensures |s.timers| == 1 && s.timers[0].Encoded? && s.timers[0].image.prefix == 1
  {
    hide Apply, Reachable;
    s := FirstPersistFires(c, w);
    s := Step(c, s, Start(0, 12));
    s := Step(c, s, Encode(0, true));
    s := Step(c, s, Submit(x));
    s := Step(c, s, Action.Shutdown);
    s := Step(c, s, Drain);
  }

  /** Stopping a timer does not stop a persist that has begun: its older image can replace the final
      one. */
  lemma ShutdownCanLoseWrites(c: Config, w: Write, x: Write)
    requires c.started == 0 && c.interval == 10 && c.hasFile
    ensures exists s :: Reachable(c, s) && s.phase == Down(true) && s.processed == s.submitted == [w, x] && s.filePrefix == 1
  {
    hide Apply, Reachable;
    var s := ImageWaits(c, w, x);
    s := Step(c, s, DrainWrite);
    s := Step(c, s, DrainEncode(true));
    s := Step(c, s, DrainRename(true));
    s := Step(c, s, Rename(0, true));
  }
}
