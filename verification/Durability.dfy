/** When the file holds everything: between two rounds of the loop, and when it has come to rest. */
module Durability {
  import opened Dto
  import opened StoreSpec
  import opened LoopMachine
  import opened LoopRuns

  /** What was put into the file last in the background. */
  function LastSaved(timers: seq<Timer>): Option<Image> {
    if timers == [] then None
    else
      var t := timers[|timers| - 1];
      if (t.Finished? || t.Reported?) && t.saved.Some? then t.saved else LastSaved(timers[..|timers| - 1])
  }

  /** The image a timer holds or has put into the file. */
  predicate Holds(t: Timer, image: Image) {
    (t.Encoded? && t.image == image) || ((t.Finished? || t.Reported?) && t.saved == Some(image))
  }

  /** Requests taken after an image was encoded are stamped no earlier than its persist started. */
  ghost predicate TakenLater(s: State, t: Timer) {
    forall image :: Holds(t, image) ==>
      && image.prefix <= image.taken <= image.prefix + 1 && image.taken <= |s.stamps|
      && forall j :: image.taken <= j < |s.stamps| ==> s.stamps[j] >= t.at
  }

  /** While the loop is looping: every stamp is accounted for, and the file holds the last image that
      was renamed. */
  ghost predicate Accounted(c: Config, s: State) {
    Looping(s) ==>
      && s.clock >= c.started && |s.stamps| == |s.processed| + |Taken(s)|
      && (forall j :: 0 <= j < |s.stamps| ==>
            c.started <= s.stamps[j] <= s.schedule.lastWrite && (c.ticking ==> c.started < s.stamps[j]))
      && (forall i :: 0 <= i < |s.timers| ==> TakenLater(s, s.timers[i]))
      && s.filePrefix == (match LastSaved(s.timers) case None => 0 case Some(image) => image.prefix)
  }

  /** With a ticking clock no stamp is the start of a persist. */
  ghost predicate StampsDiffer(c: Config, s: State) {
    c.ticking && Looping(s) ==>
      forall i, j :: 0 <= i < |s.timers| && 0 <= j < |s.stamps| && HasStarted(s.timers[i]) ==> s.timers[i].at != s.stamps[j]
  }

  ghost predicate OnTime(c: Config, s: State) {
    Accounted(c, s) && StampsDiffer(c, s)
  }

  lemma SavedStays(timers: seq<Timer>, i: nat, x: Timer)
    requires i == |timers| - 1 && !((timers[i].Finished? || timers[i].Reported?) && timers[i].saved.Some?)
    requires !((x.Finished? || x.Reported?) && x.saved.Some?)
    ensures LastSaved(timers[i := x]) == LastSaved(timers)
  {
    assert timers[i := x][..i] == timers[..i];
  }

  lemma SavedAdded(timers: seq<Timer>, x: Timer)
    requires x.Armed?
    ensures LastSaved(timers + [x]) == LastSaved(timers)
  {
    assert (timers + [x])[..|timers|] == timers;
  }

  lemma StartedBefore(c: Config, timers: seq<Timer>, now: Time)
    requires Spaced(c, timers, now)
    ensures forall i :: 0 <= i < |timers| && HasStarted(timers[i]) ==> timers[i].at <= now
  {}

  /** Taking a request: it is stamped no earlier than any persist has started. */
  lemma TakeOnTime(c: Config, s: State, t: Time)
    requires OnTime(c, s) && TimerSet(c, s) && Enabled(c, s, Take(t))
    ensures OnTime(c, Next(c, s, Take(t)))
  {
    hide Spaced, WellTimed, LastReport, LastSaved;
    StartedBefore(c, s.timers, s.clock);
    var u := Next(c, s, Take(t));
    forall i | 0 <= i < |u.timers| ensures TakenLater(u, u.timers[i]) {
      assert TakenLater(s, s.timers[i]);
      forall image | Holds(u.timers[i], image)
        ensures image.taken <= |u.stamps| && forall j :: image.taken <= j < |u.stamps| ==> u.stamps[j] >= u.timers[i].at
      {}
    }
  }

  lemma OnTimeKept(c: Config, s: State, u: State)
    requires OnTime(c, s) && u.timers == s.timers && u.stamps == s.stamps && u.filePrefix == s.filePrefix
    requires Looping(u) ==> Looping(s) && u.clock >= s.clock && u.schedule.lastWrite == s.schedule.lastWrite
                            && |u.processed| + |Taken(u)| == |s.processed| + |Taken(s)|
    ensures OnTime(c, u)
  {
    hide LastSaved, HasStarted;
    if Looping(u) {
      forall i | 0 <= i < |u.timers| ensures TakenLater(u, u.timers[i]) { assert TakenLater(s, s.timers[i]); }
    }
  }

  /** `checkPersist` adds at most a timer that holds nothing. */
  lemma CheckedOnTime(c: Config, s: State, now: Time)
    requires OnTime(c, s)
    ensures OnTime(c, Checked(c, s, now))
  {
    hide LastSaved, FireTime;
    if Due(c, s.schedule) && Looping(s) {
      var x := Armed(FireTime(c, s.schedule, now));
      SavedAdded(s.timers, x);
      var u := Checked(c, s, now);
      forall i | 0 <= i < |u.timers| ensures TakenLater(u, u.timers[i]) {
        if i < |s.timers| { assert TakenLater(s, s.timers[i]); }
      }
    }
  }

  /** A timer takes a step; what it holds, if anything, it held before or covers all that was taken. */
  lemma TimerOnTime(c: Config, s: State, u: State, i: nat, x: Timer)
    requires OnTime(c, s) && i < |s.timers| && u.timers == s.timers[i := x] && u.stamps == s.stamps
    requires u.phase == s.phase && u.processed == s.processed && u.clock >= s.clock
    requires u.schedule.lastWrite == s.schedule.lastWrite
    requires HasStarted(x) ==> if HasStarted(s.timers[i]) then x.at == s.timers[i].at else Later(c, s, x.at)
    requires s.schedule.lastWrite <= s.clock
    requires forall image :: Holds(x, image) ==>
               Holds(s.timers[i], image) || (image == ImageOf(s) && HasStarted(x))
    requires Looping(s) ==> u.filePrefix == (match LastSaved(u.timers) case None => 0 case Some(image) => image.prefix)
    ensures OnTime(c, u)
  {
    hide LastSaved;
    if Looping(u) {
      forall j | 0 <= j < |u.timers| ensures TakenLater(u, u.timers[j]) {
        assert TakenLater(s, s.timers[j]);
        if j == i {
          forall image | Holds(x, image)
            ensures image.prefix <= image.taken <= image.prefix + 1 && image.taken <= |u.stamps|
            ensures forall k :: image.taken <= k < |u.stamps| ==> u.stamps[k] >= x.at
          {}
        }
      }
    }
  }

  lemma TimerStepOnTime(c: Config, s: State, a: Action)
    requires OnTime(c, s) && TimerSet(c, s) && Enabled(c, s, a) && OfTimer(a) && !a.Report?
    ensures OnTime(c, Next(c, s, a))
  {
    hide Spaced, WellTimed, LastReport, OnTime, LastSaved;
    OnlyLast(c, s.timers, s.clock, a.i);
    var u := Next(c, s, a);
    var x := u.timers[a.i];
    if !(x.Finished? && x.saved.Some?) {
      SavedStays(s.timers, a.i, x);
    } else {
      JustSaved(s.timers, a.i, x);
    }
    FileHoldsSaved(c, s);
    TimerOnTime(c, s, u, a.i, x);
  }

  lemma JustSaved(timers: seq<Timer>, i: nat, x: Timer)
    requires i == |timers| - 1 && (x.Finished? || x.Reported?) && x.saved.Some?
    ensures LastSaved(timers[i := x]) == x.saved
  {}

  lemma FileHoldsSaved(c: Config, s: State)
    requires OnTime(c, s)
    ensures Looping(s) ==> s.filePrefix == (match LastSaved(s.timers) case None => 0 case Some(image) => image.prefix)
  {}

  lemma ReportOnTime(c: Config, s: State, i: nat, t: Time)
    requires OnTime(c, s) && TimerSet(c, s) && Enabled(c, s, Action.Report(i, t))
    ensures OnTime(c, Next(c, s, Action.Report(i, t)))
  {
    hide Spaced, WellTimed, LastReport, OnTime, LastSaved, Checked;
    OnlyLast(c, s.timers, s.clock, i);
    var old', x := s.timers[i], Reported(s.timers[i].at, s.timers[i].saved);
    var k := s.schedule.(lastPersist := x.at, persistScheduled := false);
    var u := s.(timers := s.timers[i := x], schedule := k, clock := t);
    if x.saved.None? { SavedStays(s.timers, i, x); } else { JustSaved(s.timers, i, x); JustSaved(s.timers, i, old'); }
    assert s.timers[i := old'] == s.timers;
    FileHoldsSaved(c, s);
    TimerOnTime(c, s, u, i, x);
    CheckedOnTime(c, u, t);
  }

  lemma OnTimeStep(c: Config, s: State, a: Action)
    requires OnTime(c, s) && TimerSet(c, s) && Enabled(c, s, a)
    ensures OnTime(c, Next(c, s, a))
  {
    hide Spaced, WellTimed, LastReport, OnTime, LastSaved, Checked, Apply, StopTimer;
    match a
    case Take(t) => TakeOnTime(c, s, t);
    case Perform(t) =>
      var u := Applied(c, s, s.phase.w).(phase := Idle, clock := t);
      OnTimeKept(c, s, u);
      CheckedOnTime(c, u, t);
    case Report(i, t) => ReportOnTime(c, s, i, t);
    case Submit(_) => OnTimeKept(c, s, Next(c, s, a));
    case Shutdown => OnTimeKept(c, s, Next(c, s, a));
    case Drain => LeftLoop(c, Next(c, s, a));
    case DrainWrite => LeftLoop(c, Next(c, s, a));
    case DrainEncode(_) => LeftLoop(c, Next(c, s, a));
    case DrainRename(_) => LeftLoop(c, Next(c, s, a));
    case _ => TimerStepOnTime(c, s, a);
  }

  lemma LeftLoop(c: Config, s: State)
    requires !Looping(s)
    ensures OnTime(c, s)
  {}

  lemma {:induction false} RunOnTime(c: Config, run: seq<Action>)
    requires c.started >= 0 && CanRun(c, Initial(c), run)
    ensures OnTime(c, After(c, Initial(c), run)) && Inv(c, After(c, Initial(c), run))
  {
    hide Next, Enabled, Spaced, WellTimed, LastReport, InOrder, FileIsPrefix, FileBehindImages, NothingForgotten;
    InitialInv(c);
    RunKeeps(c, Initial(c), run);
    if run != [] {
      RunOnTime(c, run[..|run| - 1]);
      OnTimeStep(c, After(c, Initial(c), run[..|run| - 1]), run[|run| - 1]);
    }
  }

  lemma ReachableOnTime(c: Config, s: State)
    requires c.started >= 0 && Reachable(c, s)
    ensures OnTime(c, s) && Inv(c, s)
  {
    hide OnTime, Inv;
    var run :| CanRun(c, Initial(c), run) && After(c, Initial(c), run) == s;
    RunOnTime(c, run);
  }

  /** The loop is at its head with no persist scheduled. */
  predicate Quiescent(s: State) { s.phase.Idle? && !s.schedule.persistScheduled }

  /** No request was taken after the image was encoded, and none was in hand then. */
  predicate Current(s: State, saved: Option<Image>) {
    match saved
    case None => s.stamps == []
    case Some(image) => !image.Torn() && image.taken == |s.stamps|
  }

  /** Between two rounds of the loop, whether clock readings are equal or persists fail: the file holds
      every processed request exactly if the last persist that succeeded encoded with no request in
      hand, and none was taken since. */
  lemma FileIsCompleteIff(c: Config, s: State)
    requires c.started >= 0 && Reachable(c, s) && s.phase.Idle?
    ensures s.filePrefix == |s.processed| <==> Current(s, LastSaved(s.timers))
    ensures s.filePrefix == |s.processed| ==> s.file == s.store
  {
    hide Next, Enabled, Spaced, WellTimed, LastReport, Fold, Reachable, FileBehindImages, NothingForgotten;
    ReachableOnTime(c, s);
    assert s.processed[..|s.processed|] == s.processed;
    if LastSaved(s.timers).Some? { SavedIsHeld(s.timers); }
  }

  lemma {:induction false} SavedIsHeld(timers: seq<Timer>)
    requires LastSaved(timers).Some?
    ensures exists i :: 0 <= i < |timers| && Holds(timers[i], LastSaved(timers).value)
  {
    var last := |timers| - 1;
    if (timers[last].Finished? || timers[last].Reported?) && timers[last].saved.Some? {
      assert Holds(timers[last], LastSaved(timers).value);
    } else {
      SavedIsHeld(timers[..last]);
      var i :| 0 <= i < last && Holds(timers[..last][i], LastSaved(timers).value);
      assert timers[i] == timers[..last][i];
    }
  }

  /** A request was stamped at the very reading at which the persist started, after it had encoded. */
  predicate TiedAfter(s: State, t: Timer, image: Image) {
    HasStarted(t) && exists j :: image.taken <= j < |s.stamps| && s.stamps[j] == t.at
  }

  /** When nothing is scheduled: after a successful last persist the file holds everything exactly if
      that persist encoded with no request in hand, and no request was stamped at its very start
      reading after it encoded. With a ticking clock the second cannot happen, and the file lacks
      at most one request. Without any persist, it holds everything exactly if nothing was taken. */
  lemma QuiescentDurabilityIff(c: Config, s: State)
    requires c.started >= 0 && c.hasFile && Reachable(c, s) && Quiescent(s)
    ensures s.timers == [] ==> (s.filePrefix == |s.processed| <==> s.stamps == [])
    ensures c.ticking && s.stamps != [] ==> s.timers != []
    ensures s.timers != [] ==>
              var t := s.timers[|s.timers| - 1];
              t.Reported? && match t.saved
                case Some(image) =>
                  && (s.filePrefix == |s.processed| <==> !image.Torn() && !TiedAfter(s, t, image))
                  && (c.ticking ==> (s.filePrefix == |s.processed| <==> !image.Torn()) && s.filePrefix >= |s.processed| - 1)
                case None => s.filePrefix == |s.processed| <==> Current(s, LastSaved(s.timers[..|s.timers| - 1]))
  {
    hide Next, Enabled, Spaced, WellTimed, Fold, Reachable, FileBehindImages, InOrder, FileIsPrefix;
    ReachableOnTime(c, s);
    FileIsCompleteIff(c, s);
    if s.stamps != [] { assert c.ticking ==> c.started < s.stamps[0] <= s.schedule.lastWrite; }
    if s.timers != [] {
      var t := s.timers[|s.timers| - 1];
      assert t.Reported? && s.schedule.lastWrite <= s.schedule.lastPersist == t.at;
      if t.saved.Some? { LastPersistDecides(c, s, t, t.saved.value); }
    }
  }

  lemma LastPersistDecides(c: Config, s: State, t: Timer, image: Image)
    requires OnTime(c, s) && Looping(s) && s.phase.Idle? && s.timers != [] && t == s.timers[|s.timers| - 1]
    requires HasStarted(t) && Holds(t, image) && s.schedule.lastWrite <= t.at
    ensures |s.stamps| == |s.processed| && image.taken <= |s.stamps|
    ensures image.taken == |s.stamps| <==> !TiedAfter(s, t, image)
    ensures c.ticking ==> !TiedAfter(s, t, image)
    ensures image.prefix <= image.taken <= image.prefix + 1
  {
    hide LastSaved;
    assert TakenLater(s, t);
    if image.taken < |s.stamps| {
      var j := |s.stamps| - 1;
      assert s.stamps[j] >= t.at && s.stamps[j] <= s.schedule.lastWrite;
    }
  }

  // ------------------------------------------------------------ runs that lose a write

  /** A reachable state at rest whose file lacks a request that was processed. */
  ghost predicate Forgotten(c: Config, s: State, submitted: seq<Write>) {
    && Reachable(c, s) && Quiescent(s) && s.queue == []
    && s.processed == submitted && s.filePrefix == |submitted| - 1
  }

  /** A persist that starts and encodes while a request is in hand: the request is forgotten, although
      the persist succeeded and no two clock readings are equal. */
  lemma TornPersistForgets(c: Config, w: Write, x: Write)
    requires c.started == 0 && c.interval == 10 && c.hasFile
    ensures exists s :: Forgotten(c, s, [w, x])
  {
    hide Apply, Reachable;
    var s := FirstPersistFires(c, w);
    s := Step(c, s, Submit(x));
    s := Step(c, s, Take(12));
    s := Step(c, s, Start(0, 13));
    s := Step(c, s, Encode(0, true));
    s := Step(c, s, Perform(14));
    s := Step(c, s, Rename(0, true));
    s := Step(c, s, Action.Report(0, 15));
    assert Forgotten(c, s, [w, x]);
  }

  /** A failed persist is not repeated. */
  lemma FailedPersistForgets(c: Config, w: Write)
    requires c.started == 0 && c.interval == 10 && c.hasFile
    ensures exists s :: Forgotten(c, s, [w])
  {
    hide Apply, Reachable;
    var s := FirstPersistFires(c, w);
    s := Step(c, s, Start(0, 12));
    s := Step(c, s, Encode(0, false));
    s := Step(c, s, Action.Report(0, 13));
    assert Forgotten(c, s, [w]);
  }

  /** With equal clock readings a write after a complete persist counts as one before it. */
  lemma EqualReadingsForget(c: Config, w: Write, x: Write)
    requires c.started == 0 && c.interval == 10 && c.hasFile && !c.ticking
    ensures exists s :: Forgotten(c, s, [w, x]) && s.timers == [Reported(12, Some(Image(s.file, 1, 1)))]
  {
    hide Apply, Reachable;
    var s := FirstPersistFires(c, w);
    s := Step(c, s, Start(0, 12));
    s := Step(c, s, Encode(0, true));
    s := Step(c, s, Submit(x));
    s := Step(c, s, Take(12));
    s := Step(c, s, Perform(12));
    s := Step(c, s, Rename(0, true));
    s := Step(c, s, Action.Report(0, 12));
    assert Forgotten(c, s, [w, x]) && s.timers == [Reported(12, Some(Image(s.file, 1, 1)))];
  }
}
