/** The loop with its queue, its store, its timers and its file as one object. Each of its steps moves
    its meaning exactly as the state machine says, so what holds of every run of the machine holds of
    the objects. */
module StoreLoop {
  import opened Dto
  import opened LabelSpec
  import opened GroupingKey
  import opened Objects
  import opened StoreSpec
  import opened StoreHeap
  import opened GatherCheck
  import opened Gathering
  import opened DiskStore
  import opened Serving
  import opened Queue
  import opened LoopHeap
  import opened LoopRecord
  import opened LoopSteps
  import opened Persist
  import M = LoopMachine
  import LoopRuns
  import ShuttingDown

  /** Where the loop is. */
  datatype Mode =
    | AtHead
    | InHand(wr: WriteRequest, ok: bool)
    | Leaving
    | Writing(image: Store<Family>)
    | Gone(saved: bool)

  ghost function PhaseOf(mode: Mode, hand: map<string, Family>, finalImage: M.Image): M.Phase {
    match mode
    case AtHead => M.Idle
    case InHand(wr, _) => M.Phase.Stamped(WriteOf(wr, hand))
    case Leaving => M.Draining
    case Writing(_) => M.DrainEncoded(finalImage)
    case Gone(saved) => M.Down(saved)
  }

  ghost predicate Moved(c: M.Config, s: M.State, a: M.Action, u: M.State) {
    M.Enabled(c, s, a) && u == M.Next(c, s, a)
  }

  lemma StartReady(dms: DiskMetricStore)
    requires dms.Valid() && NamedByKey(dms.Deep())
    ensures Ready(dms, dms.Families(), [], [])
  {}

  /** A state with its store and its queue. */
  function Filled(s: M.State, store: Store<Family>, q: seq<Write>): M.State {
    s.(store := store, queue := q, submitted := s.processed + LoopRuns.Taken(s) + q)
  }

  /** The step is the same for every store and every queue. */
  ghost predicate AllMove(c: M.Config, s: M.State, a: M.Action, u: M.State) {
    forall store, q :: Moved(c, Filled(s, store, q), a, Filled(u, store, q))
  }

  /** The same for one store. */
  ghost predicate MoveAt(c: M.Config, s: M.State, a: M.Action, u: M.State, store: Store<Family>) {
    forall q :: Moved(c, Filled(s, store, q), a, Filled(u, store, q))
  }

  // ------------------------------------------------------------ steps of the fields alone

  lemma FireMoves(c: M.Config, s: M.State, i: nat, t: Time)
    requires i < |s.timers| && s.timers[i].Armed? && s.timers[i].fireAt <= t && M.Later(c, s, t)
    ensures AllMove(c, s, M.Fire(i, t), s.(timers := s.timers[i := M.Fired(s.timers[i].fireAt)], clock := t))
  {}

  lemma StartMoves(c: M.Config, s: M.State, i: nat, t: Time)
    requires i < |s.timers| && s.timers[i].Fired? && M.Later(c, s, t)
    ensures AllMove(c, s, M.Start(i, t), s.(timers := s.timers[i := M.Running(t)], clock := t))
  {}

  lemma EncodeMoves(c: M.Config, s: M.State, i: nat, ok: bool, store: Store<Family>)
    requires i < |s.timers| && s.timers[i].Running?
    ensures var image := M.Image(store, |s.processed|, |s.processed| + |LoopRuns.Taken(s)|);
            var x := if ok then M.Encoded(s.timers[i].at, image) else M.Finished(s.timers[i].at, None);
            MoveAt(c, s, M.Encode(i, ok), s.(timers := s.timers[i := x]), store)
  {}

  lemma RenameMoves(c: M.Config, s: M.State, i: nat, ok: bool)
    requires i < |s.timers| && s.timers[i].Encoded?
    ensures var image := s.timers[i].image;
            AllMove(c, s, M.Rename(i, ok),
                    s.(timers := s.timers[i := M.Finished(s.timers[i].at, if ok then Some(image) else None)],
                       file := if ok then image.store else s.file, filePrefix := if ok then image.prefix else s.filePrefix))
  {}

  /** `checkPersist` looks at the fields only. */
  lemma CheckedFilled(c: M.Config, s: M.State, now: Time, store: Store<Family>, q: seq<Write>)
    ensures M.Checked(c, Filled(s, store, q), now) == Filled(M.Checked(c, s, now), store, q)
  {}

  lemma ReportMoves(c: M.Config, s: M.State, i: nat, t: Time, k: M.Schedule)
    requires i < |s.timers| && s.timers[i].Finished? && s.phase.Idle? && M.Later(c, s, t)
    requires k == s.schedule.(lastPersist := s.timers[i].at, persistScheduled := false)
    ensures var x := M.Reported(s.timers[i].at, s.timers[i].saved);
            AllMove(c, s, M.Report(i, t), M.Checked(c, s.(timers := s.timers[i := x], schedule := k, clock := t), t))
  {
    var x := M.Reported(s.timers[i].at, s.timers[i].saved);
    var u := s.(timers := s.timers[i := x], schedule := k, clock := t);
    hide M.Checked;
    forall store, q ensures Moved(c, Filled(s, store, q), M.Report(i, t), Filled(M.Checked(c, u, t), store, q)) {
      CheckedFilled(c, u, t, store, q);
      assert Filled(u, store, q) == Filled(s, store, q).(timers := u.timers, schedule := k, clock := t);
    }
  }

  /** The step that takes a request which means `w` from the queue. */
  ghost predicate TakesAt(c: M.Config, s: M.State, a: M.Action, u: M.State, w: Write, store: Store<Family>,
                          after: Store<Family>) {
    forall q :: Moved(c, Filled(s, store, [w] + q), a, Filled(u, after, q))
  }

  lemma TakeMoves(c: M.Config, s: M.State, t: Time, w: Write, store: Store<Family>)
    requires s.phase.Idle? && M.Later(c, s, t)
    ensures TakesAt(c, s, M.Take(t),
                    s.(phase := M.Phase.Stamped(w), schedule := s.schedule.(lastWrite := t), clock := t,
                       stamps := s.stamps + [t]),
                    w, store, store)
  {
    hide Moved, Filled;
    var u := s.(phase := M.Phase.Stamped(w), schedule := s.schedule.(lastWrite := t), clock := t, stamps := s.stamps + [t]);
    forall q ensures Moved(c, Filled(s, store, [w] + q), M.Take(t), Filled(u, store, q)) {
      TakeMove(c, s, u, t, w, store, q);
    }
  }

  lemma TakeMove(c: M.Config, s: M.State, u: M.State, t: Time, w: Write, store: Store<Family>, q: seq<Write>)
    requires s.phase.Idle? && M.Later(c, s, t)
    requires u == s.(phase := M.Phase.Stamped(w), schedule := s.schedule.(lastWrite := t), clock := t, stamps := s.stamps + [t])
    ensures Moved(c, Filled(s, store, [w] + q), M.Take(t), Filled(u, store, q))
  {
    assert ([w] + q)[1..] == q && s.processed + [] + ([w] + q) == s.processed + [w] + q;
  }

  /** The step that changes the store from `store` to `after`. */
  ghost predicate MovesTo(c: M.Config, s: M.State, a: M.Action, u: M.State, store: Store<Family>, after: Store<Family>) {
    forall q :: Moved(c, Filled(s, store, q), a, Filled(u, after, q))
  }

  lemma PerformMoves(c: M.Config, s: M.State, t: Time, w: Write, store: Store<Family>)
    requires s.phase == M.Phase.Stamped(w) && M.Later(c, s, t)
    ensures MovesTo(c, s, M.Perform(t),
                    M.Checked(c, s.(phase := M.Idle, processed := s.processed + [w], clock := t), t), store,
                    Apply(c.own, store, w))
  {
    hide Apply, M.Checked;
    var u := s.(phase := M.Idle, processed := s.processed + [w], clock := t);
    forall q
      ensures Moved(c, Filled(s, store, q), M.Perform(t), Filled(M.Checked(c, u, t), Apply(c.own, store, w), q))
    {
      CheckedFilled(c, u, t, Apply(c.own, store, w), q);
      assert (s.processed + [w]) + [] + q == s.processed + [w] + q;
      assert Filled(u, Apply(c.own, store, w), q) == M.Applied(c, Filled(s, store, q), w).(phase := M.Idle, clock := t);
    }
  }

  lemma DrainMoves(c: M.Config, s: M.State, w: Write, store: Store<Family>)
    requires s.phase.Draining?
    ensures TakesAt(c, s, M.DrainWrite, s.(processed := s.processed + [w]), w, store, Apply(c.own, store, w))
  {
    hide Apply;
    forall q: seq<Write>
      ensures ([w] + q)[1..] == q && s.processed + [] + ([w] + q) == (s.processed + [w]) + [] + q
    {}
  }

  lemma ShutdownMoves(c: M.Config, s: M.State)
    requires !s.shutdown
    ensures AllMove(c, s, M.Shutdown, s.(shutdown := true))
  {}

  lemma BeginDrainMoves(c: M.Config, s: M.State)
    requires s.phase.Idle? && s.shutdown
    ensures AllMove(c, s, M.Drain, s.(phase := M.Draining, timers := M.StopTimer(s.timers)))
  {}

  /** The final persist encodes once the queue is empty. */
  lemma FinalEncodeMoves(c: M.Config, s: M.State, ok: bool, store: Store<Family>)
    requires s.phase.Draining?
    ensures var image := M.Image(store, |s.processed|, |s.processed|);
            var u := s.(phase := if c.hasFile && ok then M.DrainEncoded(image) else M.Down(false));
            Moved(c, Filled(s, store, []), M.DrainEncode(ok), Filled(u, store, []))
  {}

  lemma FinalRenameMoves(c: M.Config, s: M.State, ok: bool)
    requires s.phase.DrainEncoded?
    ensures var image := s.phase.image;
            AllMove(c, s, M.DrainRename(ok),
                    s.(phase := M.Down(ok), file := if ok then image.store else s.file,
                       filePrefix := if ok then image.prefix else s.filePrefix))
  {}

  lemma SubmitMoves(c: M.Config, s: M.State, store: Store<Family>, q: seq<Write>)
    requires q != []
    ensures var n := |q| - 1;
            Moved(c, Filled(s, store, q[..n]), M.Submit(q[n]), Filled(s.(late := s.late || s.shutdown), store, q))
  {
    var n := |q| - 1;
    assert q[..n] + [q[n]] == q;
    assert s.processed + LoopRuns.Taken(s) + q == s.processed + LoopRuns.Taken(s) + q[..n] + [q[n]];
  }

  lemma QueueGrows(known: set<MetricFamily>, queue: seq<WriteRequest>, wr: WriteRequest)
    requires QueueReady(known, queue) && Queued(known, wr) && forall j :: 0 <= j < |queue| ==> RequestsApart(queue[j], wr)
    ensures QueueReady(known, queue + [wr])
  {
    hide RequestsApart, Queued;
  }

  lemma Advance(c: M.Config, s: M.State, a: M.Action, u: M.State)
    requires M.Reachable(c, s) && Moved(c, s, a, u)
    ensures M.Reachable(c, u)
  {
    LoopRuns.ReachNext(c, s, a);
  }

  lemma Starts(c: M.Config, s: M.State)
    requires s == M.Initial(c)
    ensures M.Reachable(c, s)
  {
    assert M.CanRun(c, M.Initial(c), []) && M.After(c, M.Initial(c), []) == M.Initial(c);
  }

  /** The temporary file of each timer holds the store it encoded. */
  ghost predicate ImagesReady(timers: seq<M.Timer>, files: map<nat, Store<Family>>) {
    && (forall i :: 0 <= i < |timers| && timers[i].Encoded? ==> i in files && files[i] == timers[i].image.store)
    && forall i :: i in files ==> NamedByKey(files[i])
  }

  lemma ImageGone(timers: seq<M.Timer>, files: map<nat, Store<Family>>, i: nat, x: M.Timer)
    requires ImagesReady(timers, files) && i < |timers| && !x.Encoded?
    ensures ImagesReady(timers[i := x], files) && ImagesReady(timers[i := x], files - {i})
    ensures timers[i].Encoded? ==> i in files && files[i] == timers[i].image.store && NamedByKey(files[i])
  {
    hide NamedByKey;
  }

  lemma TimerAdded(timers: seq<M.Timer>, files: map<nat, Store<Family>>, t: Time)
    requires ImagesReady(timers, files)
    ensures ImagesReady(timers + [M.Armed(t)], files)
  {
    hide NamedByKey;
  }

  class Loop {
    const config: M.Config
    const dms: DiskMetricStore
    var queue: seq<WriteRequest>
    var mode: Mode
    var lastPersist: Time
    var lastWrite: Time
    var persistScheduled: bool
    /** The temporary files of persists under way, by timer. */
    var inProgress: map<nat, Store<Family>>
    var file: Store<Family>
    var closing: bool

    ghost var timers: seq<M.Timer>
    ghost var hand: map<string, Family>
    ghost var finalImage: M.Image
    ghost var clock: Time
    ghost var processed: seq<Write>
    ghost var stamps: seq<Time>
    ghost var filePrefix: nat
    ghost var late: bool
    ghost var known: set<MetricFamily>
    ghost var readers: seq<Reader>
    ghost var received: seq<Received>
    ghost var closed: nat

    /** The state but for the store and the queue. */
    ghost function AbsFields(): M.State
      reads this
    {
      M.State(map[], [], PhaseOf(mode, hand, finalImage), AbsSchedule(), timers, file, clock, closing, [],
              processed, stamps, filePrefix, late)
    }

    ghost function AbsTaken(): seq<Write>
      reads this
    {
      if mode.InHand? then [WriteOf(mode.wr, hand)] else []
    }

    /** The requests that have left the queue. */
    ghost function Writes(): seq<Write>
      reads this
    {
      processed + AbsTaken()
    }

    lemma NothingHeld()
      requires !mode.InHand?
      ensures Writes() == processed
    {}

    ghost function AbsSchedule(): M.Schedule
      reads this
    {
      M.Schedule(lastPersist, lastWrite, persistScheduled)
    }

    /** The state the loop is in, given what the queued requests will mean. */
    ghost function Abs(q: seq<Write>): M.State
      reads this, dms, dms.Maps(), dms.Families(), MetricsIn(dms.Families()), AllPairsIn(dms.Families())
    {
      Filled(AbsFields(), dms.Deep(), q)
    }

    ghost predicate FilesReady()
      reads this
    {
      && ImagesReady(timers, inProgress) && NamedByKey(file)
      && (mode.Writing? ==> mode.image == finalImage.store && NamedByKey(mode.image))
    }

    ghost predicate HeapReady()
      reads *
    {
      && Ready(dms, known, queue, readers)
      && (mode.InHand? ==> HandReady(config.own, dms, known, queue, mode.wr, mode.ok, hand))
      && OnRecord(config.own, config.restored, received, Writes(), queue, closed) && InPlace()
    }

    /** Until the drain begins, every request processed has had its channel closed. */
    ghost predicate InPlace()
      reads this
    {
      && closed <= |processed| && (mode.AtHead? || mode.InHand? ==> closed == |processed|)
      && (mode.InHand? ==> closed < |received| && received[closed].wr == mode.wr)
    }

    /** Whatever the queued requests will mean, the state is one the machine reaches. */
    ghost predicate Sound()
      reads this, dms, dms.Maps(), dms.Families(), MetricsIn(dms.Families()), AllPairsIn(dms.Families())
    {
      forall q :: |q| == |queue| ==> M.Reachable(config, Abs(q))
    }

    ghost predicate Valid()
      reads *
    {
      HeapReady() && FilesReady() && Sound() && config.started >= 0
    }

    /** The loop starts on what was read from the file. */
    constructor (config: M.Config, predefinedHelp: map<string, string>, image: Store<Family>)
      requires image == config.restored && NamedByKey(image) && config.started >= 0
      ensures Valid() && fresh(dms) && this.config == config && dms.Deep() == config.restored
      ensures dms.predefinedHelp == predefinedHelp
      ensures forall q :: |q| == |queue| ==> Abs(q) == M.Initial(config)
    {
      hide DeepOf, NamedByKey, FamiliesIn, DistinctMaps, Ready, M.Reachable, ShallowOf;
      var restored := DecodeStore(image, predefinedHelp);
      ghost var store := restored.Shallow();
      label decoded:
      this.config, dms := config, restored;
      queue, mode, lastPersist, lastWrite, persistScheduled := [], AtHead, config.started, 0, false;
      inProgress, file, closing := map[], image, false;
      timers, hand, finalImage, clock := [], map[], M.Image(image, 0, 0), config.started;
      processed, stamps, filePrefix, late, readers, received, closed := [], [], 0, false, [], [], 0;
      known := FamiliesIn(store);
      new;
      assert dms.Shallow() == store;
      SparedStore@decoded(store);
      StartReady(dms);
      Starts(config, Abs([]));
    }

    ghost predicate Tick(t: Time)
      reads this
    {
      if config.ticking then clock < t else clock <= t
    }

    /** Whatever the queued requests mean, the loop has made this step. */
    twostate predicate Steps(a: M.Action)
      reads this, dms, dms.Maps(), dms.Families(), MetricsIn(dms.Families()), AllPairsIn(dms.Families())
    {
      |queue| == |old(queue)| && forall q :: |q| == |queue| ==> Moved(config, old(Abs(q)), a, Abs(q))
    }

    twostate lemma SoundStep(new a: M.Action)
      requires old(Sound()) && Steps(a)
      ensures Sound()
    {
      hide Moved, M.Reachable, Abs;
      forall q | |q| == |queue| ensures M.Reachable(config, Abs(q)) {
        Advance(config, old(Abs(q)), a, Abs(q));
      }
    }

    /** A step that writes nothing but this object. */
    twostate lemma ThisOnly()
      requires old(HeapReady()) && SameObjects()
      requires Unwritten(dms) && forall m: MetricsMap :: old(allocated(m)) ==> Unwritten(m)
      requires forall m: FamilyMap :: old(allocated(m)) ==> Unwritten(m)
      requires forall d: DoneChannel :: old(allocated(d)) ==> Unwritten(d)
      requires forall f: MetricFamily :: old(allocated(f)) ==> Unwritten(f)
      requires forall m: Metric :: old(allocated(m)) ==> Unwritten(m)
      requires forall p: LabelPair :: old(allocated(p)) ==> Unwritten(p)
      ensures HeapReady() && dms.Deep() == old(dms.Deep())
    {
      hide Ready, HandReady, DeepOf, OnRecord;
      ReadyStays(dms, known, queue, readers);
      RecordStays(config.own, config.restored, received, Writes(), queue, closed);
      if mode.InHand? { HandStays(dms, config.own, known, queue, mode.wr, mode.ok, hand); }
    }

    twostate predicate SameObjects()
      reads this
    {
      SameRecord() && queue == old(queue) && known == old(known)
      && (mode.InHand? <==> old(mode).InHand?) && (mode.AtHead? ==> old(mode).AtHead?)
      && (mode.InHand? ==> mode == old(mode) && hand == old(hand))
      && processed == old(processed)
    }

    /** Nobody has submitted or read anything, and no channel has been closed. */
    twostate predicate SameRecord()
      reads this
    {
      readers == old(readers) && received == old(received) && closed == old(closed)
    }

    /** The same step for every store. */
    twostate predicate FieldSteps(a: M.Action)
      reads this
    {
      SameObjects() && AllMove(config, old(AbsFields()), a, AbsFields())
    }

    /** A step that writes nothing but this object. */
    twostate lemma FieldsDone(new a: M.Action)
      requires old(Valid()) && SameObjects() && MoveAt(config, old(AbsFields()), a, AbsFields(), old(dms.Deep()))
      requires Unwritten(dms) && forall m: MetricsMap :: old(allocated(m)) ==> Unwritten(m)
      requires forall m: FamilyMap :: old(allocated(m)) ==> Unwritten(m)
      requires forall d: DoneChannel :: old(allocated(d)) ==> Unwritten(d)
      requires forall f: MetricFamily :: old(allocated(f)) ==> Unwritten(f)
      requires forall m: Metric :: old(allocated(m)) ==> Unwritten(m)
      requires forall p: LabelPair :: old(allocated(p)) ==> Unwritten(p)
      ensures HeapReady() && Sound() && Steps(a) && dms.Deep() == old(dms.Deep())
    {
      hide HeapReady, DeepOf, Sound, Moved, Filled, AbsFields;
      ThisOnly();
      SoundStep(a);
    }

    // ---------------------------------------------------------- the timer goroutines

    method FireFields(i: nat, t: Time)
      requires FilesReady() && i < |timers| && timers[i].Armed? && timers[i].fireAt <= t && Tick(t)
      modifies this
      ensures FilesReady() && FieldSteps(M.Fire(i, t))
    {
      hide AllMove, NamedByKey;
      timers := timers[i := M.Fired(timers[i].fireAt)];
      clock := t;
      FireMoves(config, old(AbsFields()), i, t);
    }

    method TimerFires(i: nat, t: Time)
      requires Valid() && i < |timers| && timers[i].Armed? && timers[i].fireAt <= t && Tick(t)
      modifies this
      ensures Valid() && SameRecord() && Steps(M.Fire(i, t))
    {
      hide HeapReady, DeepOf, Sound, FilesReady, Steps, Moved;
      FireFields(i, t);
      FieldsDone(M.Fire(i, t));
    }

    method StartFields(i: nat, t: Time)
      requires FilesReady() && i < |timers| && timers[i].Fired? && Tick(t)
      modifies this
      ensures FilesReady() && FieldSteps(M.Start(i, t))
    {
      hide AllMove, NamedByKey;
      timers := timers[i := M.Running(t)];
      clock := t;
      StartMoves(config, old(AbsFields()), i, t);
    }

    method PersistStarts(i: nat, t: Time)
      requires Valid() && i < |timers| && timers[i].Fired? && Tick(t)
      modifies this
      ensures Valid() && SameRecord() && Steps(M.Start(i, t))
    {
      hide HeapReady, DeepOf, Sound, FilesReady, Steps, Moved;
      StartFields(i, t);
      FieldsDone(M.Start(i, t));
    }

    method EncodeFields(i: nat, ok: bool, image: Store<Family>)
      requires FilesReady() && i < |timers| && timers[i].Running? && NamedByKey(image)
      modifies this
      ensures FilesReady() && SameObjects() && MoveAt(config, old(AbsFields()), M.Encode(i, ok), AbsFields(), image)
    {
      hide MoveAt, NamedByKey;
      if ok {
        inProgress := inProgress[i := image];
        timers := timers[i := M.Encoded(timers[i].at, M.Image(image, |processed|, |processed| + |AbsTaken()|))];
      } else {
        timers := timers[i := M.Finished(timers[i].at, None)];
      }
      EncodeMoves(config, old(AbsFields()), i, ok, image);
    }

    /** Encodes the store into a temporary file, wherever the loop is. */
    method PersistEncodes(i: nat, ok: bool)
      requires Valid() && i < |timers| && timers[i].Running?
      modifies this
      ensures Valid() && SameRecord() && Steps(M.Encode(i, ok))
    {
      hide HeapReady, DeepOf, Sound, FilesReady, Steps, Moved, MoveAt;
      ReadyStore();
      var image := EncodeStore(dms);
      EncodeFields(i, ok, image);
      FieldsDone(M.Encode(i, ok));
    }

    lemma ReadyStore()
      requires HeapReady()
      ensures dms.Valid() && NamedByKey(dms.Deep())
    {}

    method RenameFields(i: nat, ok: bool)
      requires FilesReady() && i < |timers| && timers[i].Encoded?
      modifies this
      ensures FilesReady() && SameObjects()
      ensures timers == old(timers)[i := M.Finished(old(timers)[i].at, if ok then Some(old(timers)[i].image) else None)]
      ensures file == if ok then old(timers)[i].image.store else old(file)
      ensures filePrefix == if ok then old(timers)[i].image.prefix else old(filePrefix)
      ensures AbsFields() == old(AbsFields()).(timers := timers, file := file, filePrefix := filePrefix)
    {
      hide NamedByKey, ImagesReady, PhaseOf;
      ghost var x := M.Finished(timers[i].at, if ok then Some(timers[i].image) else None);
      ImageGone(timers, inProgress, i, x);
      if ok {
        file := inProgress[i];
        filePrefix := timers[i].image.prefix;
      }
      inProgress := inProgress - {i};
      timers := timers[i := x];
    }

    /** Renames the temporary file over the persistence file, or fails. */
    method PersistRenames(i: nat, ok: bool)
      requires Valid() && i < |timers| && timers[i].Encoded?
      modifies this
      ensures Valid() && SameRecord() && Steps(M.Rename(i, ok))
    {
      hide HeapReady, DeepOf, Sound, FilesReady, Steps, Moved;
      RenameFields(i, ok);
      RenameMoves(config, old(AbsFields()), i, ok);
      FieldsDone(M.Rename(i, ok));
    }

    // ---------------------------------------------------------- the loop

    /** Sets a timer if a persist is due. */
    method CheckPersist(now: Time)
      modifies this`persistScheduled, this`timers
      ensures AbsFields() == M.Checked(config, old(AbsFields()), now)
      ensures old(FilesReady()) ==> FilesReady()
    {
      hide ImagesReady, NamedByKey;
      if config.hasFile && !persistScheduled && lastWrite > lastPersist {
        var delay := config.interval - (lastWrite - lastPersist);
        if ImagesReady(timers, inProgress) { TimerAdded(timers, inProgress, if delay > 0 then now + delay else now); }
        timers := timers + [M.Armed(if delay > 0 then now + delay else now)];
        persistScheduled := true;
      }
    }

    /** A persist reports the time at which it started. */
    method ReportFields(i: nat, persistStarted: Time, t: Time)
      requires FilesReady() && mode.AtHead? && i < |timers| && timers[i].Finished? && persistStarted == timers[i].at && Tick(t)
      modifies this
      ensures FilesReady() && FieldSteps(M.Report(i, t))
    {
      hide NamedByKey, AllMove, M.Checked, ImagesReady;
      ImageGone(timers, inProgress, i, M.Reported(timers[i].at, timers[i].saved));
      lastPersist := persistStarted;
      persistScheduled := false;
      timers := timers[i := M.Reported(timers[i].at, timers[i].saved)];
      clock := t;
      CheckPersist(t);
      ReportMoves(config, old(AbsFields()), i, t, old(AbsSchedule()).(lastPersist := persistStarted, persistScheduled := false));
    }

    method TakeReport(i: nat, persistStarted: Time, t: Time)
      requires Valid() && mode.AtHead? && i < |timers| && timers[i].Finished? && persistStarted == timers[i].at && Tick(t)
      modifies this
      ensures Valid() && SameRecord() && Steps(M.Report(i, t))
    {
      hide HeapReady, DeepOf, Sound, FilesReady, Steps, Moved;
      ReportFields(i, persistStarted, t);
      FieldsDone(M.Report(i, t));
    }

    method StampHead(t: Time)
      requires FilesReady()
      modifies this
      ensures FilesReady() && SameObjects() && mode == old(mode) && hand == old(hand)
      ensures AbsFields() == old(AbsFields()).(schedule := old(AbsSchedule()).(lastWrite := t), clock := t, stamps := old(stamps) + [t])
    {
      lastWrite := t;
      clock := t;
      stamps := stamps + [t];
    }

    method HoldHead(ok: bool, ghost sane: map<string, Family>, ghost more: set<MetricFamily>)
      requires FilesReady() && mode.AtHead? && queue != []
      modifies this`mode, this`queue, this`hand, this`known
      ensures FilesReady() && queue == old(queue)[1..] && mode == InHand(old(queue)[0], ok) && hand == sane && known == more
      ensures Writes() == old(processed) + [WriteOf(old(queue)[0], sane)]
      ensures AbsFields() == old(AbsFields()).(phase := M.Phase.Stamped(WriteOf(old(queue)[0], sane)))
    {
      hide ImagesReady;
      mode := InHand(queue[0], ok);
      queue := queue[1..];
      hand, known := sane, more;
    }

    /** Whatever the requests after the first mean, the loop has taken the first, which means `w`. */
    twostate predicate Takes(a: M.Action, w: Write)
      reads this, dms, dms.Maps(), dms.Families(), MetricsIn(dms.Families()), AllPairsIn(dms.Families())
    {
      |queue| + 1 == |old(queue)| && forall q :: |q| == |queue| ==> Moved(config, old(Abs([w] + q)), a, Abs(q))
    }

    twostate lemma WasReachable(new q: seq<Write>)
      requires old(Sound()) && |q| == |old(queue)|
      ensures M.Reachable(config, old(Abs(q)))
    {
      hide M.Reachable, Abs;
    }

    twostate lemma TookAt(new a: M.Action, new w: Write, new q: seq<Write>)
      requires Takes(a, w) && |q| == |queue|
      ensures |[w] + q| == |old(queue)| && Moved(config, old(Abs([w] + q)), a, Abs(q))
    {
      hide Moved, Abs;
    }

    twostate lemma ReachTake(new a: M.Action, new w: Write, new q: seq<Write>)
      requires old(Sound()) && Takes(a, w) && |q| == |queue|
      ensures M.Reachable(config, Abs(q))
    {
      hide Sound, Takes, Moved, M.Reachable, Abs;
      var p := [w] + q;
      TookAt(a, w, q);
      WasReachable(p);
      Advance(config, old(Abs(p)), a, Abs(q));
    }

    twostate lemma SoundTake(new a: M.Action, new w: Write)
      requires old(Sound()) && Takes(a, w)
      ensures Sound()
    {
      hide Takes, Moved, M.Reachable, Abs;
      forall q | |q| == |queue| ensures M.Reachable(config, Abs(q)) { ReachTake(a, w, q); }
    }

    twostate lemma TakeDone(new t: Time, new w: Write)
      requires old(Sound()) && old(mode).AtHead? && old(Tick(t)) && |queue| + 1 == |old(queue)| && dms.Deep() == old(dms.Deep())
      requires AbsFields() == old(AbsFields()).(phase := M.Phase.Stamped(w), schedule := old(AbsSchedule()).(lastWrite := t),
                                                clock := t, stamps := old(stamps) + [t])
      ensures Takes(M.Take(t), w) && Sound()
    {
      hide Moved, DeepOf, Sound, Filled;
      TakeMoves(config, old(AbsFields()), t, w, dms.Deep());
      SoundTake(M.Take(t), w);
    }

    /** The request at the head has been checked: it goes into hand. */
    method Hold(ok: bool, ghost sane: map<string, Family>, ghost more: set<MetricFamily>)
      requires FilesReady() && mode.AtHead? && queue != [] && Ready(dms, more, queue[1..], readers)
      requires HandReady(config.own, dms, more, queue[1..], queue[0], ok, sane)
      requires OnRecord(config.own, config.restored, received, processed + [WriteOf(queue[0], sane)], queue[1..], closed)
      requires closed == |processed| && closed < |received| && received[closed].wr == queue[0]
      modifies this
      ensures FilesReady() && HeapReady() && queue == old(queue)[1..] && readers == old(readers)
      ensures received == old(received) && closed == old(closed)
      ensures mode == InHand(old(queue)[0], ok) && hand == sane && dms.Deep() == old(dms.Deep())
      ensures ok <==> Accepts(config.own, dms.Deep(), WriteOf(mode.wr, hand))
      ensures AbsFields() == old(AbsFields()).(phase := M.Phase.Stamped(WriteOf(old(queue)[0], sane)))
    {
      hide DeepOf, FilesReady, Ready, HandReady, AbsFields, Accepts, OnRecord, Writes;
      ghost var wr, rest, writes := queue[0], queue[1..], processed + [WriteOf(queue[0], sane)];
      HoldHead(ok, sane, more);
      ReadyStays(dms, more, rest, readers);
      HandStays(dms, config.own, more, rest, wr, ok, sane);
      HandVerdict(config.own, dms, more, rest, wr, ok, sane);
      RecordStays(config.own, config.restored, received, writes, rest, closed);
    }

    /** Stamps the request at the head, and checks it. */
    method StampAndCheck(t: Time) returns (ok: bool, ghost sane: map<string, Family>, ghost more: set<MetricFamily>)
      requires Valid() && mode.AtHead? && queue != [] && Tick(t)
      modifies this, queue[0].families, queue[0].Metrics(), queue[0].Pairs(), queue[0].done
      ensures FilesReady() && queue == old(queue) && mode.AtHead? && readers == old(readers) && Ready(dms, more, queue[1..], readers)
      ensures HandReady(config.own, dms, more, queue[1..], queue[0], ok, sane) && dms.Deep() == old(dms.Deep())
      ensures received == old(received) && closed == old(closed) == |processed| < |received| && received[closed].wr == queue[0]
      ensures OnRecord(config.own, config.restored, received, processed + [WriteOf(queue[0], sane)], queue[1..], closed)
      ensures AbsFields() == old(AbsFields()).(schedule := old(AbsSchedule()).(lastWrite := t), clock := t, stamps := old(stamps) + [t])
      ensures Means(queue[0], old(Raw(queue[0])), WriteOf(queue[0], sane))
      ensures queue[0].done != null ==> queue[0].done.events == old(queue[0].done.events) + if ok then [] else [ErrorSent]
    {
      hide DeepOf, Sound, FilesReady, Ready, HandReady, Means, AbsFields, Accepts, Raw, OnRecord, Writes, Intact, Fold, FamiliesIn,
           ShallowOf;
      FileIsFold();
      StampHead(t);
      ThisOnly();
      label stamped:
      ok, sane, more := CheckHead(dms, queue, config.own, known, readers);
      HandVerdict(config.own, dms, more, queue[1..], queue[0], ok, sane);
      HeadTaken@stamped(WriteOf(queue[0], sane), ok);
    }

    /** Takes a request from the queue, stamps it, and checks it. */
    method TakeRequest(t: Time)
      requires Valid() && mode.AtHead? && queue != [] && Tick(t)
      modifies this, queue[0].families, queue[0].Metrics(), queue[0].Pairs(), queue[0].done
      ensures Valid() && SameRecord()
      ensures mode.InHand? && mode.wr == old(queue[0])
      ensures Means(mode.wr, old(Raw(queue[0])), WriteOf(mode.wr, hand)) && Takes(M.Take(t), WriteOf(mode.wr, hand))
      ensures mode.ok <==> Accepts(config.own, old(dms.Deep()), WriteOf(mode.wr, hand))
      ensures mode.wr.done != null ==>
                mode.wr.done.events == old(queue[0].done.events) + if mode.ok then [] else [ErrorSent]
    {
      hide DeepOf, Sound, FilesReady, Ready, HandReady, Means, Takes, AbsFields, Accepts, Raw, OnRecord, Writes, HeapReady;
      var ok;
      ghost var sane, more;
      ok, sane, more := StampAndCheck(t);
      Hold(ok, sane, more);
      TakeDone(t, WriteOf(mode.wr, hand));
    }

    /** The request at the head has been checked. */
    twostate lemma HeadTaken(new w: Write, new ok: bool)
      requires old(OnRecord(config.own, config.restored, received, Writes(), queue, closed)) && old(!mode.InHand?) && queue != []
      requires queue == old(queue) && received == old(received) && processed == old(processed) && closed == old(closed)
      requires Means(queue[0], old(Raw(queue[0])), w)
      requires ok <==> Accepts(config.own, Fold(config.own, config.restored, processed), w)
      requires queue[0].done != null ==> queue[0].done.events == old(queue[0].done.events) + if ok then [] else [ErrorSent]
      requires forall d: DoneChannel :: old(allocated(d)) && d != queue[0].done ==> Unwritten(d)
      requires forall j :: 0 <= j < |queue[1..]| ==> Intact(queue[1..][j])
      ensures OnRecord(config.own, config.restored, received, processed + [w], queue[1..], closed)
      ensures |processed| < |received| && received[|processed|].wr == queue[0]
    {
      hide Means, AllTold, Accepts, Fold, Raw;
      assert processed + [] == processed;
      assert received[|processed| + 0].wr == queue[0];
      forall j | 0 <= j < |queue[1..]| ensures Raw(queue[1..][j]) == old(Raw(queue[1..][j])) {
        assert Intact(queue[1..][j]);
      }
      RecordTaken(config.own, config.restored, received, processed, queue, closed, w, ok);
    }

    method BackToHead(t: Time, ghost w: Write, ghost more: set<MetricFamily>)
      requires FilesReady() && mode.InHand?
      modifies this`mode, this`clock, this`processed, this`known, this`closed
      ensures FilesReady() && mode == AtHead && known == more && processed == old(processed) + [w] && closed == old(closed) + 1
      ensures AbsFields() == old(AbsFields()).(phase := M.Idle, processed := old(processed) + [w], clock := t)
    {
      hide ImagesReady;
      mode := AtHead;
      clock := t;
      processed, known, closed := processed + [w], more, closed + 1;
    }

    twostate lemma PerformDone(new t: Time, new w: Write)
      requires old(Sound()) && old(mode).InHand? && w == old(WriteOf(mode.wr, hand)) && old(Tick(t)) && |queue| == |old(queue)|
      requires dms.Deep() == Apply(config.own, old(dms.Deep()), w)
      requires AbsFields() == M.Checked(config, old(AbsFields()).(phase := M.Idle, processed := old(processed) + [w], clock := t), t)
      ensures Steps(M.Perform(t)) && Sound()
    {
      hide Moved, DeepOf, Sound, Filled, Apply, M.Checked;
      PerformMoves(config, old(AbsFields()), t, w, old(dms.Deep()));
      SoundStep(M.Perform(t));
    }

    /** The request in hand has been applied: the loop goes back to its head. */
    method GoBack(t: Time, ghost w: Write, ghost more: set<MetricFamily>)
      requires FilesReady() && mode.InHand? && w == WriteOf(mode.wr, hand) && Ready(dms, more, queue, readers)
      requires OnRecord(config.own, config.restored, received, processed + [w], queue, closed + 1) && closed == |processed|
      modifies this
      ensures FilesReady() && HeapReady() && queue == old(queue) && readers == old(readers) && received == old(received)
      ensures closed == old(closed) + 1
      ensures mode == AtHead && dms.Deep() == old(dms.Deep())
      ensures AbsFields() == M.Checked(config, old(AbsFields()).(phase := M.Idle, processed := old(processed) + [w], clock := t), t)
    {
      hide DeepOf, FilesReady, Ready, HandReady, AbsFields, OnRecord, Writes, M.Checked;
      ghost var writes := processed + [w];
      BackToHead(t, w, more);
      CheckPersist(t);
      NothingHeld();
      ReadyStays(dms, more, queue, readers);
      RecordStays(config.own, config.restored, received, writes, queue, closed);
    }

    /** Carries out the verdict on the request in hand, closes its channel, and sets a timer if one is
        due. */
    method PerformRequest(t: Time)
      requires Valid() && mode.InHand? && Tick(t)
      modifies this, dms`metricGroups, dms.Maps(), mode.wr.families, mode.wr.done
      ensures Valid() && readers == old(readers) && received == old(received)
      ensures queue == old(queue) && mode.AtHead? && closed == old(closed) + 1 && Steps(M.Perform(t))
      ensures old(mode).wr.done != null ==> old(mode).wr.done.events == old(mode.wr.done.events) + [Closed]
    {
      hide DeepOf, Sound, FilesReady, Ready, HandReady, Steps, AbsFields, Apply, OnRecord, Intact;
      var wr := mode.wr;
      ghost var w := WriteOf(wr, hand);
      ghost var more := FinishHand(dms, queue, config.own, wr, mode.ok, false, known, readers, hand);
      HandClosed();
      GoBack(t, w, more);
      PerformDone(t, w);
    }

    /** The channel of the request in hand has been closed. */
    twostate lemma HandClosed()
      requires old(HeapReady()) && old(mode).InHand? && mode == old(mode) && hand == old(hand)
      requires queue == old(queue) && received == old(received) && processed == old(processed) && closed == old(closed)
      requires mode.wr.done != null ==> mode.wr.done.events == old(mode.wr.done.events) + [Closed]
      requires forall d: DoneChannel :: old(allocated(d)) && d != mode.wr.done ==> Unwritten(d)
      requires forall j :: 0 <= j < |queue| ==> Intact(queue[j])
      ensures OnRecord(config.own, config.restored, received, Writes(), queue, closed + 1)
    {
      hide Ready, HandReady, OnRecord, Raw;
      forall j | 0 <= j < |queue| ensures Raw(queue[j]) == old(Raw(queue[j])) { assert Intact(queue[j]); }
      RecordClosed(config.own, config.restored, received, Writes(), queue, closed);
    }

    // ---------------------------------------------------------- submitting

    /** A request that shares nothing with what the loop knows. */
    ghost predicate Strange(wr: WriteRequest)
      reads *
    {
      && Queued(known, wr) && (forall j :: 0 <= j < |queue| ==> RequestsApart(queue[j], wr))
      && (mode.InHand? ==> OwnObjects(mode.wr, wr))
      && (wr.done != null ==> wr.done.events == [] && forall i :: 0 <= i < |received| ==> received[i].wr.done != wr.done)
    }

    /** Whatever the queued requests mean, the loop has queued one more. */
    twostate predicate Submits()
      reads this, dms, dms.Maps(), dms.Families(), MetricsIn(dms.Families()), AllPairsIn(dms.Families())
    {
      |queue| == |old(queue)| + 1 && forall q :: |q| == |queue| ==>
        Moved(config, old(Abs(q[..|q| - 1])), M.Submit(q[|q| - 1]), Abs(q))
    }

    method SubmitFields(wr: WriteRequest)
      requires FilesReady()
      modifies this`received, this`queue, this`late
      ensures FilesReady() && queue == old(queue) + [wr]
      ensures received == old(received) + [Received(wr, old(Raw(wr)))] && Writes() == old(Writes())
      ensures AbsFields() == old(AbsFields()).(late := old(late) || old(closing))
    {
      hide ImagesReady, PhaseOf;
      received := received + [Received(wr, Raw(wr))];
      queue := queue + [wr];
      late := late || closing;
    }

    twostate lemma SubmitDone()
      requires old(Sound()) && |queue| == |old(queue)| + 1 && dms.Deep() == old(dms.Deep())
      requires AbsFields() == old(AbsFields()).(late := old(late) || old(closing))
      ensures Submits() && Sound()
    {
      hide Moved, DeepOf, Filled, M.Reachable;
      forall q | |q| == |queue|
        ensures Moved(config, old(Abs(q[..|q| - 1])), M.Submit(q[|q| - 1]), Abs(q)) && M.Reachable(config, Abs(q))
      {
        SubmitMoves(config, old(AbsFields()), dms.Deep(), q);
        Advance(config, old(Abs(q[..|q| - 1])), M.Submit(q[|q| - 1]), Abs(q));
      }
    }

    lemma HandSeesMore(wr: WriteRequest)
      requires HeapReady() && Strange(wr)
      ensures Ready(dms, known, queue + [wr], readers)
      ensures OnRecord(config.own, config.restored, received + [Received(wr, Raw(wr))], Writes(), queue + [wr], closed)
      ensures mode.InHand? ==> HandReady(config.own, dms, known, queue + [wr], mode.wr, mode.ok, hand)
    {
      hide DeepOf, RequestsApart, AllAvoid, Forest, Accepts, DeepFamilies, Completed, ReadersReady, StoreReady, OnRecord, Raw, Writes;
      QueueGrows(known, queue, wr);
      RecordOneMore(config.own, config.restored, received, Writes(), queue, closed, wr);
    }

    /** Puts a request into the queue, at any time. */
    method SubmitWriteRequest(wr: WriteRequest)
      requires Valid() && Strange(wr)
      modifies this
      ensures Valid() && readers == old(readers) && received == old(received) + [Received(wr, old(Raw(wr)))]
      ensures queue == old(queue) + [wr] && mode == old(mode) && closed == old(closed) && Submits()
    {
      hide DeepOf, Sound, FilesReady, Ready, HandReady, Submits, AbsFields, Strange, Raw, OnRecord, Writes;
      HandSeesMore(wr);
      ghost var more, all := queue + [wr], received + [Received(wr, Raw(wr))];
      SubmitFields(wr);
      RecordStays(config.own, config.restored, all, old(Writes()), more, closed);
      ReadyStays(dms, known, more, readers);
      if mode.InHand? { HandStays(dms, config.own, known, more, mode.wr, mode.ok, hand); }
      SubmitDone();
    }

    /** New objects share nothing with what the loop knows. */
    twostate lemma NewIsStrange(new wr: WriteRequest)
      requires IsNew(wr) && SameObjects() && mode == old(mode) && (wr.done != null ==> wr.done.events == [])
      requires forall m: FamilyMap :: old(allocated(m)) ==> Unwritten(m)
      requires forall f: MetricFamily :: old(allocated(f)) ==> Unwritten(f)
      requires forall m: Metric :: old(allocated(m)) ==> Unwritten(m)
      ensures Strange(wr)
    {
      hide IsNew, Queued, RequestsApart;
      NewIsQueued(known, wr);
      forall j | 0 <= j < |queue| ensures RequestsApart(queue[j], wr) { NewIsApart(queue[j], wr); }
      NewParts(wr);
      if wr.done != null {
        forall i | 0 <= i < |received| ensures received[i].wr.done != wr.done { assert old(allocated(received[i])); }
      }
      if mode.InHand? {
        NewIsApart(mode.wr, wr);
        ApartObjects(mode.wr, wr);
      }
    }

    /** A handler submits a request whose families have just been decoded. */
    method Receive(labels: Labels, timestamp: Time, families: Option<map<string, Family>>, replace: bool, checked: bool)
      returns (wr: WriteRequest)
      requires Valid() && (families.Some? ==> NamedFamilies(families.value))
      modifies this
      ensures Valid() && readers == old(readers) && received == old(received) + [Received(wr, Raw(wr))]
      ensures queue == old(queue) + [wr] && mode == old(mode) && closed == old(closed) && Submits()
      ensures wr.labels == labels && wr.timestamp == timestamp && wr.replace == replace
      ensures (wr.families != null <==> families.Some?) && (families.Some? ==> Raw(wr) == families.value)
      ensures (wr.done != null <==> checked) && (checked ==> wr.done.events == [])
    {
      hide DeepOf, Sound, FilesReady, HeapReady, Moved, AbsFields, Abs, Strange, Forest, DeepFamilies, IsNewGauge, Writes;
      wr := NewRequest(labels, timestamp, families, replace, checked);
      NewIsStrange(wr);
      ThisOnly();
      NothingMoved();
      assert families.Some? ==> Raw(wr) == families.value;
      label made:
      SubmitWriteRequest(wr);
      RawStays@made(wr);
      forall q | |q| == |queue| ensures Moved(config, old(Abs(q[..|q| - 1])), M.Submit(q[|q| - 1]), Abs(q)) {
        assert old@made(Abs(q[..|q| - 1])) == old(Abs(q[..|q| - 1]));
      }
    }

    // ---------------------------------------------------------- reading

    method NoteReader(ghost r: Reader, ghost more: set<MetricFamily>)
      requires FilesReady()
      modifies this
      ensures FilesReady() && queue == old(queue) && mode == old(mode) && hand == old(hand)
      ensures known == more && readers == old(readers) + [r] && AbsFields() == old(AbsFields())
      ensures received == old(received) && Writes() == old(Writes()) && processed == old(processed) && closed == old(closed)
    {
      known, readers := more, readers + [r];
    }

    /** What a reader gets at any time: a copy of the maps, and the merged families. */
    method Read() returns (snapshot: GroupMap, gathered: seq<MetricFamily>, ghost order: seq<string>, ghost names: seq<string>)
      requires Valid()
      modifies this
      ensures Valid() && Enumerates(order, old(dms.Deep()).Keys)
      ensures MergedFamilies(old(dms.Deep()), order, names, ValuesOf(gathered))
      ensures forall i :: 0 <= i < |gathered| ==>
                var f := ValuesOf(gathered)[i];
                if f.name in dms.predefinedHelp then f.help == dms.predefinedHelp[f.name]
                else exists k :: k in old(dms.Deep()) && f.name in old(dms.Deep())[k].metrics
                                 && f.help == old(dms.Deep())[k].metrics[f.name].family.help
      ensures received == old(received) && closed == old(closed)
      ensures readers == old(readers) + [Reader(snapshot, gathered, old(dms.Deep()), ValuesOf(gathered))]
      ensures queue == old(queue) && mode == old(mode) && forall q :: |q| == |queue| ==> Abs(q) == old(Abs(q))
    {
      hide DeepOf, Sound, FilesReady, Ready, HandReady, AbsFields, Abs, MergedFamilies, Enumerates, ValuesOf, OnRecord, Writes;
      ghost var more, r;
      snapshot, gathered, order, names, more, r := ReadStore(dms, known, queue, readers);
      if mode.InHand? { HandStays(dms, config.own, known, queue, mode.wr, mode.ok, hand); }
      label read:
      ghost var all := readers + [r];
      NoteReader(r, more);
      ReadyStays@read(dms, more, queue, all);
      HeldAsRead(dms, more, queue, all, |all| - 1);
      RecordStays(config.own, config.restored, received, old(Writes()), queue, closed);
      if mode.InHand? {
        HandStays@read(dms, config.own, old(known), queue, mode.wr, mode.ok, hand);
        HandKnowsMore(dms, config.own, old(known), more, queue, mode.wr, mode.ok, hand);
      }
      NothingMoved();
    }

    twostate lemma NothingMoved()
      requires old(Sound()) && queue == old(queue) && dms.Deep() == old(dms.Deep()) && AbsFields() == old(AbsFields())
      ensures Sound() && forall q :: |q| == |queue| ==> Abs(q) == old(Abs(q))
    {
      hide DeepOf, M.Reachable, Filled;
      forall q | |q| == |queue| ensures M.Reachable(config, Abs(q)) && Abs(q) == old(Abs(q)) {
        assert old(M.Reachable(config, Abs(q)));
      }
    }

    // ---------------------------------------------------------- shutting down

    method ShutdownFields()
      requires FilesReady() && !closing
      modifies this
      ensures FilesReady() && FieldSteps(M.Shutdown)
    {
      hide AllMove, NamedByKey;
      closing := true;
      ShutdownMoves(config, old(AbsFields()));
    }

    method Shutdown()
      requires Valid() && !closing
      modifies this
      ensures Valid() && SameRecord() && Steps(M.Shutdown)
    {
      hide HeapReady, DeepOf, Sound, FilesReady, Steps, Moved;
      ShutdownFields();
      FieldsDone(M.Shutdown);
    }

    method BeginDrainFields()
      requires FilesReady() && mode.AtHead? && closing
      modifies this
      ensures FilesReady() && FieldSteps(M.Drain) && mode.Leaving?
    {
      hide AllMove, NamedByKey;
      mode := Leaving;
      timers := M.StopTimer(timers);
      BeginDrainMoves(config, old(AbsFields()));
    }

    /** Stops the timer that is set, and begins to drain the queue. */
    method BeginDrain()
      requires Valid() && mode.AtHead? && closing
      modifies this
      ensures Valid() && SameRecord() && mode.Leaving? && Steps(M.Drain)
    {
      hide HeapReady, DeepOf, Sound, FilesReady, Steps, Moved;
      BeginDrainFields();
      FieldsDone(M.Drain);
    }

    method DropHead(ghost w: Write, ghost more: set<MetricFamily>)
      requires FilesReady() && mode.Leaving? && queue != []
      modifies this`queue, this`processed, this`known
      ensures FilesReady() && queue == old(queue)[1..] && known == more && processed == old(processed) + [w]
      ensures AbsFields() == old(AbsFields()).(processed := old(processed) + [w])
    {
      hide ImagesReady;
      queue := queue[1..];
      processed, known := processed + [w], more;
    }

    twostate lemma DrainDone(new w: Write)
      requires old(Sound()) && old(mode).Leaving? && |queue| + 1 == |old(queue)|
      requires dms.Deep() == Apply(config.own, old(dms.Deep()), w)
      requires AbsFields() == old(AbsFields()).(processed := old(processed) + [w])
      ensures Takes(M.DrainWrite, w) && Sound()
    {
      hide Moved, DeepOf, Sound, Filled, Apply;
      DrainMoves(config, old(AbsFields()), w, old(dms.Deep()));
      SoundTake(M.DrainWrite, w);
    }

    /** The request at the head has been checked and applied. */
    method Drop(ghost w: Write, ghost more: set<MetricFamily>)
      requires FilesReady() && mode.Leaving? && queue != [] && Ready(dms, more, queue[1..], readers)
      requires OnRecord(config.own, config.restored, received, processed + [w], queue[1..], closed) && closed <= |processed|
      modifies this
      ensures FilesReady() && HeapReady() && queue == old(queue)[1..] && readers == old(readers) && received == old(received)
      ensures closed == old(closed)
      ensures mode == Leaving && dms.Deep() == old(dms.Deep())
      ensures AbsFields() == old(AbsFields()).(processed := old(processed) + [w])
    {
      hide DeepOf, FilesReady, Ready, HandReady, AbsFields, OnRecord, Writes;
      ghost var rest, writes := queue[1..], processed + [w];
      DropHead(w, more);
      NothingHeld();
      ReadyStays(dms, more, rest, readers);
      RecordStays(config.own, config.restored, received, writes, rest, closed);
    }

    /** Applying a request without closing its channel. */
    twostate lemma TakenStays(new wr: WriteRequest, new w: Write, new rest: seq<WriteRequest>)
      requires old(allocated(wr)) && old(allocated(rest)) && received == old(received) && closed == old(closed)
      requires old(OnRecord(config.own, config.restored, received, processed + [w], rest, closed)) && processed == old(processed)
      requires wr.done != null ==> wr.done.events == old(wr.done.events)
      requires forall d: DoneChannel :: old(allocated(d)) && d != wr.done ==> Unwritten(d)
      requires forall j :: 0 <= j < |rest| ==> Intact(rest[j])
      ensures OnRecord(config.own, config.restored, received, processed + [w], rest, closed)
    {
      hide OnRecord, Raw;
      forall j | 0 <= j < |rest| ensures Raw(rest[j]) == old(Raw(rest[j])) { assert Intact(rest[j]); }
      forall i | 0 <= i < |received| && received[i].wr.done != null
        ensures received[i].wr.done.events == old(received[i].wr.done.events)
      {
        if received[i].wr.done != wr.done { assert Unwritten(received[i].wr.done); }
      }
      RecordKept(config.own, config.restored, received, processed + [w], rest, closed);
    }

    /** Checks and applies one more request; its channel is not closed. */
    method DrainRequest() returns (ghost w: Write)
      requires Valid() && mode.Leaving? && queue != []
      modifies this, dms`metricGroups, dms.Maps(), queue[0].families, queue[0].Metrics(), queue[0].Pairs(), queue[0].done
      ensures Valid() && SameRecord()
      ensures queue == old(queue)[1..] && mode.Leaving?
      ensures Means(old(queue[0]), old(Raw(queue[0])), w) && Takes(M.DrainWrite, w)
      ensures old(queue[0]).done != null ==>
                old(queue[0]).done.events
                == old(queue[0].done.events) + if Accepts(config.own, old(dms.Deep()), w) then [] else [ErrorSent]
    {
      hide DeepOf, Sound, FilesReady, Ready, HandReady, Means, Takes, AbsFields, Accepts, Raw, Apply, OnRecord, Writes, Intact, Fold;
      FileIsFold();
      var wr, rest := queue[0], queue[1..];
      var ok;
      ghost var sane, more;
      ok, sane, more := CheckHead(dms, queue, config.own, known, readers);
      HandVerdict(config.own, dms, more, rest, wr, ok, sane);
      w := WriteOf(wr, sane);
      HeadTaken(w, ok);
      label checked:
      more := FinishHand(dms, rest, config.own, wr, ok, true, more, readers, sane);
      TakenStays@checked(wr, w, rest);
      Drop(w, more);
      DrainDone(w);
    }

    method FinalEncodeFields(ok: bool, image: Store<Family>)
      requires FilesReady() && mode.Leaving? && NamedByKey(image)
      modifies this
      ensures FilesReady() && SameObjects()
      ensures AbsFields() == old(AbsFields()).(phase := if config.hasFile && ok
                then M.DrainEncoded(M.Image(image, |old(processed)|, |old(processed)|)) else M.Down(false))
    {
      if config.hasFile && ok {
        mode := Writing(image);
        finalImage := M.Image(image, |processed|, |processed|);
      } else {
        mode := Gone(false);
      }
    }

    /** Encodes the store for the last time, when the queue is empty. */
    method FinalEncode(ok: bool)
      requires Valid() && mode.Leaving? && queue == []
      modifies this
      ensures Valid() && SameRecord() && Steps(M.DrainEncode(ok))
    {
      hide HeapReady, DeepOf, Sound, FilesReady, Moved, AbsFields;
      ReadyStore();
      var image := EncodeStore(dms);
      FinalEncodeFields(ok, image);
      ThisOnly();
      FinalEncodeDone(ok);
    }

    twostate lemma FinalEncodeDone(new ok: bool)
      requires old(Sound()) && old(mode).Leaving? && queue == old(queue) == [] && dms.Deep() == old(dms.Deep())
      requires AbsFields() == old(AbsFields()).(phase := if config.hasFile && ok
                 then M.DrainEncoded(M.Image(dms.Deep(), |old(processed)|, |old(processed)|)) else M.Down(false))
      ensures Steps(M.DrainEncode(ok)) && Sound()
    {
      hide Moved, DeepOf, Sound, Filled;
      FinalEncodeMoves(config, old(AbsFields()), ok, dms.Deep());
      forall q | |q| == |queue| ensures Moved(config, old(Abs(q)), M.DrainEncode(ok), Abs(q)) { assert q == []; }
      SoundStep(M.DrainEncode(ok));
    }

    method FinalRenameFields(ok: bool)
      requires FilesReady() && mode.Writing?
      modifies this
      ensures FilesReady() && FieldSteps(M.DrainRename(ok)) && (ok ==> file == old(mode).image) && late == old(late)
    {
      hide AllMove, NamedByKey;
      if ok {
        file := mode.image;
        filePrefix := finalImage.prefix;
      }
      mode := Gone(ok);
      FinalRenameMoves(config, old(AbsFields()), ok);
    }

    /** The final image holds everything, unless something was submitted after the shutdown. */
    lemma FinalIsComplete()
      requires Valid() && mode.Writing? && !late
      ensures queue == [] && |received| == |processed| && mode.image == Fold(config.own, config.restored, processed)
    {
      hide DeepOf, M.Reachable, Fold, Ready, Raw, Means, M.Enabled, AllTold;
      var q := seq(|queue|, i => Delete(map[]));
      ShuttingDown.ShutdownSaves(config, Abs(q));
      ShuttingDown.ReachableDrained(config, Abs(q));
      ShuttingDown.FinalImage(config, Abs(q));
    }

    /** Renames the final image over the file, or fails. If it succeeds and nothing was submitted after
        the shutdown, the file holds every request received. */
    method FinalRename(ok: bool)
      requires Valid() && mode.Writing?
      modifies this
      ensures Valid() && SameRecord() && Steps(M.DrainRename(ok))
      ensures ok && !late ==> |received| == |processed| && file == Fold(config.own, config.restored, processed)
    {
      hide HeapReady, DeepOf, Sound, FilesReady, Steps, Moved, Fold;
      if !late { FinalIsComplete(); }
      FinalRenameFields(ok);
      FieldsDone(M.DrainRename(ok));
    }

    // ---------------------------------------------------------- what holds at every moment

    /** Whatever the loop, its timers and its clients have done, in any order: the store is the fold
        of the requests processed, which are the first ones received, each as its client submitted it;
        the file is the fold of a prefix of them; and what any reader was ever given means what it
        meant. */
    lemma LoopIsSafe()
      requires Valid()
      ensures dms.Deep() == Fold(config.own, config.restored, processed)
      ensures |received| == |processed| + |AbsTaken()| + |queue|
      ensures forall i :: 0 <= i < |processed| ==> Means(received[i].wr, received[i].raw, processed[i])
      ensures filePrefix <= |processed| && file == Fold(config.own, config.restored, processed[..filePrefix])
      ensures forall i :: 0 <= i < |readers| ==>
                DeepOf(ShallowOf(readers[i].snapshot)) == readers[i].store && ValuesOf(readers[i].gathered) == readers[i].values
    {
      hide DeepOf, ValuesOf, ShallowOf, Ready, HandReady, FilesReady, M.Reachable, Fold, Means, Raw, AllTold;
      FileIsFold();
      assert forall i :: 0 <= i < |processed| ==> Writes()[i] == processed[i];
      forall i | 0 <= i < |readers|
        ensures DeepOf(ShallowOf(readers[i].snapshot)) == readers[i].store && ValuesOf(readers[i].gathered) == readers[i].values
      {
        HeldAsRead(dms, known, queue, readers, i);
      }
    }

    /** What the client of the request in place `i` has been told so far: nothing while the request
        waits, an error if it is rejected, and the close if it was processed before the drain. */
    lemma ToldAs(i: nat)
      requires Valid() && i < |received|
      ensures closed <= |processed| && (mode.AtHead? || mode.InHand? ==> closed == |processed|)
      ensures received[i].wr.done != null ==>
                received[i].wr.done.events == Told(config.own, config.restored, Writes(), closed, i)
      ensures i < closed ==>
                AcceptedAt(config.own, config.restored, Writes(), i) == AcceptedAt(config.own, config.restored, processed, i)
    {
      hide Ready, HandReady, FilesReady, Sound, Told, AsReceived, Accepts, Fold;
      if i < closed { assert Writes()[..i] == processed[..i] && Writes()[i] == processed[i]; }
    }

    lemma FileIsFold()
      requires Sound() && config.started >= 0
      ensures dms.Deep() == Fold(config.own, config.restored, processed)
      ensures filePrefix <= |processed| && file == Fold(config.own, config.restored, processed[..filePrefix])
    {
      hide DeepOf, M.Reachable, Fold;
      var q := seq(|queue|, i => Delete(map[]));
      LoopRuns.ReachableInv(config, Abs(q));
    }
  }

  /** After a crash at any moment a new loop starts on what the file holds: the store after a prefix
      of the requests the old one had processed. */
  method Restart(loop: Loop, now: Time) returns (next: Loop)
    requires loop.Valid() && now >= 0
    ensures fresh(next) && next.Valid() && next.config == loop.config.(restored := loop.file, started := now)
    ensures loop.filePrefix <= |loop.processed| && next.dms.predefinedHelp == loop.dms.predefinedHelp
    ensures next.dms.Deep() == Fold(loop.config.own, loop.config.restored, loop.processed[..loop.filePrefix])
  {
    hide DeepOf, Ready, HandReady, M.Reachable, Fold, NamedByKey;
    loop.FileIsFold();
    next := new Loop(loop.config.(restored := loop.file, started := now), loop.dms.predefinedHelp, loop.file);
  }
}
