/** The store's loop and its timer goroutines as an interleaved state machine: submitting, taking and
    applying requests, persisting in the background, draining on shutdown. */
module LoopMachine {
  import opened Dto
  import opened StoreSpec

  // ------------------------------------------------------------ scheduling of persists

  /** The variables of the loop that decide when to persist. */
  datatype Schedule = Schedule(lastPersist: Time, lastWrite: Time, persistScheduled: bool)

  /** `own` are Pushgateway's own metrics, `restored` is what was read from the file at `started`.
      With `ticking` no two clock readings are equal. */
  datatype Config = Config(own: OwnMetrics, restored: Store<Family>, hasFile: bool, interval: int, started: Time, ticking: bool)

  predicate Due(c: Config, k: Schedule) {
    c.hasFile && !k.persistScheduled && k.lastWrite > k.lastPersist
  }

  /** When a timer set now fires: after the rest of the interval, at once if that is negative. */
  function FireTime(c: Config, k: Schedule, now: Time): Time {
    var delay := c.interval - (k.lastWrite - k.lastPersist);
    if delay > 0 then now + delay else now
  }

  /** A timer fires at once, or an interval after the last persist plus the time the last write took. */
  lemma FireTimeIs(c: Config, k: Schedule, now: Time)
    requires k.lastWrite <= now
    ensures FireTime(c, k, now) >= now && FireTime(c, k, now) >= k.lastPersist + c.interval
    ensures FireTime(c, k, now) == now || FireTime(c, k, now) == k.lastPersist + c.interval + (now - k.lastWrite)
  {}

  // ------------------------------------------------------------ states

  /** An encoded store: what was written, how many requests it reflects, and how many had been taken
      from the queue at the time. */
  datatype Image = Image(store: Store<Family>, prefix: nat, taken: nat)
  {
    /** One request had been stamped but not yet applied. */
    predicate Torn() { prefix < taken }
  }

  /** A timer and the goroutine it starts. A finished one waits to report its start time. */
  datatype Timer =
    | Armed(fireAt: Time)
    | Fired(fireAt: Time)
    | Running(at: Time)
    | Encoded(at: Time, image: Image)
    | Finished(at: Time, saved: Option<Image>)
    | Reported(at: Time, saved: Option<Image>)
    | Stopped

  datatype Phase =
    | Idle
    | Stamped(w: Write)
    | Draining
    | DrainEncoded(image: Image)
    | Down(saved: bool)

  /** `submitted`, `processed`, `stamps`, `filePrefix` and `late` only record what happened; `stamps`
      are the times at which the requests were taken. */
  datatype State = State(
    store: Store<Family>, queue: seq<Write>, phase: Phase, schedule: Schedule, timers: seq<Timer>,
    file: Store<Family>, clock: Time, shutdown: bool,
    submitted: seq<Write>, processed: seq<Write>, stamps: seq<Time>, filePrefix: nat, late: bool)

  function Initial(c: Config): State {
    State(c.restored, [], Idle, Schedule(c.started, 0, false), [], c.restored, c.started, false, [], [], [], 0, false)
  }

  // ------------------------------------------------------------ steps

  datatype Action =
    | Submit(w: Write)
    | Take(t: Time)
    | Perform(t: Time)
    | Fire(i: nat, t: Time)
    | Start(i: nat, t: Time)
    | Encode(i: nat, ok: bool)
    | Rename(i: nat, ok: bool)
    | Report(i: nat, t: Time)
    | Shutdown
    | Drain
    | DrainWrite
    | DrainEncode(ok: bool)
    | DrainRename(ok: bool)

  predicate Later(c: Config, s: State, t: Time) {
    if c.ticking then s.clock < t else s.clock <= t
  }

  ghost predicate Enabled(c: Config, s: State, a: Action) {
    match a
    case Submit(_) => true
    case Take(t) => s.phase.Idle? && s.queue != [] && Later(c, s, t)
    case Perform(t) => s.phase.Stamped? && Later(c, s, t)
    case Fire(i, t) => i < |s.timers| && s.timers[i].Armed? && s.timers[i].fireAt <= t && Later(c, s, t)
    case Start(i, t) => i < |s.timers| && s.timers[i].Fired? && Later(c, s, t)
    case Encode(i, _) => i < |s.timers| && s.timers[i].Running?
    case Rename(i, _) => i < |s.timers| && s.timers[i].Encoded?
    case Report(i, t) => i < |s.timers| && s.timers[i].Finished? && s.phase.Idle? && Later(c, s, t)
    case Shutdown => !s.shutdown
    case Drain => s.phase.Idle? && s.shutdown
    case DrainWrite => s.phase.Draining? && s.queue != []
    case DrainEncode(_) => s.phase.Draining? && s.queue == []
    case DrainRename(_) => s.phase.DrainEncoded?
  }

  /** `checkPersist`. */
  function Checked(c: Config, s: State, now: Time): State {
    if Due(c, s.schedule) then
      s.(schedule := s.schedule.(persistScheduled := true), timers := s.timers + [Armed(FireTime(c, s.schedule, now))])
    else s
  }

  /** A request is applied under the write lock. */
  ghost function Applied(c: Config, s: State, w: Write): State {
    s.(store := Apply(c.own, s.store, w), processed := s.processed + [w])
  }

  /** The store as encoded under the read lock. */
  function ImageOf(s: State): Image { Image(s.store, |s.processed|, |s.processed| + if s.phase.Stamped? then 1 else 0) }

  function Saved(s: State, image: Image): State {
    s.(file := image.store, filePrefix := image.prefix)
  }

  /** `Stop` on the timer set last: it has no effect once the timer has fired. */
  function StopTimer(timers: seq<Timer>): seq<Timer> {
    if timers != [] && timers[|timers| - 1].Armed? then timers[|timers| - 1 := Stopped] else timers
  }

  ghost function Next(c: Config, s: State, a: Action): State
    requires Enabled(c, s, a)
  {
    match a
    case Submit(w) => s.(queue := s.queue + [w], submitted := s.submitted + [w], late := s.late || s.shutdown)
    case Take(t) =>
      s.(queue := s.queue[1..], phase := Phase.Stamped(s.queue[0]), schedule := s.schedule.(lastWrite := t), clock := t,
         stamps := s.stamps + [t])
    case Perform(t) => Checked(c, Applied(c, s, s.phase.w).(phase := Idle, clock := t), t)
    case Fire(i, t) => s.(timers := s.timers[i := Fired(s.timers[i].fireAt)], clock := t)
    case Start(i, t) => s.(timers := s.timers[i := Running(t)], clock := t)
    case Encode(i, ok) =>
      var at := s.timers[i].at;
      s.(timers := s.timers[i := if ok then Encoded(at, ImageOf(s)) else Finished(at, None)])
    case Rename(i, ok) =>
      var at, image := s.timers[i].at, s.timers[i].image;
      var u := s.(timers := s.timers[i := Finished(at, if ok then Some(image) else None)]);
      if ok then Saved(u, image) else u
    case Report(i, t) =>
      var at := s.timers[i].at;
      Checked(c, s.(timers := s.timers[i := Reported(at, s.timers[i].saved)],
                    schedule := s.schedule.(lastPersist := at, persistScheduled := false), clock := t), t)
    case Shutdown => s.(shutdown := true)
    case Drain => s.(phase := Draining, timers := StopTimer(s.timers))
    case DrainWrite => Applied(c, s, s.queue[0]).(queue := s.queue[1..])
    case DrainEncode(ok) => s.(phase := if c.hasFile && ok then DrainEncoded(ImageOf(s)) else Down(false))
    case DrainRename(ok) =>
      var u := s.(phase := Down(ok));
      if ok then Saved(u, s.phase.image) else u
  }

  // ------------------------------------------------------------ runs

  ghost predicate CanRun(c: Config, s: State, run: seq<Action>)
    decreases |run|, 0
  {
    run == [] || (CanRun(c, s, run[..|run| - 1]) && Enabled(c, After(c, s, run[..|run| - 1]), run[|run| - 1]))
  }

  /** The state a run ends in. */
  ghost function After(c: Config, s: State, run: seq<Action>): State
    requires CanRun(c, s, run)
    decreases |run|, 1
  {
    if run == [] then s else Next(c, After(c, s, run[..|run| - 1]), run[|run| - 1])
  }

  ghost predicate Reachable(c: Config, s: State) {
    exists run :: CanRun(c, Initial(c), run) && After(c, Initial(c), run) == s
  }
}
