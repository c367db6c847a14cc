/** The metric store as a two-level map and one write request as a step on it. The map and its
    update are generic in the family type: the heap model uses them with family references, the
    meaning of the store uses them with family values. */
module StoreSpec {
  import opened Dto
  import opened LabelSpec
  import opened GroupingKey

  datatype Stamped<F> = Stamped(timestamp: Time, family: F)
  datatype Group<F> = Group(labels: Labels, metrics: map<string, Stamped<F>>)
  type Store<F> = map<string, Group<F>>

  function GroupAt<F>(s: Store<F>, key: string, labels: Labels): Group<F> {
    if key in s then s[key] else Group(labels, map[])
  }

  /** What remains of a group under an update: everything, or for a replacing one only the push
      timestamps. */
  function Kept<F>(s: Store<F>, key: string, replace: bool): map<string, Stamped<F>> {
    if key !in s then map[]
    else if replace then map n | n in s[key].metrics && n in Reserved() :: s[key].metrics[n]
    else s[key].metrics
  }

  /** The families to store: `push_time_seconds` always replaces a pushed family of that name,
      `push_failure_time_seconds` only if the group has none yet. */
  function WithGauges<F>(families: map<string, F>, kept: map<string, Stamped<F>>, pushed: F, failed: F): map<string, F> {
    var all := families[PUSH_METRIC_NAME := pushed];
    if PUSH_FAILED_METRIC_NAME in kept then all else all[PUSH_FAILED_METRIC_NAME := failed]
  }

  function StampAll<F>(families: map<string, F>, timestamp: Time): map<string, Stamped<F>> {
    map n | n in families :: Stamped(timestamp, families[n])
  }

  function PutAll<F>(s: Store<F>, key: string, labels: Labels, timestamp: Time, all: map<string, F>, replace: bool): Store<F> {
    s[key := Group(GroupAt(s, key, labels).labels, Kept(s, key, replace) + StampAll(all, timestamp))]
  }

  function PutFailure<F>(s: Store<F>, key: string, labels: Labels, timestamp: Time, pushed: F, failed: F): Store<F> {
    var g := GroupAt(s, key, labels);
    var metrics := g.metrics[PUSH_FAILED_METRIC_NAME := Stamped(timestamp, failed)];
    s[key := Group(g.labels, if PUSH_METRIC_NAME in metrics then metrics
                             else metrics[PUSH_METRIC_NAME := Stamped(timestamp, pushed)])]
  }

  lemma PutAllByParts<F>(s: Store<F>, t: Store<F>, key: string, labels: Labels, ts: Time, all: map<string, F>, replace: bool)
    requires t.Keys == s.Keys + {key} && forall k :: k in s && k != key ==> t[k] == s[k]
    requires t[key] == Group(GroupAt(s, key, labels).labels, Kept(s, key, replace) + StampAll(all, ts))
    ensures t == PutAll(s, key, labels, ts, all, replace)
  {}

  lemma PutFailureByParts<F>(s: Store<F>, t: Store<F>, key: string, labels: Labels, ts: Time, pushed: F, failed: F)
    requires t.Keys == s.Keys + {key} && forall k :: k in s && k != key ==> t[k] == s[k]
    requires t[key].labels == GroupAt(s, key, labels).labels
    requires var ms := GroupAt(s, key, labels).metrics[PUSH_FAILED_METRIC_NAME := Stamped(ts, failed)];
             t[key].metrics == if PUSH_METRIC_NAME in ms then ms else ms[PUSH_METRIC_NAME := Stamped(ts, pushed)]
    ensures t == PutFailure(s, key, labels, ts, pushed, failed)
  {}

  // ------------------------------------------------------------ steps on family values

  ghost function TimestampGauge(name: string, help: string, labels: Labels, t: Time): Family {
    Family(name, help, GAUGE, [Sample(PairsOf(WithInstance(labels)), None, Payload(GAUGE, Seconds(t)))])
  }

  ghost function PushGauge(labels: Labels, t: Time): Family {
    TimestampGauge(PUSH_METRIC_NAME, PUSH_METRIC_HELP, labels, t)
  }

  ghost function FailureGauge(labels: Labels, t: Time): Family {
    TimestampGauge(PUSH_FAILED_METRIC_NAME, PUSH_FAILED_METRIC_HELP, labels, t)
  }

  /** An accepted push. */
  ghost function Commit(s: Store<Family>, labels: Labels, timestamp: Time, families: map<string, Family>, replace: bool)
    : Store<Family>
  {
    var key := KeyOf(labels);
    PutAll(s, key, labels, timestamp,
           WithGauges(families, Kept(s, key, replace), PushGauge(labels, timestamp), FailureGauge(labels, 0)), replace)
  }

  /** A rejected push. */
  ghost function FailStamp(s: Store<Family>, labels: Labels, timestamp: Time): Store<Family> {
    PutFailure(s, KeyOf(labels), labels, timestamp, PushGauge(labels, 0), FailureGauge(labels, timestamp))
  }

  /** A write request with its families as they are after sanitizing. `checked` says whether it
      has a `Done` channel. */
  datatype Write =
    | Delete(labels: Labels)
    | Push(labels: Labels, timestamp: Time, families: map<string, Family>, replace: bool, checked: bool)

  ghost predicate TimestampsPresent(families: map<string, Family>) {
    exists n, i :: n in families && 0 <= i < |families[n].samples| && families[n].samples[i].timestampMs.Some?
  }

  // ------------------------------------------------------------ consistency

  /** The metrics of Pushgateway itself, by name. */
  type OwnMetrics = map<string, seq<Sample>>

  datatype Source = Own | In(key: string)

  /** The samples one source contributes to the exposition of a metric name. */
  function Block(own: OwnMetrics, s: Store<Family>, src: Source, name: string): seq<Sample> {
    match src
    case Own => if name in own then own[name] else []
    case In(k) => if k in s && name in s[k].metrics then s[k].metrics[name].family.samples else []
  }

  /** Two metrics of one name: same type, different label sets. */
  predicate Compatible(a: Sample, b: Sample) {
    a.payload.typ == b.payload.typ && multiset(a.labels) != multiset(b.labels)
  }

  predicate BlocksCompatible(a: seq<Sample>, b: seq<Sample>) {
    forall i, j :: 0 <= i < |a| && 0 <= j < |b| ==> Compatible(a[i], b[j])
  }

  predicate PairwiseCompatible(a: seq<Sample>) {
    forall i, j :: 0 <= i < j < |a| ==> Compatible(a[i], a[j])
  }

  ghost predicate ConsistentName(own: OwnMetrics, s: Store<Family>, name: string) {
    && (forall a :: PairwiseCompatible(Block(own, s, a, name)))
    && (forall a, b :: a != b ==> BlocksCompatible(Block(own, s, a, name), Block(own, s, b, name)))
  }

  /** Metrics of one name share a type, and no two of them have the same labels, over all groups
      and Pushgateway's own metrics. */
  ghost predicate Consistent(own: OwnMetrics, s: Store<Family>) {
    forall name :: ConsistentName(own, s, name)
  }

  ghost predicate Accepts(own: OwnMetrics, s: Store<Family>, w: Write) {
    match w
    case Delete(_) => true
    case Push(labels, ts, families, replace, checked) =>
      && !TimestampsPresent(families)
      && (checked ==> Consistent(own, Commit(s, labels, ts, families, replace)))
  }

  /** One write with a given verdict. */
  ghost function ApplyAs(s: Store<Family>, w: Write, accepted: bool): Store<Family> {
    match w
    case Delete(labels) => s - {KeyOf(labels)}
    case Push(labels, ts, families, replace, _) =>
      if accepted then Commit(s, labels, ts, families, replace) else FailStamp(s, labels, ts)
  }

  ghost function Apply(own: OwnMetrics, s: Store<Family>, w: Write): Store<Family> {
    ApplyAs(s, w, Accepts(own, s, w))
  }

  /** The store after processing writes in order. */
  ghost function Fold(own: OwnMetrics, s: Store<Family>, ws: seq<Write>): Store<Family> {
    if ws == [] then s else Apply(own, Fold(own, s, ws[..|ws| - 1]), ws[|ws| - 1])
  }

  /** Whether the write in that place is accepted, after all writes before it. */
  ghost predicate AcceptedAt(own: OwnMetrics, s: Store<Family>, ws: seq<Write>, i: nat)
    requires i < |ws|
  {
    Accepts(own, Fold(own, s, ws[..i]), ws[i])
  }

  lemma FoldSnoc(own: OwnMetrics, s: Store<Family>, ws: seq<Write>, w: Write)
    ensures Fold(own, s, ws + [w]) == Apply(own, Fold(own, s, ws), w)
  {
    assert (ws + [w])[..|ws|] == ws;
  }

  lemma {:induction false} FoldConcat(own: OwnMetrics, s: Store<Family>, a: seq<Write>, b: seq<Write>)
    ensures Fold(own, s, a + b) == Fold(own, Fold(own, s, a), b)
  {
    if b == [] {
      assert a + b == a;
    } else {
      var last := |b| - 1;
      assert a + b == (a + b[..last]) + [b[last]];
      assert b == b[..last] + [b[last]];
      FoldSnoc(own, s, a + b[..last], b[last]);
      FoldConcat(own, s, a, b[..last]);
      FoldSnoc(own, Fold(own, s, a), b[..last], b[last]);
    }
  }

  /** Requests with their verdicts. */
  type Verdicts = seq<(Write, bool)>

  ghost function VerdictsOf(own: OwnMetrics, s: Store<Family>, ws: seq<Write>): Verdicts {
    if ws == [] then []
    else
      var before := ws[..|ws| - 1];
      VerdictsOf(own, s, before) + [(ws[|ws| - 1], Accepts(own, Fold(own, s, before), ws[|ws| - 1]))]
  }

  lemma {:induction false} VerdictsOfWrites(own: OwnMetrics, s: Store<Family>, ws: seq<Write>)
    ensures |VerdictsOf(own, s, ws)| == |ws|
    ensures forall i :: 0 <= i < |ws| ==> VerdictsOf(own, s, ws)[i].0 == ws[i]
  {
    hide Accepts, Fold;
    if ws != [] { VerdictsOfWrites(own, s, ws[..|ws| - 1]); }
  }

  lemma VerdictsSnoc(own: OwnMetrics, s: Store<Family>, ws: seq<Write>, w: Write)
    ensures VerdictsOf(own, s, ws + [w]) == VerdictsOf(own, s, ws) + [(w, Accepts(own, Fold(own, s, ws), w))]
  {
    hide Accepts, Fold;
    assert (ws + [w])[..|ws|] == ws;
  }

  // ------------------------------------------------------------ lookups

  function Lookup<F>(s: Store<F>, key: string): Option<Group<F>> {
    if key in s then Some(s[key]) else None
  }

  /** A write touches its own key only, and what it makes of that key depends on nothing else. */
  lemma ApplyIsLocal(s: Store<Family>, t: Store<Family>, w: Write, accepted: bool)
    ensures forall k :: k != KeyOf(w.labels) ==> Lookup(ApplyAs(s, w, accepted), k) == Lookup(s, k)
    ensures Lookup(s, KeyOf(w.labels)) == Lookup(t, KeyOf(w.labels)) ==>
              Lookup(ApplyAs(s, w, accepted), KeyOf(w.labels)) == Lookup(ApplyAs(t, w, accepted), KeyOf(w.labels))
  {
    var key := KeyOf(w.labels);
    if Lookup(s, key) == Lookup(t, key) && w.Push? {
      assert Kept(s, key, w.replace) == Kept(t, key, w.replace);
      assert GroupAt(s, key, w.labels) == GroupAt(t, key, w.labels);
    }
  }

  /** Committing a request whose family map already carries the gauges of an earlier application to
      the same store gives the same store: the speculative application is harmless. */
  lemma CommitAgain(s: Store<Family>, labels: Labels, ts: Time, families: map<string, Family>, replace: bool)
    ensures var once := WithGauges(families, Kept(s, KeyOf(labels), replace), PushGauge(labels, ts), FailureGauge(labels, 0));
            Commit(s, labels, ts, once, replace) == Commit(s, labels, ts, families, replace)
  {
    ReservedNamesDiffer();
    var kept := Kept(s, KeyOf(labels), replace);
    var p, f := PushGauge(labels, ts), FailureGauge(labels, 0);
    var once := WithGauges(families, kept, p, f);
    assert WithGauges(once, kept, p, f) == once;
  }

  // ------------------------------------------------------------ names

  /** Families are stored under their own names. */
  predicate NamedByKey(s: Store<Family>) {
    forall k, n :: k in s && n in s[k].metrics ==> s[k].metrics[n].family.name == n
  }

  predicate NamedFamilies(families: map<string, Family>) {
    forall n :: n in families ==> families[n].name == n
  }

  lemma ApplyKeepsNames(s: Store<Family>, w: Write, accepted: bool)
    requires NamedByKey(s) && (w.Push? && accepted ==> NamedFamilies(w.families))
    ensures NamedByKey(ApplyAs(s, w, accepted))
  {
    ReservedNamesDiffer();
  }

  // ------------------------------------------------------------ where families come from

  /** A family of an updated group: a new timestamp gauge, one of the request, or an old one. */
  ghost predicate Provenance(s: Store<Family>, labels: Labels, families: map<string, Family>, name: string, f: Family) {
    || IsTimestampGauge(name, labels, f)
    || (name in families && f == families[name])
    || (KeyOf(labels) in s && name in s[KeyOf(labels)].metrics && f == s[KeyOf(labels)].metrics[name].family)
  }

  ghost predicate IsTimestampGauge(name: string, labels: Labels, f: Family) {
    || (name == PUSH_METRIC_NAME && exists t :: f == PushGauge(labels, t))
    || (name == PUSH_FAILED_METRIC_NAME && exists t :: f == FailureGauge(labels, t))
  }

  ghost predicate UpdatedGroup(s: Store<Family>, labels: Labels, families: map<string, Family>, g: Group<Family>) {
    && g.labels == GroupAt(s, KeyOf(labels), labels).labels
    && PUSH_METRIC_NAME in g.metrics && PUSH_FAILED_METRIC_NAME in g.metrics
    && forall n :: n in g.metrics ==> Provenance(s, labels, families, n, g.metrics[n].family)
  }

  /** What a push leaves in its group: the families it brings replace those of the same names, all
      others go if it is a replacing one and stay if not, and an earlier failure time is retained
      unless the push brings one. */
  lemma PushContents(s: Store<Family>, labels: Labels, ts: Time, families: map<string, Family>, replace: bool)
    ensures var key := KeyOf(labels);
            var old', new' := GroupAt(s, key, labels), Commit(s, labels, ts, families, replace)[key];
            && new'.labels == old'.labels
            && (forall n :: n !in Reserved() ==> (n in new'.metrics <==> n in families || (!replace && n in old'.metrics)))
            && (forall n :: n in families && n !in Reserved() ==> new'.metrics[n] == Stamped(ts, families[n]))
            && (forall n :: n in new'.metrics && n !in families && n !in Reserved() ==> new'.metrics[n] == old'.metrics[n])
            && PUSH_METRIC_NAME in new'.metrics && PUSH_FAILED_METRIC_NAME in new'.metrics
            && new'.metrics[PUSH_METRIC_NAME] == Stamped(ts, PushGauge(labels, ts))
            && new'.metrics[PUSH_FAILED_METRIC_NAME]
               == if PUSH_FAILED_METRIC_NAME !in old'.metrics then Stamped(ts, FailureGauge(labels, 0))
                  else if PUSH_FAILED_METRIC_NAME in families then Stamped(ts, families[PUSH_FAILED_METRIC_NAME])
                  else old'.metrics[PUSH_FAILED_METRIC_NAME]
  {
    hide KeyOf, TimestampGauge;
    ReservedNamesDiffer();
  }

  /** After either verdict the group carries both timestamps, and every family in it is accounted
      for. */
  lemma CommitUpdates(s: Store<Family>, labels: Labels, ts: Time, families: map<string, Family>, replace: bool)
    ensures var t := Commit(s, labels, ts, families, replace);
            KeyOf(labels) in t && UpdatedGroup(s, labels, families, t[KeyOf(labels)])
    ensures Commit(s, labels, ts, families, replace)[KeyOf(labels)].metrics[PUSH_METRIC_NAME].family == PushGauge(labels, ts)
  {
    hide KeyOf, TimestampGauge;
    ReservedNamesDiffer();
    var g := Commit(s, labels, ts, families, replace)[KeyOf(labels)];
    forall n | n in g.metrics ensures Provenance(s, labels, families, n, g.metrics[n].family) {}
  }

  lemma FailStampUpdates(s: Store<Family>, labels: Labels, ts: Time)
    ensures var t := FailStamp(s, labels, ts);
            KeyOf(labels) in t && UpdatedGroup(s, labels, map[], t[KeyOf(labels)])
    ensures var old', new' := GroupAt(s, KeyOf(labels), labels).metrics, FailStamp(s, labels, ts)[KeyOf(labels)].metrics;
            && new'[PUSH_FAILED_METRIC_NAME] == Stamped(ts, FailureGauge(labels, ts))
            && new'[PUSH_METRIC_NAME]
               == if PUSH_METRIC_NAME in old' then old'[PUSH_METRIC_NAME] else Stamped(ts, PushGauge(labels, 0))
  {
    hide KeyOf, TimestampGauge;
    ReservedNamesDiffer();
    var g := FailStamp(s, labels, ts)[KeyOf(labels)];
    forall n | n in g.metrics ensures Provenance(s, labels, map[], n, g.metrics[n].family) {}
  }
}
