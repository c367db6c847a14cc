/** Merging the families of all groups by name, copying a family before changing it. */
module Gathering {
  import opened Dto
  import opened Objects
  import opened StoreSpec
  import opened StoreHeap
  import opened GatherCheck

  /** Where in the result a family is, and whether it is a copy of the store's object. */
  datatype MfStat = MfStat(pos: nat, copied: bool)

  /** What has been merged so far: by name, the family met first and all metrics in order. */
  datatype Merged = Merged(first: map<string, MetricFamily>, metrics: map<string, seq<Metric>>)
  {
    function Add(name: string, mf: MetricFamily, metric: seq<Metric>): Merged {
      if name in first && name in metrics then Merged(first, metrics[name := metrics[name] + metric])
      else Merged(first[name := mf], metrics[name := metric])
    }
  }

  function HelpFor(name: string, predefinedHelp: map<string, string>, help: string): string {
    if name in predefinedHelp then predefinedHelp[name] else help
  }

  /** Names and result positions correspond one to one. */
  ghost predicate Indexed(names: seq<string>, stats: map<string, MfStat>) {
    && (forall n :: n in stats ==> stats[n].pos < |names| && names[stats[n].pos] == n)
    && (forall i :: 0 <= i < |names| ==> names[i] in stats && stats[names[i]].pos == i)
  }

  /** One entry of the result: the first family of that name with all metrics, and with the
      predefined help string if there is one. The entry is a copy or the store's own object. */
  ghost predicate IsEntry(f: MetricFamily, copied: bool, copies: set<MetricFamily>, first: MetricFamily,
                          metrics: seq<Metric>, help: string)
    reads f, first
  {
    && (copied <==> f in copies) && (!copied ==> f == first)
    && f.name == first.name && f.typ == first.typ && f.help == help && f.metric == metrics
  }

  /** The state of the merge. `copies` are the families that are the merge's own. */
  ghost predicate MergeState(result: seq<MetricFamily>, names: seq<string>, stats: map<string, MfStat>,
                             copies: set<MetricFamily>, merged: Merged, predefinedHelp: map<string, string>)
    reads result, merged.first.Values
  {
    && stats.Keys == merged.first.Keys == merged.metrics.Keys
    && |names| == |result| && Indexed(names, stats)
    && (forall n :: n in stats ==> EntryAt(result, stats, copies, merged, predefinedHelp, n))
    && Separate(result, stats)
  }

  ghost predicate EntryAt(result: seq<MetricFamily>, stats: map<string, MfStat>, copies: set<MetricFamily>,
                          merged: Merged, predefinedHelp: map<string, string>, n: string)
    reads result, merged.first.Values
  {
    && n in stats && stats[n].pos < |result| && n in merged.first && n in merged.metrics
    && merged.first[n] in merged.first.Values
    && merged.first[n] !in copies
    && IsEntry(result[stats[n].pos], stats[n].copied, copies, merged.first[n], merged.metrics[n],
               HelpFor(n, predefinedHelp, merged.first[n].help))
  }

  /** No copy is used for two names. */
  ghost predicate Separate(result: seq<MetricFamily>, stats: map<string, MfStat>) {
    forall n, o :: n in stats && o in stats && n != o && stats[n].copied
                   && stats[n].pos < |result| && stats[o].pos < |result| ==>
      result[stats[n].pos] != result[stats[o].pos]
  }

  lemma SeparateAdd(result: seq<MetricFamily>, stats: map<string, MfStat>, name: string, entry: MetricFamily, copied: bool)
    requires Separate(result, stats) && name !in stats
    requires forall n :: n in stats ==> stats[n].pos < |result|
    requires forall n :: n in stats && (copied || stats[n].copied) ==> result[stats[n].pos] != entry
    ensures Separate(result + [entry], stats[name := MfStat(|result|, copied)])
  {}

  lemma SeparateOwn(result: seq<MetricFamily>, names: seq<string>, stats: map<string, MfStat>, name: string, copy: MetricFamily)
    requires Separate(result, stats) && name in stats && Indexed(names, stats) && |names| == |result|
    requires copy !in result
    ensures Separate(result[stats[name].pos := copy], stats[name := MfStat(stats[name].pos, true)])
    ensures Indexed(names, stats[name := MfStat(stats[name].pos, true)])
    ensures forall n :: n in stats && n != name ==> stats[n].pos != stats[name].pos
  {
    var pos := stats[name].pos;
    forall n | n in stats && n != name
      ensures result[pos := copy][stats[n].pos] == result[stats[n].pos] && result[stats[n].pos] in result
    {
      assert names[stats[n].pos] == n;
    }
  }

  lemma IndexedAdd(names: seq<string>, stats: map<string, MfStat>, name: string, copied: bool)
    requires Indexed(names, stats) && name !in stats
    ensures Indexed(names + [name], stats[name := MfStat(|names|, copied)])
  {}

  /** Shares the metrics, but not the list of them. */
  method CopyMetricFamily(mf: MetricFamily) returns (r: MetricFamily)
    ensures fresh(r) && r.name == mf.name && r.help == mf.help && r.typ == mf.typ && r.metric == mf.metric
  {
    r := new MetricFamily(mf.name, mf.help, mf.typ, [] + mf.metric);
  }

  lemma EntryInBounds(result: seq<MetricFamily>, names: seq<string>, stats: map<string, MfStat>,
                      copies: set<MetricFamily>, merged: Merged, predefinedHelp: map<string, string>, name: string)
    requires MergeState(result, names, stats, copies, merged, predefinedHelp) && name in stats
    ensures stats[name].pos < |result| && (stats[name].copied ==> result[stats[name].pos] in copies)
  {
    assert EntryAt(result, stats, copies, merged, predefinedHelp, name);
  }

  lemma EntryKeptByOwning(result: seq<MetricFamily>, stats: map<string, MfStat>, copies: set<MetricFamily>, merged: Merged,
                          predefinedHelp: map<string, string>, name: string, copy: MetricFamily, n: string)
    requires EntryAt(result, stats, copies, merged, predefinedHelp, n)
    requires name in stats && stats[name].pos < |result| && (n != name ==> stats[n].pos != stats[name].pos)
    requires copy !in result && copy !in copies && copy !in merged.first.Values
    requires var f := result[stats[name].pos];
             copy.name == f.name && copy.help == f.help && copy.typ == f.typ && copy.metric == f.metric
    ensures EntryAt(result[stats[name].pos := copy], stats[name := MfStat(stats[name].pos, true)],
                    copies + {copy}, merged, predefinedHelp, n)
  {}

  /** Replacing an entry by a copy of it. */
  lemma EntryOwned(result: seq<MetricFamily>, names: seq<string>, stats: map<string, MfStat>,
                   copies: set<MetricFamily>, merged: Merged, predefinedHelp: map<string, string>,
                   name: string, copy: MetricFamily)
    requires MergeState(result, names, stats, copies, merged, predefinedHelp)
    requires name in stats && stats[name].pos < |result|
    requires copy !in result && copy !in copies && copy !in merged.first.Values
    requires var f := result[stats[name].pos];
             copy.name == f.name && copy.help == f.help && copy.typ == f.typ && copy.metric == f.metric
    ensures MergeState(result[stats[name].pos := copy], names, stats[name := MfStat(stats[name].pos, true)],
                       copies + {copy}, merged, predefinedHelp)
  {
    hide EntryAt, Indexed, Separate;
    var pos := stats[name].pos;
    var result', stats' := result[pos := copy], stats[name := MfStat(pos, true)];
    SeparateOwn(result, names, stats, name, copy);
    forall n | n in stats' ensures EntryAt(result', stats', copies + {copy}, merged, predefinedHelp, n) {
      EntryKeptByOwning(result, stats, copies, merged, predefinedHelp, name, copy, n);
    }
  }

  /** Makes sure the entry of a name is a copy. */
  method OwnEntry(result: seq<MetricFamily>, ghost names: seq<string>, stats: map<string, MfStat>,
                  ghost copies: set<MetricFamily>, ghost merged: Merged, ghost predefinedHelp: map<string, string>,
                  name: string)
    returns (result': seq<MetricFamily>, stats': map<string, MfStat>, ghost copies': set<MetricFamily>)
    requires MergeState(result, names, stats, copies, merged, predefinedHelp) && name in stats
    ensures MergeState(result', names, stats', copies', merged, predefinedHelp)
    ensures forall f :: f in copies' ==> f in copies || fresh(f)
    ensures name in stats' && stats'[name].copied && stats'[name].pos == stats[name].pos
  {
    hide EntryAt, Indexed, Separate;
    var stat := stats[name];
    result', stats', copies' := result, stats, copies;
    EntryInBounds(result, names, stats, copies, merged, predefinedHelp, name);
    if !stat.copied {
      stats' := stats'[name := MfStat(stat.pos, true)];
      var copy := CopyMetricFamily(result'[stat.pos]);
      result' := result'[stat.pos := copy];
      copies' := copies' + {copy};
      EntryOwned(result, names, stats, copies, merged, predefinedHelp, name, copy);
    }
  }

  lemma OthersDiffer(result: seq<MetricFamily>, names: seq<string>, stats: map<string, MfStat>,
                     copies: set<MetricFamily>, merged: Merged, predefinedHelp: map<string, string>, name: string)
    requires MergeState(result, names, stats, copies, merged, predefinedHelp) && name in stats && stats[name].copied
    ensures forall n :: n in stats ==> stats[n].pos < |result| && n in merged.first && merged.first[n] !in copies
    ensures result[stats[name].pos] in copies
    ensures forall n :: n in stats && n != name ==> result[stats[n].pos] != result[stats[name].pos]
  {
    hide Indexed, IsEntry;
    assert forall n :: n in stats ==> EntryAt(result, stats, copies, merged, predefinedHelp, n);
    EntryInBounds(result, names, stats, copies, merged, predefinedHelp, name);
  }

  twostate lemma OtherEntryKept(result: seq<MetricFamily>, new stats: map<string, MfStat>, new copies: set<MetricFamily>,
                                new merged: Merged, new predefinedHelp: map<string, string>, new name: string,
                                new mf: MetricFamily, new n: string)
    requires old(allocated(copies)) && old(allocated(merged)) && old(allocated(mf))
    requires old(EntryAt(result, stats, copies, merged, predefinedHelp, n)) && n != name
    requires Unwritten(result[stats[n].pos]) && Unwritten(merged.first[n])
    ensures EntryAt(result, stats, copies, merged.Add(name, mf, mf.metric), predefinedHelp, n)
  {
    assert merged.Add(name, mf, mf.metric).first[n] == merged.first[n];
  }

  twostate lemma EntryGrown(result: seq<MetricFamily>, new stats: map<string, MfStat>, new copies: set<MetricFamily>,
                            new merged: Merged, new predefinedHelp: map<string, string>, new name: string, new mf: MetricFamily)
    requires old(allocated(copies)) && old(allocated(merged)) && old(allocated(mf))
    requires old(EntryAt(result, stats, copies, merged, predefinedHelp, name)) && stats[name].copied
    requires var f := result[stats[name].pos];
             && f.name == old(f.name) && f.help == old(f.help) && f.typ == old(f.typ)
             && f.metric == old(f.metric) + old(mf.metric) && Unwritten(mf) && Unwritten(merged.first[name])
    ensures EntryAt(result, stats, copies, merged.Add(name, mf, mf.metric), predefinedHelp, name)
  {}

  /** Appending metrics to an entry that is a copy. */
  twostate lemma EntryAppended(result: seq<MetricFamily>, new names: seq<string>, new stats: map<string, MfStat>,
                               new copies: set<MetricFamily>, new merged: Merged, new predefinedHelp: map<string, string>,
                               new name: string, new mf: MetricFamily)
    requires old(allocated(copies)) && old(allocated(merged)) && old(allocated(mf))
    requires old(MergeState(result, names, stats, copies, merged, predefinedHelp))
    requires name in stats && stats[name].copied && mf !in copies
    requires forall n :: n in stats ==> stats[n].pos < |result| && n in merged.first && merged.first[n] !in copies
    requires result[stats[name].pos] in copies
    requires forall n :: n in stats && n != name ==> result[stats[n].pos] != result[stats[name].pos]
    requires var f := result[stats[name].pos];
             && f.name == old(f.name) && f.help == old(f.help) && f.typ == old(f.typ)
             && f.metric == old(f.metric) + old(mf.metric)
             && forall g: MetricFamily :: old(allocated(g)) && g != f ==> Unwritten(g)
    ensures MergeState(result, names, stats, copies, merged.Add(name, mf, mf.metric), predefinedHelp)
  {
    hide EntryAt, Indexed, Separate;
    assert old(EntryAt(result, stats, copies, merged, predefinedHelp, name));
    EntryGrown(result, stats, copies, merged, predefinedHelp, name, mf);
    forall n | n in stats && n != name
      ensures EntryAt(result, stats, copies, merged.Add(name, mf, mf.metric), predefinedHelp, n)
    {
      assert old(EntryAt(result, stats, copies, merged, predefinedHelp, n));
      OtherEntryKept(result, stats, copies, merged, predefinedHelp, name, mf, n);
    }
  }

  /** Appends to the entry of a name, which is a copy. */
  method Append(result: seq<MetricFamily>, ghost names: seq<string>, stats: map<string, MfStat>,
                ghost copies: set<MetricFamily>, ghost merged: Merged, ghost predefinedHelp: map<string, string>,
                name: string, mf: MetricFamily)
    requires MergeState(result, names, stats, copies, merged, predefinedHelp)
    requires name in stats && stats[name].copied && mf !in copies
    modifies copies
    ensures MergeState(result, names, stats, copies, merged.Add(name, mf, mf.metric), predefinedHelp)
  {
    hide MergeState;
    OthersDiffer(result, names, stats, copies, merged, predefinedHelp, name);
    var existingMF := result[stats[name].pos];
    existingMF.metric := existingMF.metric + mf.metric;
    EntryAppended(result, names, stats, copies, merged, predefinedHelp, name, mf);
  }

  lemma OldEntryKept(result: seq<MetricFamily>, stats: map<string, MfStat>, copies: set<MetricFamily>, merged: Merged,
                     predefinedHelp: map<string, string>, name: string, mf: MetricFamily, entry: MetricFamily, copied: bool,
                     n: string)
    requires EntryAt(result, stats, copies, merged, predefinedHelp, n) && n != name
    requires copied ==> entry !in result && entry !in merged.first.Values
    requires !copied ==> entry !in copies
    ensures stats[n].pos < |result| && (copied || stats[n].copied ==> result[stats[n].pos] != entry)
    ensures EntryAt(result + [entry], stats[name := MfStat(|result|, copied)], if copied then copies + {entry} else copies,
                    merged.Add(name, mf, mf.metric), predefinedHelp, n)
  {
    assert merged.Add(name, mf, mf.metric).first[n] == merged.first[n];
  }

  lemma NewEntryStands(result: seq<MetricFamily>, stats: map<string, MfStat>, copies: set<MetricFamily>, merged: Merged,
                       predefinedHelp: map<string, string>, name: string, mf: MetricFamily, entry: MetricFamily, copied: bool)
    requires name !in merged.first && mf !in copies && (copied ==> entry != mf)
    requires IsEntry(entry, copied, if copied then copies + {entry} else copies, mf, mf.metric,
                     HelpFor(name, predefinedHelp, mf.help))
    ensures EntryAt(result + [entry], stats[name := MfStat(|result|, copied)], if copied then copies + {entry} else copies,
                    merged.Add(name, mf, mf.metric), predefinedHelp, name)
  {
    assert merged.Add(name, mf, mf.metric).first[name] == mf;
  }

  /** Adding an entry for a new name. */
  lemma EntryAdded(result: seq<MetricFamily>, names: seq<string>, stats: map<string, MfStat>,
                   copies: set<MetricFamily>, merged: Merged, predefinedHelp: map<string, string>,
                   name: string, mf: MetricFamily, entry: MetricFamily, copied: bool)
    requires MergeState(result, names, stats, copies, merged, predefinedHelp) && name !in stats && mf !in copies
    requires copied ==> entry !in result && entry !in merged.first.Values && entry != mf
    requires var copies' := if copied then copies + {entry} else copies;
             IsEntry(entry, copied, copies', mf, mf.metric, HelpFor(name, predefinedHelp, mf.help))
    ensures MergeState(result + [entry], names + [name], stats[name := MfStat(|result|, copied)],
                       if copied then copies + {entry} else copies, merged.Add(name, mf, mf.metric), predefinedHelp)
  {
    hide EntryAt, Indexed, Separate;
    assert !copied ==> entry == mf;
    IndexedAdd(names, stats, name, copied);
    forall n | n in stats
      ensures stats[n].pos < |result| && (copied || stats[n].copied ==> result[stats[n].pos] != entry)
      ensures EntryAt(result + [entry], stats[name := MfStat(|result|, copied)], if copied then copies + {entry} else copies,
                      merged.Add(name, mf, mf.metric), predefinedHelp, n)
    {
      OldEntryKept(result, stats, copies, merged, predefinedHelp, name, mf, entry, copied, n);
    }
    SeparateAdd(result, stats, name, entry, copied);
    NewEntryStands(result, stats, copies, merged, predefinedHelp, name, mf, entry, copied);
  }

  /** Adds an entry for a new name, copied only if its help string has to be adjusted. */
  method AddEntry(result: seq<MetricFamily>, ghost names: seq<string>, stats: map<string, MfStat>,
                  ghost copies: set<MetricFamily>, ghost merged: Merged, predefinedHelp: map<string, string>,
                  name: string, mf: MetricFamily)
    returns (result': seq<MetricFamily>, ghost names': seq<string>, stats': map<string, MfStat>,
             ghost copies': set<MetricFamily>)
    requires MergeState(result, names, stats, copies, merged, predefinedHelp)
    requires name !in stats && mf !in copies
    ensures MergeState(result', names', stats', copies', merged.Add(name, mf, mf.metric), predefinedHelp)
    ensures forall f :: f in copies' ==> f in copies || fresh(f)
  {
    hide EntryAt, Indexed, Separate;
    var entry, copied;
    entry, copied, copies' := FirstEntry(copies, predefinedHelp, name, mf);
    stats' := stats[name := MfStat(|result|, copied)];
    result' := result + [entry];
    names' := names + [name];
    EntryAdded(result, names, stats, copies, merged, predefinedHelp, name, mf, entry, copied);
  }

  method FirstEntry(ghost copies: set<MetricFamily>, predefinedHelp: map<string, string>, name: string, mf: MetricFamily)
    returns (entry: MetricFamily, copied: bool, ghost copies': set<MetricFamily>)
    requires mf !in copies
    ensures copies' == if copied then copies + {entry} else copies
    ensures if copied then fresh(entry) else entry == mf
    ensures IsEntry(entry, copied, copies', mf, mf.metric, HelpFor(name, predefinedHelp, mf.help)) && mf !in copies'
  {
    entry, copied, copies' := mf, false, copies;
    if name in predefinedHelp && mf.help != predefinedHelp[name] {
      entry := CopyMetricFamily(mf);
      copied := true;
      entry.help := predefinedHelp[name];
      copies' := copies' + {entry};
    }
  }

  /** Merges one more family into the result. Only copies are written. */
  method MergeFamily(result: seq<MetricFamily>, ghost names: seq<string>, stats: map<string, MfStat>,
                     ghost copies: set<MetricFamily>, ghost merged: Merged, predefinedHelp: map<string, string>,
                     name: string, mf: MetricFamily)
    returns (result': seq<MetricFamily>, ghost names': seq<string>, stats': map<string, MfStat>,
             ghost copies': set<MetricFamily>)
    requires MergeState(result, names, stats, copies, merged, predefinedHelp)
    requires mf !in copies
    modifies copies
    ensures MergeState(result', names', stats', copies', merged.Add(name, mf, mf.metric), predefinedHelp)
    ensures forall f :: f in copies' ==> f in copies || fresh(f)
  {
    hide *;
    names' := names;
    if name in stats {
      result', stats', copies' := OwnEntry(result, names, stats, copies, merged, predefinedHelp, name);
      Append(result', names', stats', copies', merged, predefinedHelp, name, mf);
    } else {
      result', names', stats', copies' := AddEntry(result, names, stats, copies, merged, predefinedHelp, name, mf);
    }
  }

  // ------------------------------------------------------------ all groups

  /** The families of a name in the visited groups, in the order of the visit. */
  ghost function Listed(s: Store<MetricFamily>, order: seq<string>, name: string): seq<MetricFamily> {
    if order == [] then []
    else
      var k := order[|order| - 1];
      Listed(s, order[..|order| - 1], name)
        + (if k in s && name in s[k].metrics then [s[k].metrics[name].family] else [])
  }

  /** All their metrics, concatenated. */
  ghost function MetricsOf(fs: seq<MetricFamily>): seq<Metric>
    reads fs
  {
    if fs == [] then [] else MetricsOf(fs[..|fs| - 1]) + fs[|fs| - 1].metric
  }

  /** The same over recorded metric lists. */
  ghost function Recorded(lists: map<MetricFamily, seq<Metric>>, fs: seq<MetricFamily>): seq<Metric> {
    if fs == [] then []
    else
      var f := fs[|fs| - 1];
      Recorded(lists, fs[..|fs| - 1]) + (if f in lists then lists[f] else [])
  }

  lemma {:induction false} RecordedIsMetricsOf(lists: map<MetricFamily, seq<Metric>>, fs: seq<MetricFamily>)
    requires forall f :: f in fs ==> f in lists && lists[f] == f.metric
    ensures Recorded(lists, fs) == MetricsOf(fs)
  {
    if fs != [] { RecordedIsMetricsOf(lists, fs[..|fs| - 1]); }
  }

  ghost function At(merged: Merged, n: string): Option<(MetricFamily, seq<Metric>)> {
    if n in merged.first && n in merged.metrics then Some((merged.first[n], merged.metrics[n])) else None
  }

  ghost function Summary(lists: map<MetricFamily, seq<Metric>>, fs: seq<MetricFamily>): Option<(MetricFamily, seq<Metric>)> {
    if fs == [] then None else Some((fs[0], Recorded(lists, fs)))
  }

  /** The merge has taken in exactly the groups of `order`. */
  ghost predicate Tracks(merged: Merged, s: Store<MetricFamily>, lists: map<MetricFamily, seq<Metric>>, order: seq<string>) {
    forall n :: At(merged, n) == Summary(lists, Listed(s, order, n))
  }

  /** `after` is `before` with the families `done` of one group added. */
  ghost predicate AddedSome(before: Merged, after: Merged, ms: map<string, Stamped<MetricFamily>>,
                            lists: map<MetricFamily, seq<Metric>>, done: set<string>) {
    forall n :: At(after, n) ==
      if n in done && n in ms && ms[n].family in lists
      then At(before.Add(n, ms[n].family, lists[ms[n].family]), n) else At(before, n)
  }

  lemma AddedOneMore(before: Merged, after: Merged, ms: map<string, Stamped<MetricFamily>>,
                     lists: map<MetricFamily, seq<Metric>>, done: set<string>, n: string)
    requires AddedSome(before, after, ms, lists, done) && n !in done && n in ms && ms[n].family in lists
    requires before.first.Keys == before.metrics.Keys && after.first.Keys == after.metrics.Keys
    ensures AddedSome(before, after.Add(n, ms[n].family, lists[ms[n].family]), ms, lists, done + {n})
  {
    var f := ms[n].family;
    var now := after.Add(n, f, lists[f]);
    assert At(after, n) == At(before, n);
    forall o ensures At(now, o) ==
      if o in done + {n} && o in ms && ms[o].family in lists
      then At(before.Add(o, ms[o].family, lists[ms[o].family]), o) else At(before, o) {
      if o != n { assert At(now, o) == At(after, o); }
    }
  }

  lemma NoneAdded(merged: Merged, ms: map<string, Stamped<MetricFamily>>, lists: map<MetricFamily, seq<Metric>>)
    ensures AddedSome(merged, merged, ms, lists, {})
  {}

  lemma TracksGroup(before: Merged, after: Merged, s: Store<MetricFamily>, lists: map<MetricFamily, seq<Metric>>,
                    order: seq<string>, k: string)
    requires Tracks(before, s, lists, order) && k in s
    requires before.first.Keys == before.metrics.Keys
    requires forall n :: n in s[k].metrics ==> s[k].metrics[n].family in lists
    requires AddedSome(before, after, s[k].metrics, lists, s[k].metrics.Keys)
    ensures Tracks(after, s, lists, order + [k])
  {
    hide Listed, Recorded;
    forall n ensures At(after, n) == Summary(lists, Listed(s, order + [k], n)) {
      var fs := Listed(s, order, n);
      ListedMore(s, order, k, n);
      assert At(before, n) == Summary(lists, fs);
      if n in s[k].metrics {
        var f := s[k].metrics[n].family;
        RecordedMore(lists, fs, f);
        assert At(after, n) == At(before.Add(n, f, lists[f]), n);
      }
    }
  }

  lemma ListedMore(s: Store<MetricFamily>, order: seq<string>, k: string, n: string)
    requires k in s
    ensures Listed(s, order + [k], n)
            == if n in s[k].metrics then Listed(s, order, n) + [s[k].metrics[n].family] else Listed(s, order, n)
  {
    assert (order + [k])[..|order|] == order;
    assert Listed(s, order, n) + [] == Listed(s, order, n);
  }

  lemma RecordedMore(lists: map<MetricFamily, seq<Metric>>, fs: seq<MetricFamily>, f: MetricFamily)
    requires f in lists
    ensures Recorded(lists, fs + [f]) == Recorded(lists, fs) + lists[f]
    ensures fs == [] ==> Recorded(lists, fs + [f]) == lists[f]
  {
    assert (fs + [f])[..|fs|] == fs;
  }

  /** Merges all families of one group, in an arbitrary order. */
  method MergeGroup(result: seq<MetricFamily>, ghost names: seq<string>, stats: map<string, MfStat>,
                    ghost copies: set<MetricFamily>, ghost merged: Merged, predefinedHelp: map<string, string>,
                    ms: map<string, Stamped<MetricFamily>>, ghost lists: map<MetricFamily, seq<Metric>>)
    returns (result': seq<MetricFamily>, ghost names': seq<string>, stats': map<string, MfStat>,
             ghost copies': set<MetricFamily>, ghost merged': Merged)
    requires MergeState(result, names, stats, copies, merged, predefinedHelp)
    requires forall f :: f in copies ==> f !in lists
    requires forall f :: f in lists ==> f.metric == lists[f]
    requires forall n :: n in ms ==> ms[n].family in lists
    modifies copies
    ensures MergeState(result', names', stats', copies', merged', predefinedHelp)
    ensures forall f :: f in copies' ==> f in copies || fresh(f)
    ensures AddedSome(merged, merged', ms, lists, ms.Keys)
  {
    hide MergeState, AddedSome;
    result', names', stats', copies', merged' := result, names, stats, copies, merged;
    MergeStateKeys(result, names, stats, copies, merged, predefinedHelp);
    NoneAdded(merged, ms, lists);
    assert ms.Keys - ms.Keys == {};
    var todo := ms.Keys;
    while todo != {}
      invariant todo <= ms.Keys
      invariant MergeState(result', names', stats', copies', merged', predefinedHelp)
      invariant forall f :: f in copies' ==> f in copies || fresh(f)
      invariant AddedSome(merged, merged', ms, lists, ms.Keys - todo)
      decreases todo
    {
      var name :| name in todo;
      var mf := ms[name].family;
      MergeStateKeys(result', names', stats', copies', merged', predefinedHelp);
      AddedOneMore(merged, merged', ms, lists, ms.Keys - todo, name);
      assert mf in lists && mf !in copies';
      result', names', stats', copies' := MergeFamily(result', names', stats', copies', merged', predefinedHelp, name, mf);
      merged' := merged'.Add(name, mf, lists[mf]);
      assert ms.Keys - todo + {name} == ms.Keys - (todo - {name});
      todo := todo - {name};
    }
    assert ms.Keys - todo == ms.Keys;
  }

  lemma NothingMerged(s: Store<MetricFamily>, lists: map<MetricFamily, seq<Metric>>, predefinedHelp: map<string, string>)
    ensures Tracks(Merged(map[], map[]), s, lists, []) && Enumerates([], {})
    ensures MergeState([], [], map[], {}, Merged(map[], map[]), predefinedHelp)
  {}

  lemma ShallowGroups(groups: GroupMap)
    ensures ShallowOf(groups).Keys == groups.Keys
    ensures forall k :: k in groups ==> ShallowOf(groups)[k].metrics == groups[k].metrics.m
  {}

  /** The visit of all groups, in an arbitrary order. */
  method VisitGroups(groups: GroupMap, predefinedHelp: map<string, string>,
                     ghost s: Store<MetricFamily>, ghost lists: map<MetricFamily, seq<Metric>>)
    returns (result: seq<MetricFamily>, ghost order: seq<string>, ghost names: seq<string>, ghost stats: map<string, MfStat>,
             ghost copies: set<MetricFamily>, ghost merged: Merged)
    requires s == ShallowOf(groups)
    requires forall f :: f in lists ==> f.metric == lists[f]
    requires forall k, n :: k in s && n in s[k].metrics ==> s[k].metrics[n].family in lists
    ensures Enumerates(order, groups.Keys)
    ensures MergeState(result, names, stats, copies, merged, predefinedHelp)
    ensures forall f :: f in copies ==> fresh(f)
    ensures Tracks(merged, s, lists, order)
  {
    hide MergeState, Tracks, Enumerates, ShallowOf;
    copies, merged := {}, Merged(map[], map[]);
    var stat: map<string, MfStat> := map[];
    result, names, order := [], [], [];
    var todo := groups.Keys;
    NothingMerged(s, lists, predefinedHelp);
    ShallowGroups(groups);
    assert groups.Keys - todo == {};
    while todo != {}
      invariant todo <= groups.Keys && Enumerates(order, groups.Keys - todo)
      invariant MergeState(result, names, stat, copies, merged, predefinedHelp)
      invariant forall f :: f in copies ==> fresh(f)
      invariant Tracks(merged, s, lists, order)
      decreases todo
    {
      var k :| k in todo;
      ghost var before := merged;
      MergeStateKeys(result, names, stat, copies, merged, predefinedHelp);
      result, names, stat, copies, merged :=
        MergeGroup(result, names, stat, copies, merged, predefinedHelp, groups[k].metrics.m, lists);
      TracksGroup(before, merged, s, lists, order, k);
      EnumeratesMore(order, groups.Keys - todo, k);
      assert groups.Keys - todo + {k} == groups.Keys - (todo - {k});
      order := order + [k];
      todo := todo - {k};
    }
    assert groups.Keys - todo == groups.Keys;
    stats := stat;
  }

  /** Merges the families of all groups. No family of the store is written. */
  method MergeGroups(groups: GroupMap, predefinedHelp: map<string, string>)
    returns (result: seq<MetricFamily>, ghost order: seq<string>, ghost names: seq<string>)
    ensures Enumerates(order, groups.Keys) && Enumerates(names, NamesIn(ShallowOf(groups)))
    ensures |result| == |names|
    ensures forall f :: f in result ==> f in FamiliesIn(ShallowOf(groups)) || fresh(f)
    ensures forall i :: 0 <= i < |names| ==>
              IsMergeOf(result[i], Listed(ShallowOf(groups), order, names[i]), names[i], predefinedHelp)
  {
    hide MergeState, Tracks, Enumerates, IsMergeOf, Listed, NamesIn;
    ghost var s := ShallowOf(groups);
    ghost var lists := map f | f in FamiliesIn(s) :: f.metric;
    ListsCover(s, lists);
    ghost var stats, copies, merged;
    result, order, names, stats, copies, merged := VisitGroups(groups, predefinedHelp, s, lists);
    MergeStateSizes(result, names, stats, copies, merged, predefinedHelp);
    assert s.Keys == groups.Keys;
    assert ShallowOf(groups) == s;
    assert forall f :: f in lists ==> lists[f] == f.metric;
    hide *;
    MergeResult(result, names, stats, copies, merged, predefinedHelp, s, lists, order);
  }

  lemma ListsCover(s: Store<MetricFamily>, lists: map<MetricFamily, seq<Metric>>)
    requires lists.Keys == FamiliesIn(s)
    ensures forall k, n :: k in s && n in s[k].metrics ==> s[k].metrics[n].family in lists
  {
    forall k, n | k in s && n in s[k].metrics ensures s[k].metrics[n].family in lists {
      assert s[k].metrics[n].family in FamiliesIn(s);
    }
  }

  lemma MergeStateSizes(result: seq<MetricFamily>, names: seq<string>, stats: map<string, MfStat>,
                        copies: set<MetricFamily>, merged: Merged, predefinedHelp: map<string, string>)
    requires MergeState(result, names, stats, copies, merged, predefinedHelp)
    ensures |names| == |result|
  {}

  lemma MergeStateKeys(result: seq<MetricFamily>, names: seq<string>, stats: map<string, MfStat>,
                       copies: set<MetricFamily>, merged: Merged, predefinedHelp: map<string, string>)
    requires MergeState(result, names, stats, copies, merged, predefinedHelp)
    ensures merged.first.Keys == merged.metrics.Keys
  {}

  lemma EnumeratesMore(order: seq<string>, keys: set<string>, k: string)
    requires Enumerates(order, keys) && k !in keys
    ensures Enumerates(order + [k], keys + {k})
  {}

  /** An entry of the result is the concatenation of the listed families under the first one's name
      and type, with the predefined help string if there is one. */
  ghost predicate IsMergeOf(r: MetricFamily, fs: seq<MetricFamily>, name: string, predefinedHelp: map<string, string>)
    reads r, fs
  {
    && fs != [] && r.name == fs[0].name && r.typ == fs[0].typ
    && r.help == HelpFor(name, predefinedHelp, fs[0].help)
    && r.metric == MetricsOf(fs)
  }

  lemma {:induction false} ListedFrom(s: Store<MetricFamily>, order: seq<string>, name: string)
    ensures forall f :: f in Listed(s, order, name) ==> f in FamiliesIn(s)
    ensures Listed(s, order, name) != [] <==> exists k :: k in order && k in s && name in s[k].metrics
  {
    if order != [] {
      var k := order[|order| - 1];
      ListedFrom(s, order[..|order| - 1], name);
      assert order == order[..|order| - 1] + [k];
      if k in s && name in s[k].metrics { assert s[k].metrics[name].family in FamiliesIn(s); }
    }
  }

  lemma MergeResult(result: seq<MetricFamily>, names: seq<string>, stats: map<string, MfStat>,
                    copies: set<MetricFamily>, merged: Merged, predefinedHelp: map<string, string>,
                    s: Store<MetricFamily>, lists: map<MetricFamily, seq<Metric>>, order: seq<string>)
    requires MergeState(result, names, stats, copies, merged, predefinedHelp)
    requires Tracks(merged, s, lists, order) && Enumerates(order, s.Keys)
    requires lists.Keys == FamiliesIn(s) && forall f :: f in lists ==> lists[f] == f.metric
    ensures Enumerates(names, NamesIn(s))
    ensures forall f :: f in result ==> f in FamiliesIn(s) || f in copies
    ensures forall i :: 0 <= i < |names| ==> IsMergeOf(result[i], Listed(s, order, names[i]), names[i], predefinedHelp)
  {
    forall n ensures n in names <==> n in NamesIn(s) {
      ListedFrom(s, order, n);
      assert At(merged, n) == Summary(lists, Listed(s, order, n));
      assert n in names <==> n in stats;
    }
    forall i | 0 <= i < |names|
      ensures IsMergeOf(result[i], Listed(s, order, names[i]), names[i], predefinedHelp)
      ensures result[i] in FamiliesIn(s) || result[i] in copies
    {
      var n := names[i];
      var fs := Listed(s, order, n);
      ListedFrom(s, order, n);
      assert At(merged, n) == Summary(lists, fs);
      assert EntryAt(result, stats, copies, merged, predefinedHelp, n);
      RecordedIsMetricsOf(lists, fs);
      assert fs[0] in fs;
    }
  }
}
