/** The in-memory collector (core/metrics/collector.go): a capped index of series that agrees with
    the log of everything observed. */
module MetricCollectors {
  import opened Sorting
  import opened ByteStrings
  import opened MetricSeries
  import opened MetricOrder
  import opened MetricLog

  const DEFAULT_MAX_SERIES_PER_METRIC := 200

  /** Reading a Go map of numbers: a missing key reads zero. */
  function Get(m: map<Bytes, int>, key: Bytes): int {
    if key in m then m[key] else 0
  }

  // ---------- The index on values ----------

  datatype Entry = Entry(id: Identity, value: int, stats: Stats)

  datatype Index = Index(entries: map<Bytes, Entry>, counts: map<Bytes, int>, dropped: map<Bytes, int>,
                         reported: set<Bytes>)

  function Update(entry: Entry, sample: Sample): Entry {
    match sample
    case Delta(amount) => entry.(value := Wrap(entry.value + amount))
    case Measured(value) => entry.(stats := Fold(entry.stats, value))
  }

  predicate Full(counts: map<Bytes, int>, cap: int, name: Bytes) {
    cap > 0 && Get(counts, name) >= cap
  }

  /** What lookupOrCreate leaves: the series is filed, or the observation is dropped. */
  function Prepare(x: Index, cap: int, key: Bytes, id: Identity): Index {
    if key in x.entries then x
    else if Full(x.counts, cap, id.name) then
      x.(dropped := x.dropped[id.name := Wrap(Get(x.dropped, id.name) + 1)], reported := x.reported + {id.name})
    else
      x.(entries := x.entries[key := Entry(id, 0, NO_STATS)], counts := x.counts[id.name := Get(x.counts, id.name) + 1])
  }

  function RecordAt(x: Index, cap: int, key: Bytes, e: Event): Index {
    var y := Prepare(x, cap, key, e.id);
    if key in y.entries then y.(entries := y.entries[key := Update(y.entries[key], e.sample)]) else y
  }

  /** One observation. */
  function Record(x: Index, cap: int, e: Event): Index {
    RecordAt(x, cap, SeriesKey(e.id), e)
  }

  ghost predicate FiledRight(x: Index) {
    forall key :: key in x.entries ==> SeriesKey(x.entries[key].id) == key
  }

  ghost predicate Kept(x: Index, log: seq<Event>, cap: int) {
    forall id :: SeriesKey(id) in x.entries <==> IsAccepted(log, cap, id)
  }

  ghost predicate Aggregated(x: Index, log: seq<Event>) {
    forall key :: key in x.entries ==> EntryRight(x.entries[key], log)
  }

  ghost predicate Counted(x: Index, log: seq<Event>, cap: int) {
    forall name :: Get(x.counts, name) == |Accepted(log, cap, name)|
  }

  ghost predicate DropsCounted(x: Index, log: seq<Event>, cap: int) {
    && (forall name :: Get(x.dropped, name) == Wrap(Dropped(log, cap, name)))
    && (forall name :: name in x.reported <==> Dropped(log, cap, name) > 0)
  }

  /** The index says of the log what it should. */
  ghost predicate Agrees(x: Index, log: seq<Event>, cap: int) {
    FiledRight(x) && Kept(x, log, cap) && Aggregated(x, log) && Counted(x, log, cap) && DropsCounted(x, log, cap)
  }

  lemma RecordCounted(x: Index, log: seq<Event>, cap: int, e: Event)
    requires Kept(x, log, cap) && Counted(x, log, cap)
    ensures Counted(Record(x, cap, e), log + [e], cap)
  {
    AcceptedSnoc(log, cap, e);
    assert SeriesKey(e.id) in x.entries <==> IsAccepted(log, cap, e.id);
  }

  lemma RecordKept(x: Index, log: seq<Event>, cap: int, e: Event)
    requires Kept(x, log, cap) && Counted(x, log, cap)
    ensures Kept(Record(x, cap, e), log + [e], cap)
  {
    forall id ensures SeriesKey(id) in Record(x, cap, e).entries <==> IsAccepted(log + [e], cap, id) {
      RecordKeptOne(x, log, cap, e, id);
    }
  }

  lemma RecordKeptOne(x: Index, log: seq<Event>, cap: int, e: Event, id: Identity)
    requires Kept(x, log, cap) && Counted(x, log, cap)
    ensures SeriesKey(id) in Record(x, cap, e).entries <==> IsAccepted(log + [e], cap, id)
  {
    AcceptedSnoc(log, cap, e);
    SeriesKeyInjective(id, e.id);
    assert SeriesKey(id) in x.entries <==> IsAccepted(log, cap, id);
    assert SeriesKey(e.id) in x.entries <==> IsAccepted(log, cap, e.id);
  }

  /** A series that is not kept has seen nothing it could have aggregated. */
  lemma {:induction false} NothingBefore(log: seq<Event>, id: Identity)
    requires id !in Arrived(log, id.name)
    ensures Total(log, id) == 0 && StatsOf(log, id) == NO_STATS
  {
    if log == [] {
    } else {
      NothingBefore(log[..|log| - 1], id);
    }
  }

  ghost predicate EntryRight(entry: Entry, log: seq<Event>) {
    entry.value == Total(log, entry.id) && entry.stats == StatsOf(log, entry.id)
  }

  lemma UpdateRight(entry: Entry, log: seq<Event>, e: Event)
    requires EntryRight(entry, log)
    ensures entry.id == e.id ==> EntryRight(Update(entry, e.sample), log + [e])
    ensures entry.id != e.id ==> EntryRight(entry, log + [e])
  {
    assert (log + [e])[..|log|] == log;
  }

  lemma RecordAtAggregated(x: Index, log: seq<Event>, cap: int, key: Bytes, e: Event)
    requires Aggregated(x, log)
    requires forall k :: k in x.entries ==> (x.entries[k].id == e.id <==> k == key)
    requires key !in x.entries && !Full(x.counts, cap, e.id.name) ==> EntryRight(Entry(e.id, 0, NO_STATS), log)
    ensures Aggregated(RecordAt(x, cap, key, e), log + [e])
  {
    var y := RecordAt(x, cap, key, e);
    if key in y.entries && key !in x.entries {
      UpdateRight(Entry(e.id, 0, NO_STATS), log, e);
    }
    forall k | k in y.entries ensures EntryRight(y.entries[k], log + [e]) {
      if k in x.entries {
        UpdateRight(x.entries[k], log, e);
      }
    }
  }

  lemma RecordAggregated(x: Index, log: seq<Event>, cap: int, e: Event)
    requires FiledRight(x) && Kept(x, log, cap) && Counted(x, log, cap) && Aggregated(x, log)
    ensures Aggregated(Record(x, cap, e), log + [e])
  {
    var key := SeriesKey(e.id);
    assert key in x.entries <==> IsAccepted(log, cap, e.id);
    if key !in x.entries && !Full(x.counts, cap, e.id.name) {
      NothingBefore(log, e.id);
    }
    forall k | k in x.entries ensures x.entries[k].id == e.id <==> k == key {
      SeriesKeyInjective(x.entries[k].id, e.id);
    }
    RecordAtAggregated(x, log, cap, key, e);
  }

  lemma RecordDrops(x: Index, log: seq<Event>, cap: int, e: Event)
    requires Kept(x, log, cap) && Counted(x, log, cap) && DropsCounted(x, log, cap)
    ensures DropsCounted(Record(x, cap, e), log + [e], cap)
  {
    assert (log + [e])[..|log|] == log;
    AcceptedSnoc(log, cap, e);
    WrapAdd(Dropped(log, cap, e.id.name), 1);
    assert SeriesKey(e.id) in x.entries <==> IsAccepted(log, cap, e.id);
  }

  lemma RecordFiled(x: Index, cap: int, e: Event)
    requires FiledRight(x)
    ensures FiledRight(Record(x, cap, e))
  {
  }

  /** Recording one more observation keeps the index in agreement with the log. */
  lemma RecordAgrees(x: Index, log: seq<Event>, cap: int, e: Event)
    requires Agrees(x, log, cap)
    ensures Agrees(Record(x, cap, e), log + [e], cap)
  {
    RecordFiled(x, cap, e);
    RecordKept(x, log, cap, e);
    RecordCounted(x, log, cap, e);
    RecordAggregated(x, log, cap, e);
    RecordDrops(x, log, cap, e);
  }

  function RecordAll(cap: int, log: seq<Event>): Index {
    if log == [] then Index(map[], map[], map[], {})
    else Record(RecordAll(cap, log[..|log| - 1]), cap, log[|log| - 1])
  }

  lemma RecordOneMore(cap: int, log: seq<Event>, e: Event)
    ensures RecordAll(cap, log + [e]) == RecordAt(RecordAll(cap, log), cap, SeriesKey(e.id), e)
  {
    assert (log + [e])[..|log|] == log;
  }

  /** The collector refines its log, for any observations and any cap. */
  lemma {:induction false} RefinesLog(cap: int, log: seq<Event>)
    ensures Agrees(RecordAll(cap, log), log, cap)
  {
    if log == [] {
    } else {
      RefinesLog(cap, log[..|log| - 1]);
      RecordAgrees(RecordAll(cap, log[..|log| - 1]), log[..|log| - 1], cap, log[|log| - 1]);
      assert log == log[..|log| - 1] + [log[|log| - 1]];
    }
  }

  lemma KeptRight(cap: int, log: seq<Event>)
    ensures FiledRight(RecordAll(cap, log)) && Kept(RecordAll(cap, log), log, cap)
  {
    RefinesLog(cap, log);
  }

  // ---------- Sorting for export ----------

  predicate SeriesBefore(x: Series, y: Series) {
    Before(x.id, y.id)
  }

  function SortSeries(s: seq<Series>): seq<Series> {
    Sort(s, SeriesBefore)
  }

  /** Sorting yields the same series, each once, in the order of compareSeries. */
  lemma SortKeepsSeries(s: seq<Series>)
    requires forall i, j :: 0 <= i < j < |s| ==> s[i].id != s[j].id
    ensures InOrder(SortSeries(s), SeriesBefore)
    ensures multiset(SortSeries(s)) == multiset(s)
  {
    forall x, y, z | x in s && y in s && z in s && SeriesBefore(x, y) && SeriesBefore(y, z) ensures SeriesBefore(x, z) {
      SeriesOrder(x.id, y.id, z.id);
    }
    forall x | x in s ensures !SeriesBefore(x, x) {
      SeriesOrder(x.id, x.id, x.id);
    }
    forall i, j | 0 <= i < j < |s| ensures SeriesBefore(s[i], s[j]) || SeriesBefore(s[j], s[i]) {
      SeriesOrder(s[i].id, s[j].id, s[i].id);
      SeriesOrder(s[j].id, s[i].id, s[j].id);
    }
    SortIsSorted(s, SeriesBefore);
  }

  function Ids(s: seq<Series>): (ids: seq<Identity>)
    ensures |ids| == |s| && forall i :: 0 <= i < |s| ==> ids[i] == s[i].id
  {
    seq(|s|, i requires 0 <= i < |s| => s[i].id)
  }

  // ---------- The classes ----------

  class Series {
    const id: Identity
    ghost const key: Bytes
    var value: int
    var stats: Stats

    constructor (id: Identity, ghost key: Bytes)
      ensures this.id == id && this.key == key && value == 0 && stats == NO_STATS
    {
      this.id := id;
      this.key := key;
      value := 0;
      stats := NO_STATS;
    }

    method Observe(sample: real)
      modifies this`stats
      ensures stats == Fold(old(stats), sample)
    {
      var min, max := stats.min, stats.max;
      if stats.count == 0 {
        min := sample;
        max := sample;
      } else {
        min := if sample < min then sample else min;
        max := if sample > max then sample else max;
      }
      stats := Stats(stats.count + 1, stats.sum + sample, min, max);
    }
  }

  lemma OneEntryChanged(x: Index, y: Index, key: Bytes, entry: Entry)
    requires y == x.(entries := y.entries) && y.entries.Keys == x.entries.Keys && key in x.entries
    requires y.entries[key] == entry && forall k :: k in x.entries && k != key ==> y.entries[k] == x.entries[k]
    ensures y == x.(entries := x.entries[key := entry])
  {
    assert y.entries == x.entries[key := entry];
  }

  lemma OneEntryFiled(x: Index, y: Index, key: Bytes, entry: Entry)
    requires y == x.(entries := y.entries, counts := y.counts) && y.entries.Keys == x.entries.Keys + {key}
    requires y.entries[key] == entry && forall k :: k in x.entries && k != key ==> y.entries[k] == x.entries[k]
    ensures y == x.(entries := x.entries[key := entry], counts := y.counts)
  {
    assert y.entries == x.entries[key := entry];
  }

  /** The option a collector is built with, if any. */
  datatype CapOption = NoOption | MaxSeries(maxSeries: int)

  class Collector {
    const maxSeriesPerMetric: int
    var series: map<Bytes, Series>
    var seriesPerMetric: map<Bytes, int>
    var dropped: map<Bytes, int>
    var capReported: set<Bytes>
    ghost var log: seq<Event>

    ghost function View(): Index
      reads this`series, this`seriesPerMetric, this`dropped, this`capReported, series.Values
    {
      Index(map key | key in series :: Entry(series[key].id, series[key].value, series[key].stats),
            seriesPerMetric, dropped, capReported)
    }

    /** Every series is filed under its own key, so different keys lead to different objects. */
    ghost predicate Filed()
      reads this`series
    {
      forall key :: key in series ==> series[key].key == key
    }

    /** The index is what recording the log leaves. */
    ghost predicate Valid()
      reads this, series.Values
    {
      Filed() && View() == RecordAll(maxSeriesPerMetric, log)
    }

    constructor (option: CapOption)
      ensures Valid() && log == [] && fresh(series.Values)
      ensures maxSeriesPerMetric == if option.NoOption? then 200 else option.maxSeries
    {
      maxSeriesPerMetric := DEFAULT_MAX_SERIES_PER_METRIC;
      if option.MaxSeries? {
        maxSeriesPerMetric := option.maxSeries;
      }
      series := map[];
      seriesPerMetric := map[];
      dropped := map[];
      capReported := {};
      log := [];
    }

    /** Finds the series, files a new one, or counts the observation as dropped. */
    method LookupOrCreate(key: Bytes, id: Identity) returns (s: Series?)
      requires Filed()
      modifies this`series, this`seriesPerMetric, this`dropped, this`capReported
      ensures Filed() && View() == Prepare(old(View()), maxSeriesPerMetric, key, id)
      ensures forall k :: k in series ==> (k in old(series) && series[k] == old(series)[k]) || fresh(series[k])
      ensures s == null <==> key !in series
      ensures s != null ==> s == series[key]
    {
      if key in series {
        return series[key];
      }
      if maxSeriesPerMetric > 0 && Get(seriesPerMetric, id.name) >= maxSeriesPerMetric {
        DropOne(id.name);
        return null;
      }
      s := FileNew(key, id);
    }

    method DropOne(name: Bytes)
      modifies this`dropped, this`capReported
      ensures dropped == old(dropped)[name := Wrap(Get(old(dropped), name) + 1)]
      ensures capReported == old(capReported) + {name}
    {
      dropped := dropped[name := Wrap(Get(dropped, name) + 1)];
      if name !in capReported {
        capReported := capReported + {name};
      }
    }

    method FileNew(key: Bytes, id: Identity) returns (s: Series)
      requires Filed() && key !in series
      modifies this`series, this`seriesPerMetric
      ensures Filed() && series == old(series)[key := s] && fresh(s)
      ensures View() == old(View()).(entries := old(View()).entries[key := Entry(id, 0, NO_STATS)],
                                     counts := old(seriesPerMetric)[id.name := Get(old(seriesPerMetric), id.name) + 1])
    {
      ghost var was := View();
      s := new Series(id, key);
      series := series[key := s];
      seriesPerMetric := seriesPerMetric[id.name := Get(seriesPerMetric, id.name) + 1];
      OneEntryFiled(was, View(), key, Entry(id, 0, NO_STATS));
    }

    method AddTo(key: Bytes, delta: int)
      requires Filed() && key in series
      modifies series[key]
      ensures Filed()
      ensures View()
           == old(View()).(entries := old(View()).entries[key := Update(old(View()).entries[key], Delta(delta))])
    {
      ghost var was := View();
      var s := series[key];
      assert forall k :: k in series && k != key ==> series[k] != s;
      s.value := Wrap(s.value + delta);
      OneEntryChanged(was, View(), key, Update(was.entries[key], Delta(delta)));
    }

    method ObserveIn(key: Bytes, value: real)
      requires Filed() && key in series
      modifies series[key]
      ensures Filed()
      ensures View()
           == old(View()).(entries := old(View()).entries[key := Update(old(View()).entries[key], Measured(value))])
    {
      ghost var was := View();
      var s := series[key];
      assert forall k :: k in series && k != key ==> series[k] != s;
      s.Observe(value);
      OneEntryChanged(was, View(), key, Update(was.entries[key], Measured(value)));
    }

    method AddAt(key: Bytes, id: Identity, delta: int)
      requires Filed()
      modifies this`series, this`seriesPerMetric, this`dropped, this`capReported, series.Values
      ensures Filed() && View() == RecordAt(old(View()), maxSeriesPerMetric, key, Event(id, Delta(delta)))
      ensures forall k :: k in series ==> (k in old(series) && series[k] == old(series)[k]) || fresh(series[k])
    {
      var s := LookupOrCreate(key, id);
      if s != null {
        AddTo(key, delta);
      }
    }

    method ObserveAt(key: Bytes, id: Identity, value: real)
      requires Filed()
      modifies this`series, this`seriesPerMetric, this`dropped, this`capReported, series.Values
      ensures Filed() && View() == RecordAt(old(View()), maxSeriesPerMetric, key, Event(id, Measured(value)))
      ensures forall k :: k in series ==> (k in old(series) && series[k] == old(series)[k]) || fresh(series[k])
    {
      var s := LookupOrCreate(key, id);
      if s != null {
        ObserveIn(key, value);
      }
    }

    method Add(id: Identity, delta: int)
      requires Valid()
      modifies this, series.Values
      ensures Valid() && log == old(log) + [Event(id, Delta(delta))]
      ensures forall k :: k in series ==> (k in old(series) && series[k] == old(series)[k]) || fresh(series[k])
    {
      var key := BuildSeriesKey(id);
      ghost var all := log + [Event(id, Delta(delta))];
      RecordOneMore(maxSeriesPerMetric, log, Event(id, Delta(delta)));
      AddAt(key, id, delta);
      assert View() == RecordAll(maxSeriesPerMetric, all);
      log := all;
    }

    method Observe(id: Identity, value: real)
      requires Valid()
      modifies this, series.Values
      ensures Valid() && log == old(log) + [Event(id, Measured(value))]
      ensures forall k :: k in series ==> (k in old(series) && series[k] == old(series)[k]) || fresh(series[k])
    {
      var key := BuildSeriesKey(id);
      ghost var all := log + [Event(id, Measured(value))];
      RecordOneMore(maxSeriesPerMetric, log, Event(id, Measured(value)));
      ObserveAt(key, id, value);
      assert View() == RecordAll(maxSeriesPerMetric, all);
      log := all;
    }

    /** The total of a counter series: everything added to it, or zero if it was not kept. */
    method Value(id: Identity) returns (v: int)
      requires Valid()
      ensures v == if IsAccepted(log, maxSeriesPerMetric, id) then Wrap(SumOfDeltas(log, id)) else 0
    {
      RefinesLog(maxSeriesPerMetric, log);
      TotalIsSum(log, id);
      var key := BuildSeriesKey(id);
      assert key in View().entries <==> IsAccepted(log, maxSeriesPerMetric, id);
      if key !in series {
        return 0;
      }
      FoundIsAsked(View(), key, id);
      v := series[key].value;
    }

    /** The summary of a distribution series and whether the series exists. */
    method GetStats(id: Identity) returns (stats: Stats, found: bool)
      requires Valid()
      ensures found <==> IsAccepted(log, maxSeriesPerMetric, id)
      ensures stats == if found then StatsOf(log, id) else Stats(0, 0.0, 0.0, 0.0)
    {
      RefinesLog(maxSeriesPerMetric, log);
      var key := BuildSeriesKey(id);
      assert key in View().entries <==> IsAccepted(log, maxSeriesPerMetric, id);
      if key !in series {
        return NO_STATS, false;
      }
      FoundIsAsked(View(), key, id);
      return series[key].stats, true;
    }

    method DroppedObservations(name: Bytes) returns (n: int)
      requires Valid()
      ensures n == Wrap(Outside(log, Accepted(log, maxSeriesPerMetric, name), name))
    {
      RefinesLog(maxSeriesPerMetric, log);
      DroppedIsOutside(log, [], maxSeriesPerMetric, name);
      assert log + [] == log;
      n := Get(dropped, name);
    }

    /** Every series of the map once, in an arbitrary order. */
    method CollectAll() returns (all: seq<Series>)
      requires Valid()
      ensures forall i :: 0 <= i < |all| ==> all[i] in series.Values
      ensures forall i, j :: 0 <= i < j < |all| ==> all[i].id != all[j].id
      ensures forall id :: id in Ids(all) <==> IsAccepted(log, maxSeriesPerMetric, id)
    {
      var left := series.Keys;
      ghost var keys: seq<Bytes> := [];
      all := [];
      while left != {}
        invariant left <= series.Keys
        invariant |keys| == |all|
        invariant forall i :: 0 <= i < |keys| ==> keys[i] in series && keys[i] !in left && all[i] == series[keys[i]]
        invariant forall i, j :: 0 <= i < j < |keys| ==> keys[i] != keys[j]
        invariant forall key :: key in series && key !in left ==> key in keys
        decreases left
      {
        var key :| key in left;
        all := all + [series[key]];
        keys := keys + [key];
        left := left - {key};
      }
      KeptRight(maxSeriesPerMetric, log);
      CollectedIds(View(), log, maxSeriesPerMetric, keys, all);
    }

    /** Every kept series once, in ascending order of metric name and labels, whatever order the map is
        iterated in; `OrderUnique` says there is only one such list. */
    method AllSeries() returns (all: seq<Series>)
      requires Valid()
      ensures InOrder(Ids(all), Before)
      ensures forall i, j :: 0 <= i < j < |all| ==> ComesBefore(all[i].id, all[j].id)
      ensures forall id :: id in Ids(all) <==> IsAccepted(log, maxSeriesPerMetric, id)
      ensures forall i :: 0 <= i < |all| ==> all[i] in series.Values
    {
      all := CollectAll();
      ghost var found := all;
      ExportIds(all);
      all := SortSeries(all);
      forall i | 0 <= i < |all| ensures all[i] in series.Values {
        assert all[i] in multiset(found);
      }
      forall i, j | 0 <= i < j < |all| ensures ComesBefore(all[i].id, all[j].id) {
        assert Before(Ids(all)[i], Ids(all)[j]);
        BeforeMeans(all[i].id, all[j].id);
      }
    }
  }

  lemma ExportIds(found: seq<Series>)
    requires forall i, j :: 0 <= i < j < |found| ==> found[i].id != found[j].id
    ensures InOrder(Ids(SortSeries(found)), Before)
    ensures forall id :: id in Ids(SortSeries(found)) <==> id in Ids(found)
    ensures multiset(SortSeries(found)) == multiset(found)
  {
    SortKeepsSeries(found);
    var sorted := SortSeries(found);
    assert forall i, j :: 0 <= i < j < |sorted| ==> SeriesBefore(sorted[i], sorted[j]);
    forall id ensures id in Ids(SortSeries(found)) <==> id in Ids(found) {
      SameIds(found, SortSeries(found), id);
    }
  }

  lemma CollectedIds(x: Index, log: seq<Event>, cap: int, keys: seq<Bytes>, all: seq<Series>)
    requires FiledRight(x) && Kept(x, log, cap) && |keys| == |all|
    requires forall key :: key in x.entries <==> key in keys
    requires forall i :: 0 <= i < |keys| ==> keys[i] in x.entries && x.entries[keys[i]].id == all[i].id
    requires forall i, j :: 0 <= i < j < |keys| ==> keys[i] != keys[j]
    ensures forall i, j :: 0 <= i < j < |all| ==> all[i].id != all[j].id
    ensures forall id :: id in Ids(all) <==> IsAccepted(log, cap, id)
  {
    forall i, j | 0 <= i < j < |all| ensures all[i].id != all[j].id {
      assert SeriesKey(x.entries[keys[i]].id) == keys[i] && SeriesKey(x.entries[keys[j]].id) == keys[j];
    }
    forall id ensures id in Ids(all) <==> IsAccepted(log, cap, id) {
      assert SeriesKey(id) in x.entries <==> IsAccepted(log, cap, id);
      if SeriesKey(id) in x.entries {
        var i :| 0 <= i < |keys| && keys[i] == SeriesKey(id);
        FoundIsAsked(x, keys[i], id);
        assert Ids(all)[i] == id;
      }
      if id in Ids(all) {
        var i :| 0 <= i < |all| && Ids(all)[i] == id;
        assert SeriesKey(x.entries[keys[i]].id) == keys[i];
      }
    }
  }

  lemma SameIds(s: seq<Series>, t: seq<Series>, id: Identity)
    requires multiset(s) == multiset(t)
    ensures id in Ids(s) <==> id in Ids(t)
  {
    if id in Ids(s) {
      var i :| 0 <= i < |s| && Ids(s)[i] == id;
      assert s[i] in multiset(t);
      var j :| 0 <= j < |t| && t[j] == s[i];
      assert Ids(t)[j] == id;
    }
    if id in Ids(t) {
      var i :| 0 <= i < |t| && Ids(t)[i] == id;
      assert t[i] in multiset(s);
      var j :| 0 <= j < |s| && s[j] == t[i];
      assert Ids(s)[j] == id;
    }
  }

  lemma FoundIsAsked(x: Index, key: Bytes, id: Identity)
    requires FiledRight(x) && key in x.entries && key == SeriesKey(id)
    ensures x.entries[key].id == id
  {
    SeriesKeyInjective(x.entries[key].id, id);
  }
}
