/** What the collector should hold, as functions of the plain log of observations. */
module MetricLog {
  import opened Sequences
  import opened ByteStrings
  import opened MetricSeries

  datatype Sample = Delta(amount: int) | Measured(value: real)

  datatype Event = Event(id: Identity, sample: Sample)

  /** Samples are reals: no rounding, no NaN. */
  datatype Stats = Stats(count: nat, sum: real, min: real, max: real)

  const NO_STATS := Stats(0, 0.0, 0.0, 0.0)

  const TWO_63 := 0x8000_0000_0000_0000
  const TWO_64 := 0x1_0000_0000_0000_0000

  /** int64 arithmetic. */
  function Wrap(x: int): int {
    (x + TWO_63) % TWO_64 - TWO_63
  }

  function Fold(s: Stats, value: real): Stats {
    Stats(s.count + 1, s.sum + value,
          if s.count == 0 || value < s.min then value else s.min,
          if s.count == 0 || value > s.max then value else s.max)
  }

  // ---------- Per series ----------

  function Total(log: seq<Event>, id: Identity): int {
    if log == [] then 0
    else
      var e, before := log[|log| - 1], Total(log[..|log| - 1], id);
      if e.id == id && e.sample.Delta? then Wrap(before + e.sample.amount) else before
  }

  function StatsOf(log: seq<Event>, id: Identity): Stats {
    if log == [] then NO_STATS
    else
      var e, before := log[|log| - 1], StatsOf(log[..|log| - 1], id);
      if e.id == id && e.sample.Measured? then Fold(before, e.sample.value) else before
  }

  function SumOfDeltas(log: seq<Event>, id: Identity): int {
    if log == [] then 0
    else
      var e := log[|log| - 1];
      SumOfDeltas(log[..|log| - 1], id) + if e.id == id && e.sample.Delta? then e.sample.amount else 0
  }

  function SamplesOf(log: seq<Event>, id: Identity): seq<real> {
    if log == [] then []
    else
      var e := log[|log| - 1];
      SamplesOf(log[..|log| - 1], id) + if e.id == id && e.sample.Measured? then [e.sample.value] else []
  }

  function SumOf(s: seq<real>): real {
    if s == [] then 0.0 else SumOf(s[..|s| - 1]) + s[|s| - 1]
  }

  /** A counter holds the 64-bit sum of everything added to it. */
  lemma {:induction false} TotalIsSum(log: seq<Event>, id: Identity)
    ensures Total(log, id) == Wrap(SumOfDeltas(log, id))
  {
    if log == [] {
    } else {
      TotalIsSum(log[..|log| - 1], id);
      var e := log[|log| - 1];
      if e.id == id && e.sample.Delta? {
        WrapAdd(SumOfDeltas(log[..|log| - 1], id), e.sample.amount);
      }
    }
  }

  lemma WrapAdd(x: int, y: int)
    ensures Wrap(Wrap(x) + y) == Wrap(x + y)
  {
    var q := (x + TWO_63) / TWO_64;
    assert Wrap(x) == x - q * TWO_64;
    assert Wrap(x) + y + TWO_63 == (x + y + TWO_63) - q * TWO_64;
  }

  /** The count, the sum and the attained extremes of some samples. */
  ghost predicate Summarises(s: Stats, samples: seq<real>) {
    && s.count == |samples| && s.sum == SumOf(samples)
    && (forall v :: v in samples ==> s.min <= v <= s.max)
    && (samples != [] ==> s.min in samples && s.max in samples)
  }

  lemma FoldSummarises(s: Stats, samples: seq<real>, value: real)
    requires Summarises(s, samples)
    ensures Summarises(Fold(s, value), samples + [value])
  {
    assert (samples + [value])[..|samples|] == samples;
    assert forall v :: v in samples + [value] <==> v in samples || v == value;
  }

  /** A distribution holds the summary of its samples, all zero if there is none. */
  lemma {:induction false} StatsMeaning(log: seq<Event>, id: Identity)
    ensures Summarises(StatsOf(log, id), SamplesOf(log, id))
    ensures SamplesOf(log, id) == [] ==> StatsOf(log, id) == Stats(0, 0.0, 0.0, 0.0)
  {
    if log == [] {
    } else {
      var init, e := log[..|log| - 1], log[|log| - 1];
      StatsMeaning(init, id);
      if e.id == id && e.sample.Measured? {
        FoldSummarises(StatsOf(init, id), SamplesOf(init, id), e.sample.value);
        assert SamplesOf(log, id) == SamplesOf(init, id) + [e.sample.value];
      } else {
        assert SamplesOf(log, id) == SamplesOf(init, id);
      }
    }
  }

  // ---------- Which series are kept ----------

  /** The different series of a metric, in order of arrival. */
  function Arrived(log: seq<Event>, name: Bytes): seq<Identity> {
    if log == [] then []
    else
      var e, before := log[|log| - 1], Arrived(log[..|log| - 1], name);
      if e.id.name == name then AppendNew(before, e.id) else before
  }

  /** The first `cap` of them; a cap of zero or less keeps all. */
  function Accepted(log: seq<Event>, cap: int, name: Bytes): seq<Identity> {
    var all := Arrived(log, name);
    if cap > 0 && |all| > cap then all[..cap] else all
  }

  predicate IsAccepted(log: seq<Event>, cap: int, id: Identity) {
    id in Accepted(log, cap, id.name)
  }

  lemma {:induction false} ArrivedMembers(log: seq<Event>, name: Bytes)
    ensures Distinct(Arrived(log, name))
    ensures forall id :: id in Arrived(log, name) ==> id.name == name
    ensures forall id :: id in Arrived(log, name) <==> id.name == name && exists i :: 0 <= i < |log| && log[i].id == id
  {
    if log == [] {
    } else {
      var init, e := log[..|log| - 1], log[|log| - 1];
      ArrivedMembers(init, name);
      forall id ensures id in Arrived(log, name) <==> id.name == name && exists i :: 0 <= i < |log| && log[i].id == id {
        if id in Arrived(init, name) {
          var i :| 0 <= i < |init| && init[i].id == id;
          assert log[i].id == id;
        }
        if id == e.id {
          assert log[|log| - 1].id == id;
        }
        if i :| 0 <= i < |log| && log[i].id == id && i < |init| {
          assert init[i].id == id;
        }
      }
    }
  }

  /** The series kept are the first to arrive, as many as a positive cap admits; later observations only
      add to the order of arrival. */
  lemma {:induction false} FirstAreKept(log: seq<Event>, more: seq<Event>, cap: int, name: Bytes)
    ensures var all, kept := Arrived(log, name), Accepted(log, cap, name);
            kept <= all && |kept| == if 1 <= cap < |all| then cap else |all|
    ensures Arrived(log, name) <= Arrived(log + more, name)
  {
    if more == [] {
      assert log + more == log;
    } else {
      var init, e := more[..|more| - 1], more[|more| - 1];
      FirstAreKept(log, init, cap, name);
      assert (log + more)[..|log + more| - 1] == log + init;
    }
  }

  /** How an observation changes the kept series of its metric, in the collector's own terms. */
  lemma AcceptedSnoc(log: seq<Event>, cap: int, e: Event)
    ensures var before, after := Accepted(log, cap, e.id.name), Accepted(log + [e], cap, e.id.name);
            if e.id in before then after == before
            else if cap > 0 && |before| >= cap then after == before
            else after == before + [e.id]
    ensures forall name :: name != e.id.name ==> Accepted(log + [e], cap, name) == Accepted(log, cap, name)
  {
    assert (log + [e])[..|log|] == log;
    var all := Arrived(log, e.id.name);
    var all' := AppendNew(all, e.id);
    assert Arrived(log + [e], e.id.name) == all';
    if cap > 0 && |all| >= cap {
      assert all'[..cap] == all[..cap];
    }
  }

  /** Observations of a metric whose series was not kept when they came. */
  function Dropped(log: seq<Event>, cap: int, name: Bytes): nat {
    if log == [] then 0
    else
      var e := log[|log| - 1];
      Dropped(log[..|log| - 1], cap, name) + if e.id.name == name && !IsAccepted(log, cap, e.id) then 1 else 0
  }

  /** Observations in `log` of the series of a metric that are not in `kept`. */
  function Outside(log: seq<Event>, kept: seq<Identity>, name: Bytes): nat {
    if log == [] then 0
    else
      var e := log[|log| - 1];
      Outside(log[..|log| - 1], kept, name) + if e.id.name == name && e.id !in kept then 1 else 0
  }

  lemma {:induction false} AcceptedStable(log: seq<Event>, more: seq<Event>, cap: int, id: Identity)
    requires exists i :: 0 <= i < |log| && log[i].id == id
    ensures IsAccepted(log + more, cap, id) <==> IsAccepted(log, cap, id)
  {
    if more == [] {
      assert log + more == log;
    } else {
      var init, e := more[..|more| - 1], more[|more| - 1];
      AcceptedStable(log, init, cap, id);
      assert log + more == (log + init) + [e];
      AcceptedSnoc(log + init, cap, e);
      if e.id == id && !IsAccepted(log + init, cap, id) {
        var i :| 0 <= i < |log| && log[i].id == id;
        assert (log + init)[i].id == id;
        RejectedMeansFull(log + init, cap, id);
      }
    }
  }

  lemma RejectedMeansFull(log: seq<Event>, cap: int, id: Identity)
    requires !IsAccepted(log, cap, id) && exists i :: 0 <= i < |log| && log[i].id == id
    ensures cap > 0 && |Accepted(log, cap, id.name)| == cap
  {
    ArrivedMembers(log, id.name);
    assert id in Arrived(log, id.name);
  }

  /** All or nothing: each series keeps every observation or none, so the dropped count of a metric
      is the number of observations of all series beyond the first `cap`. */
  lemma {:induction false} DroppedIsOutside(log: seq<Event>, more: seq<Event>, cap: int, name: Bytes)
    ensures Dropped(log, cap, name) == Outside(log, Accepted(log + more, cap, name), name)
  {
    if log == [] {
    } else {
      var init, e := log[..|log| - 1], log[|log| - 1];
      DroppedIsOutside(init, [e] + more, cap, name);
      assert init + ([e] + more) == log + more;
      assert log[|log| - 1].id == e.id;
      AcceptedStable(log, more, cap, e.id);
    }
  }
}
