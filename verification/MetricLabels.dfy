/** The canonical form of the labels of an observation (core/metrics/metric.go). */
module MetricLabels {
  import opened ByteStrings
  import opened MetricSeries
  import opened Sorting

  datatype Metric = Metric(name: Bytes, labelKeys: seq<Bytes>)

  datatype Given = Absent | Present(value: Bytes)

  /** The first value given for a key. */
  function FirstValue(labels: seq<Label>, key: Bytes): Given {
    if labels == [] then Absent
    else if labels[0].key == key then Present(labels[0].value)
    else FirstValue(labels[1..], key)
  }

  predicate HasKey(labels: seq<Label>, key: Bytes) {
    exists i :: 0 <= i < |labels| && labels[i].key == key
  }

  /** The declared labels, first value of each key, in the order given. */
  function Declared(m: Metric, labels: seq<Label>, sanitize: Bytes -> Bytes): seq<Label> {
    if labels == [] then []
    else
      var last := |labels| - 1;
      var before := Declared(m, labels[..last], sanitize);
      if labels[last].key in m.labelKeys && !HasKey(before, labels[last].key) then
        before + [Label(labels[last].key, sanitize(labels[last].value))]
      else before
  }

  // ---------- Sorting by key ----------

  predicate KeyBefore(x: Label, y: Label) {
    CompareBytes(x.key, y.key) < 0
  }

  function SortLabels(s: seq<Label>): seq<Label> {
    Sort(s, KeyBefore)
  }

  ghost predicate KeysIncreasing(s: seq<Label>) {
    forall i, j :: 0 <= i < j < |s| ==> CompareBytes(s[i].key, s[j].key) < 0
  }

  ghost predicate KeysDistinct(s: seq<Label>) {
    forall i, j :: 0 <= i < j < |s| ==> s[i].key != s[j].key
  }

  lemma KeyBeforeIsStrict(s: seq<Label>)
    ensures StrictOn(KeyBefore, s)
  {
    forall x, y, z | x in s && y in s && z in s && KeyBefore(x, y) && KeyBefore(y, z) ensures KeyBefore(x, z) {
      BytesOrder(x.key, y.key, z.key);
    }
    forall x | x in s ensures !KeyBefore(x, x) {
      BytesOrder(x.key, x.key, x.key);
    }
  }

  lemma SortKeeps(s: seq<Label>)
    requires KeysDistinct(s)
    ensures KeysIncreasing(SortLabels(s))
    ensures forall y :: y in SortLabels(s) <==> y in s
  {
    KeyBeforeIsStrict(s);
    forall i, j | 0 <= i < j < |s| ensures KeyBefore(s[i], s[j]) || KeyBefore(s[j], s[i]) {
      BytesOrder(s[i].key, s[j].key, s[i].key);
    }
    SortIsSorted(s, KeyBefore);
    forall y ensures y in SortLabels(s) <==> y in s {
      assert y in multiset(SortLabels(s)) <==> y in multiset(s);
    }
    assert forall i, j :: 0 <= i < j < |SortLabels(s)| ==> KeyBefore(SortLabels(s)[i], SortLabels(s)[j]);
  }

  // ---------- The canonical form ----------

  function Normalized(m: Metric, labels: seq<Label>, sanitize: Bytes -> Bytes): seq<Label> {
    SortLabels(Declared(m, labels, sanitize))
  }

  /** Declared keys only, strictly increasing, the first value of each key that was given. */
  ghost predicate IsCanonical(m: Metric, labels: seq<Label>, sanitize: Bytes -> Bytes, out: seq<Label>) {
    && KeysIncreasing(out)
    && forall l :: l in out <==> InCanonical(m, labels, sanitize, l)
  }

  predicate InCanonical(m: Metric, labels: seq<Label>, sanitize: Bytes -> Bytes, l: Label) {
    && l.key in m.labelKeys
    && FirstValue(labels, l.key).Present?
    && l.value == sanitize(FirstValue(labels, l.key).value)
  }

  lemma {:induction false} FirstValueSnoc(labels: seq<Label>, x: Label, key: Bytes)
    ensures FirstValue(labels + [x], key) ==
            if FirstValue(labels, key).Present? then FirstValue(labels, key)
            else if x.key == key then Present(x.value) else Absent
  {
    if labels == [] {
      assert labels + [x] == [x];
    } else {
      assert (labels + [x])[1..] == labels[1..] + [x];
      FirstValueSnoc(labels[1..], x, key);
    }
  }

  lemma {:induction false} DeclaredMembers(m: Metric, labels: seq<Label>, sanitize: Bytes -> Bytes)
    ensures KeysDistinct(Declared(m, labels, sanitize))
    ensures forall l :: l in Declared(m, labels, sanitize) <==> InCanonical(m, labels, sanitize, l)
  {
    if labels == [] {
    } else {
      var last := |labels| - 1;
      var init, x := labels[..last], labels[last];
      DeclaredMembers(m, init, sanitize);
      assert labels == init + [x];
      forall key { FirstValueSnoc(init, x, key); }
      var before := Declared(m, init, sanitize);
      KeyTaken(m, init, sanitize, before, x.key);
    }
  }

  lemma KeyTaken(m: Metric, labels: seq<Label>, sanitize: Bytes -> Bytes, taken: seq<Label>, key: Bytes)
    requires forall l :: l in taken <==> InCanonical(m, labels, sanitize, l)
    ensures HasKey(taken, key) <==> key in m.labelKeys && FirstValue(labels, key).Present?
  {
    if HasKey(taken, key) {
      var i :| 0 <= i < |taken| && taken[i].key == key;
      assert taken[i] in taken && InCanonical(m, labels, sanitize, taken[i]);
    }
    if key in m.labelKeys && FirstValue(labels, key).Present? {
      var l := Label(key, sanitize(FirstValue(labels, key).value));
      assert InCanonical(m, labels, sanitize, l) && l in taken;
    }
  }

  lemma NormalizedIsCanonical(m: Metric, labels: seq<Label>, sanitize: Bytes -> Bytes)
    ensures IsCanonical(m, labels, sanitize, Normalized(m, labels, sanitize))
  {
    DeclaredMembers(m, labels, sanitize);
    SortKeeps(Declared(m, labels, sanitize));
  }

  ghost predicate SameCleanValue(a: seq<Label>, b: seq<Label>, sanitize: Bytes -> Bytes, key: Bytes) {
    match (FirstValue(a, key), FirstValue(b, key))
    case (Present(v), Present(w)) => sanitize(v) == sanitize(w)
    case (Absent, Absent) => true
    case _ => false
  }

  /** Two argument lists name the same series exactly when they agree, after cleaning, on the first
      value of every declared key: order, undeclared keys and repetitions do not matter. */
  lemma SameSeriesIff(m: Metric, a: seq<Label>, b: seq<Label>, sanitize: Bytes -> Bytes)
    ensures Normalized(m, a, sanitize) == Normalized(m, b, sanitize)
       <==> forall key :: key in m.labelKeys ==> SameCleanValue(a, b, sanitize, key)
  {
    NormalizedIsCanonical(m, a, sanitize);
    NormalizedIsCanonical(m, b, sanitize);
    var out, out' := Normalized(m, a, sanitize), Normalized(m, b, sanitize);
    if forall key :: key in m.labelKeys ==> SameCleanValue(a, b, sanitize, key) {
      forall l ensures l in out <==> l in out' {
        assert l.key in m.labelKeys ==> SameCleanValue(a, b, sanitize, l.key);
        assert InCanonical(m, a, sanitize, l) == InCanonical(m, b, sanitize, l);
      }
      KeyBeforeIsStrict(out);
      OrderedOnce(out, out', KeyBefore);
    }
    if out == out' {
      forall key | key in m.labelKeys ensures SameCleanValue(a, b, sanitize, key) {
        CanonicalValue(m, a, b, sanitize, out, key);
        CanonicalValue(m, b, a, sanitize, out, key);
      }
    }
  }

  lemma CanonicalValue(m: Metric, a: seq<Label>, b: seq<Label>, sanitize: Bytes -> Bytes, out: seq<Label>, key: Bytes)
    requires IsCanonical(m, a, sanitize, out) && IsCanonical(m, b, sanitize, out) && key in m.labelKeys
    ensures FirstValue(a, key).Present? ==> SameCleanValue(a, b, sanitize, key)
  {
    if FirstValue(a, key).Present? {
      var l := Label(key, sanitize(FirstValue(a, key).value));
      assert InCanonical(m, a, sanitize, l);
      assert l in out;
      assert InCanonical(m, b, sanitize, l);
    }
  }

  lemma {:induction false} FirstValueIsMember(labels: seq<Label>, key: Bytes, value: Bytes)
    requires KeysDistinct(labels)
    ensures FirstValue(labels, key) == Present(value) <==> Label(key, value) in labels
  {
    if labels == [] {
    } else {
      FirstValueIsMember(labels[1..], key, value);
      assert labels == [labels[0]] + labels[1..];
      assert forall i :: 0 <= i < |labels[1..]| ==> labels[1..][i].key != labels[0].key;
    }
  }

  /** A lookup under any permutation of labels with distinct keys finds the series recorded. */
  lemma PermutationFindsSeries(m: Metric, a: seq<Label>, b: seq<Label>, sanitize: Bytes -> Bytes)
    requires KeysDistinct(a) && KeysDistinct(b) && forall l :: l in a <==> l in b
    ensures Normalized(m, a, sanitize) == Normalized(m, b, sanitize)
  {
    forall key ensures FirstValue(a, key) == FirstValue(b, key) {
      match FirstValue(a, key)
      case Present(v) =>
        FirstValueIsMember(a, key, v);
        FirstValueIsMember(b, key, v);
      case Absent =>
        if FirstValue(b, key).Present? {
          FirstValueIsMember(a, key, FirstValue(b, key).value);
          FirstValueIsMember(b, key, FirstValue(b, key).value);
        }
    }
    SameSeriesIff(m, a, b, sanitize);
  }

  /** `normalize`: resolve and lookupLabels both call it. `sanitize` cleans one value. */
  method Normalize(m: Metric, labels: seq<Label>, sanitize: Bytes -> Bytes) returns (normalized: seq<Label>)
    ensures normalized == Normalized(m, labels, sanitize)
    ensures IsCanonical(m, labels, sanitize, normalized)
  {
    normalized := [];
    var seen: set<Bytes> := {};
    for i := 0 to |labels|
      invariant normalized == Declared(m, labels[..i], sanitize)
      invariant forall key :: key in seen <==> HasKey(normalized, key)
    {
      var l := labels[i];
      assert labels[..i + 1][..i] == labels[..i];
      if l.key !in m.labelKeys {
        continue;
      }
      if l.key in seen {
        continue;
      }
      seen := seen + {l.key};
      ghost var before := normalized;
      normalized := normalized + [Label(l.key, sanitize(l.value))];
      forall key ensures key in seen <==> HasKey(normalized, key) {
        assert normalized[|before|].key == l.key;
        if HasKey(before, key) {
          var j :| 0 <= j < |before| && before[j].key == key;
          assert normalized[j].key == key;
        }
      }
    }
    assert labels[..|labels|] == labels;
    normalized := SortLabels(normalized);
    NormalizedIsCanonical(m, labels, sanitize);
  }
}
