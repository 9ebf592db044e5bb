/** Which order compareSeries is, said without comparing from the front (core/metrics/series.go). */
module MetricOrder {
  import opened ByteStrings
  import opened MetricSeries

  /** A proper prefix, or the smaller byte at the first position where they differ. */
  ghost predicate Smaller(a: Bytes, b: Bytes) {
    exists k: nat :: DiffersAt(a, b, k) && (k == |a| || a[k] < b[k])
  }

  ghost predicate DiffersAt<T>(a: seq<T>, b: seq<T>, k: nat) {
    k <= |a| && k < |b| && a[..k] == b[..k]
  }

  ghost predicate SmallerLabel(x: Label, y: Label) {
    Smaller(x.key, y.key) || (x.key == y.key && Smaller(x.value, y.value))
  }

  ghost predicate SmallerLabels(a: seq<Label>, b: seq<Label>) {
    exists k: nat :: DiffersAt(a, b, k) && (k == |a| || SmallerLabel(a[k], b[k]))
  }

  lemma DiffersCons<T>(a: seq<T>, b: seq<T>, k: nat)
    requires a != [] && b != [] && a[0] == b[0]
    ensures DiffersAt(a, b, k + 1) <==> DiffersAt(a[1..], b[1..], k)
  {
    if k + 1 <= |a| && k + 1 < |b| {
      assert a[..k + 1] == [a[0]] + a[1..][..k] && b[..k + 1] == [b[0]] + b[1..][..k];
      assert a[..k + 1][1..] == a[1..][..k] && b[..k + 1][1..] == b[1..][..k];
    }
  }

  lemma SameFront<T>(a: seq<T>, b: seq<T>, k: nat)
    requires DiffersAt(a, b, k) && k > 0
    ensures a[0] == b[0]
  {
    assert a[..k][0] == a[0];
  }

  lemma {:induction false} BytesSmaller(a: Bytes, b: Bytes)
    ensures CompareBytes(a, b) < 0 <==> Smaller(a, b)
  {
    if a == [] || b == [] {
      assert b != [] ==> DiffersAt(a, b, 0);
    } else if a[0] != b[0] {
      assert DiffersAt(a, b, 0);
      if k: nat :| DiffersAt(a, b, k) && (k == |a| || a[k] < b[k]) {
        if k > 0 {
          SameFront(a, b, k);
        }
      }
    } else {
      BytesSmaller(a[1..], b[1..]);
      if k: nat :| DiffersAt(a, b, k) && (k == |a| || a[k] < b[k]) {
        if k > 0 {
          DiffersCons(a, b, k - 1);
          assert DiffersAt(a[1..], b[1..], k - 1);
        }
      }
      if k: nat :| DiffersAt(a[1..], b[1..], k) && (k == |a[1..]| || a[1..][k] < b[1..][k]) {
        DiffersCons(a, b, k);
        assert DiffersAt(a, b, k + 1);
      }
    }
  }

  /** At the first label that differs the key decides, and the value for equal keys. */
  lemma LabelDecides(x: Label, y: Label)
    ensures SmallerLabel(x, y) <==>
              CompareBytes(x.key, y.key) < 0 || (CompareBytes(x.key, y.key) == 0 && CompareBytes(x.value, y.value) < 0)
    ensures x == y <==> CompareBytes(x.key, y.key) == 0 && CompareBytes(x.value, y.value) == 0
    ensures !SmallerLabel(x, x)
  {
    BytesSmaller(x.key, y.key);
    BytesSmaller(x.value, y.value);
    BytesSmaller(x.key, x.key);
    BytesSmaller(x.value, x.value);
    BytesOrder(x.key, y.key, x.key);
    BytesOrder(x.value, y.value, x.value);
    BytesOrder(x.key, x.key, x.key);
    BytesOrder(x.value, x.value, x.value);
  }

  lemma {:induction false} LabelsSmaller(a: seq<Label>, b: seq<Label>)
    ensures CompareLabels(a, b) < 0 <==> SmallerLabels(a, b)
  {
    if a == [] || b == [] {
      assert b != [] ==> DiffersAt(a, b, 0);
    } else {
      LabelDecides(a[0], b[0]);
      if a[0] != b[0] {
        assert DiffersAt(a, b, 0);
        if k: nat :| DiffersAt(a, b, k) && (k == |a| || SmallerLabel(a[k], b[k])) {
          if k > 0 {
            SameFront(a, b, k);
          }
        }
      } else {
        LabelsSmaller(a[1..], b[1..]);
        SmallerTail(a, b);
      }
    }
  }

  lemma SmallerTail(a: seq<Label>, b: seq<Label>)
    requires a != [] && b != [] && a[0] == b[0]
    ensures SmallerLabels(a, b) <==> SmallerLabels(a[1..], b[1..])
  {
    if k: nat :| DiffersAt(a, b, k) && (k == |a| || SmallerLabel(a[k], b[k])) {
      LabelDecides(a[0], b[0]);
      assert k > 0;
      DiffersCons(a, b, k - 1);
      assert DiffersAt(a[1..], b[1..], k - 1);
    }
    if k: nat :| DiffersAt(a[1..], b[1..], k) && (k == |a[1..]| || SmallerLabel(a[1..][k], b[1..][k])) {
      DiffersCons(a, b, k);
      assert DiffersAt(a, b, k + 1);
    }
  }

  /** The name is smaller, or the names are equal and the labels are a proper prefix of the other's, or
      smaller at the first label that differs: by its key, else its value. Bytes count upwards. */
  ghost predicate ComesBefore(a: Identity, b: Identity) {
    Smaller(a.name, b.name) || (a.name == b.name && SmallerLabels(a.labels, b.labels))
  }

  lemma BeforeMeans(a: Identity, b: Identity)
    ensures Before(a, b) <==> ComesBefore(a, b)
  {
    BytesSmaller(a.name, b.name);
    BytesOrder(a.name, b.name, a.name);
    LabelsSmaller(a.labels, b.labels);
  }
}
