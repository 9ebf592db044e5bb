/** The identity of a metric series: its length-prefixed key and its order (core/metrics/series.go). */
module MetricSeries {
  import opened ByteStrings
  import opened Sorting

  datatype Label = Label(key: Bytes, value: Bytes)

  /** What tells two series apart. */
  datatype Identity = Identity(name: Bytes, labels: seq<Label>)

  const COLON: Byte := 58
  const ZERO: Byte := 48

  // ---------- The key ----------

  /** `strconv.Itoa` of a length. */
  function Itoa(n: nat): Bytes {
    if n < 10 then [ZERO + n] else Itoa(n / 10) + [ZERO + n % 10]
  }

  function LengthPrefixed(value: Bytes): Bytes {
    Itoa(|value|) + [COLON] + value
  }

  function LabelsKey(labels: seq<Label>): Bytes {
    if labels == [] then []
    else
      LabelsKey(labels[..|labels| - 1])
      + LengthPrefixed(labels[|labels| - 1].key) + LengthPrefixed(labels[|labels| - 1].value)
  }

  function SeriesKey(id: Identity): Bytes {
    LengthPrefixed(id.name) + LabelsKey(id.labels)
  }

  lemma KeyGrows(name: Bytes, labels: seq<Label>, i: nat)
    requires i < |labels|
    ensures name + LabelsKey(labels[..i + 1])
         == name + LabelsKey(labels[..i]) + LengthPrefixed(labels[i].key) + LengthPrefixed(labels[i].value)
  {
    assert labels[..i + 1][..i] == labels[..i];
    var a, b, c := LabelsKey(labels[..i]), LengthPrefixed(labels[i].key), LengthPrefixed(labels[i].value);
    assert name + (a + b + c) == name + a + b + c;
  }

  method BuildSeriesKey(id: Identity) returns (key: Bytes)
    ensures key == SeriesKey(id)
  {
    key := LengthPrefixed(id.name);
    for i := 0 to |id.labels|
      invariant key == LengthPrefixed(id.name) + LabelsKey(id.labels[..i])
    {
      var pair := id.labels[i];
      KeyGrows(LengthPrefixed(id.name), id.labels, i);
      key := key + LengthPrefixed(pair.key);
      key := key + LengthPrefixed(pair.value);
    }
    assert id.labels[..|id.labels|] == id.labels;
  }

  // ---------- Decoding the key ----------

  datatype Field = NoField | Field(value: Bytes, rest: Bytes)

  predicate IsDigit(b: Byte) { 48 <= b <= 57 }

  function Atoi(s: Bytes): nat
    requires forall i :: 0 <= i < |s| ==> IsDigit(s[i])
  {
    if s == [] then 0
    else
      assert IsDigit(s[|s| - 1]);
      10 * Atoi(s[..|s| - 1]) + (s[|s| - 1] - ZERO)
  }

  /** How many digits `s` starts with. */
  function Digits(s: Bytes): (n: nat)
    ensures n <= |s| && forall i :: 0 <= i < n ==> IsDigit(s[i])
  {
    if s == [] || !IsDigit(s[0]) then 0 else 1 + Digits(s[1..])
  }

  /** Reads one length-prefixed field off the front. */
  function TakeField(s: Bytes): Field {
    var d := Digits(s);
    var n := Atoi(s[..d]);
    if d == |s| || s[d] != COLON || |s| - d - 1 < n then NoField
    else Field(s[d + 1..d + 1 + n], s[d + 1 + n..])
  }

  lemma {:induction false} ItoaAtoi(n: nat)
    ensures forall i :: 0 <= i < |Itoa(n)| ==> IsDigit(Itoa(n)[i])
    ensures Atoi(Itoa(n)) == n
  {
    if n >= 10 {
      ItoaAtoi(n / 10);
      var init := Itoa(n / 10);
      assert Itoa(n) == init + [ZERO + n % 10];
      assert Itoa(n)[..|init|] == init;
    }
  }

  lemma {:induction false} DigitsStop(digits: Bytes, rest: Bytes)
    requires forall i :: 0 <= i < |digits| ==> IsDigit(digits[i])
    requires rest != [] && !IsDigit(rest[0])
    ensures Digits(digits + rest) == |digits|
  {
    if digits == [] {
      assert digits + rest == rest;
    } else {
      assert (digits + rest)[1..] == digits[1..] + rest;
      DigitsStop(digits[1..], rest);
    }
  }

  /** A field followed by anything is read back exactly, whatever bytes it holds. */
  lemma FieldRoundTrip(value: Bytes, rest: Bytes)
    ensures TakeField(LengthPrefixed(value) + rest) == Field(value, rest)
  {
    var digits := Itoa(|value|);
    var s := LengthPrefixed(value) + rest;
    ItoaAtoi(|value|);
    assert s == digits + ([COLON] + value + rest);
    DigitsStop(digits, [COLON] + value + rest);
    assert s[..|digits|] == digits;
  }

  lemma {:induction false} LabelsKeyCons(first: Label, labels: seq<Label>)
    ensures LabelsKey([first] + labels) == LengthPrefixed(first.key) + LengthPrefixed(first.value) + LabelsKey(labels)
  {
    var all := [first] + labels;
    if labels == [] {
      assert all == [first] && all[..0] == [];
      assert LabelsKey([]) == [];
    } else {
      var init, last := labels[..|labels| - 1], labels[|labels| - 1];
      assert all[..|all| - 1] == [first] + init && all[|all| - 1] == last;
      LabelsKeyCons(first, init);
      var a, b := LengthPrefixed(first.key) + LengthPrefixed(first.value), LabelsKey(init);
      var c, d := LengthPrefixed(last.key), LengthPrefixed(last.value);
      assert a + b + c + d == a + (b + c + d);
    }
  }

  lemma {:induction false} LabelsKeyInjective(a: seq<Label>, b: seq<Label>)
    requires LabelsKey(a) == LabelsKey(b)
    ensures a == b
  {
    if a == [] || b == [] {
      EmptyKey(a);
      EmptyKey(b);
    } else {
      assert a == [a[0]] + a[1..] && b == [b[0]] + b[1..];
      LabelsKeyCons(a[0], a[1..]);
      LabelsKeyCons(b[0], b[1..]);
      SameFirstLabel(a[0], LabelsKey(a[1..]), b[0], LabelsKey(b[1..]));
      LabelsKeyInjective(a[1..], b[1..]);
    }
  }

  lemma EmptyKey(labels: seq<Label>)
    ensures LabelsKey(labels) == [] <==> labels == []
  {
    if labels != [] {
      assert LengthPrefixed(labels[|labels| - 1].value) != [];
    }
  }

  lemma SameFirstLabel(a: Label, restA: Bytes, b: Label, restB: Bytes)
    requires LengthPrefixed(a.key) + LengthPrefixed(a.value) + restA
          == LengthPrefixed(b.key) + LengthPrefixed(b.value) + restB
    ensures a == b && restA == restB
  {
    var keyA, valueA := LengthPrefixed(a.key), LengthPrefixed(a.value);
    var keyB, valueB := LengthPrefixed(b.key), LengthPrefixed(b.value);
    assert keyA + valueA + restA == keyA + (valueA + restA);
    assert keyB + valueB + restB == keyB + (valueB + restB);
    FieldRoundTrip(a.key, LengthPrefixed(a.value) + restA);
    FieldRoundTrip(b.key, LengthPrefixed(b.value) + restB);
    FieldRoundTrip(a.value, restA);
    FieldRoundTrip(b.value, restB);
  }

  /** Two observations share a series exactly when name and labels agree, for arbitrary bytes. */
  lemma SeriesKeyInjective(a: Identity, b: Identity)
    ensures SeriesKey(a) == SeriesKey(b) <==> a == b
  {
    if SeriesKey(a) == SeriesKey(b) {
      FieldRoundTrip(a.name, LabelsKey(a.labels));
      FieldRoundTrip(b.name, LabelsKey(b.labels));
      LabelsKeyInjective(a.labels, b.labels);
    }
  }

  function Code(c: char): Byte
    requires c as int < 256
  {
    c as int
  }

  /** ASCII text as bytes. */
  function Ascii(s: string): Bytes
    requires forall c :: c in s ==> c as int < 256
  {
    seq(|s|, i requires 0 <= i < |s| => assert s[i] in s; Code(s[i]))
  }

  /** How a key looks. */
  lemma KeyExample()
    ensures SeriesKey(Identity(Ascii("scan_total"), [Label(Ascii("k"), Ascii("v:1"))]))
         == Ascii("10:scan_total1:k3:v:1")
  {
    var one := Label(Ascii("k"), Ascii("v:1"));
    assert [one][..0] == [];
    assert Itoa(10) == Itoa(1) + [ZERO];
    assert LengthPrefixed(Ascii("scan_total")) == Ascii("10:scan_total");
    assert LabelsKey([one]) == LengthPrefixed(one.key) + LengthPrefixed(one.value);
  }

  // ---------- The order ----------

  /** `strings.Compare`: bytewise, a prefix first. */
  function CompareBytes(a: Bytes, b: Bytes): (c: int)
    ensures -1 <= c <= 1
  {
    if a == [] && b == [] then 0
    else if a == [] then -1
    else if b == [] then 1
    else if a[0] < b[0] then -1
    else if a[0] > b[0] then 1
    else CompareBytes(a[1..], b[1..])
  }

  function CompareLabels(a: seq<Label>, b: seq<Label>): int {
    if a == [] || b == [] then |a| - |b|
    else if CompareBytes(a[0].key, b[0].key) != 0 then CompareBytes(a[0].key, b[0].key)
    else if CompareBytes(a[0].value, b[0].value) != 0 then CompareBytes(a[0].value, b[0].value)
    else CompareLabels(a[1..], b[1..])
  }

  function CompareIdentities(a: Identity, b: Identity): int {
    if CompareBytes(a.name, b.name) != 0 then CompareBytes(a.name, b.name) else CompareLabels(a.labels, b.labels)
  }

  method CompareSeries(a: Identity, b: Identity) returns (diff: int)
    ensures diff == CompareIdentities(a, b)
  {
    diff := CompareBytes(a.name, b.name);
    if diff != 0 {
      return;
    }
    var i := 0;
    while i < |a.labels| && i < |b.labels|
      invariant 0 <= i <= |a.labels| && i <= |b.labels|
      invariant CompareLabels(a.labels, b.labels) == CompareLabels(a.labels[i..], b.labels[i..])
    {
      diff := CompareBytes(a.labels[i].key, b.labels[i].key);
      if diff != 0 {
        return;
      }
      diff := CompareBytes(a.labels[i].value, b.labels[i].value);
      if diff != 0 {
        return;
      }
      i := i + 1;
    }
    return |a.labels| - |b.labels|;
  }

  predicate Before(a: Identity, b: Identity) {
    CompareIdentities(a, b) < 0
  }

  lemma {:induction false} BytesOrder(a: Bytes, b: Bytes, c: Bytes)
    ensures CompareBytes(a, b) == 0 <==> a == b
    ensures CompareBytes(a, b) == -CompareBytes(b, a)
    ensures CompareBytes(a, b) < 0 && CompareBytes(b, c) < 0 ==> CompareBytes(a, c) < 0
  {
    if a == [] || b == [] {
    } else {
      BytesOrder(a[1..], b[1..], if c != [] then c[1..] else []);
      assert a == [a[0]] + a[1..] && b == [b[0]] + b[1..];
    }
  }

  lemma {:induction false} LabelsOrder(a: seq<Label>, b: seq<Label>, c: seq<Label>)
    ensures CompareLabels(a, b) == 0 <==> a == b
    ensures CompareLabels(a, b) < 0 <==> CompareLabels(b, a) > 0
    ensures CompareLabels(a, b) < 0 && CompareLabels(b, c) < 0 ==> CompareLabels(a, c) < 0
  {
    if a == [] || b == [] {
    } else {
      LabelsOrder(a[1..], b[1..], if c != [] then c[1..] else []);
      assert a == [a[0]] + a[1..] && b == [b[0]] + b[1..];
      var none: Bytes := [];
      BytesOrder(a[0].key, b[0].key, if c != [] then c[0].key else none);
      BytesOrder(a[0].value, b[0].value, if c != [] then c[0].value else none);
      if c != [] {
        BytesOrder(b[0].key, c[0].key, none);
        BytesOrder(b[0].value, c[0].value, none);
        BytesOrder(a[0].key, c[0].key, none);
        BytesOrder(a[0].value, c[0].value, none);
      }
    }
  }

  /** compareSeries is a strict total order whose ties are exactly equal identities. */
  lemma SeriesOrder(a: Identity, b: Identity, c: Identity)
    ensures CompareIdentities(a, b) == 0 <==> a == b
    ensures Before(a, b) <==> CompareIdentities(b, a) > 0
    ensures Before(a, b) && Before(b, c) ==> Before(a, c)
  {
    BytesOrder(a.name, b.name, c.name);
    BytesOrder(b.name, c.name, a.name);
    BytesOrder(a.name, c.name, b.name);
    LabelsOrder(a.labels, b.labels, c.labels);
  }

  lemma BeforeIsStrict(s: seq<Identity>)
    ensures StrictOn(Before, s)
  {
    forall x, y, z | x in s && y in s && z in s && Before(x, y) && Before(y, z) ensures Before(x, z) {
      SeriesOrder(x, y, z);
    }
    forall x | x in s ensures !Before(x, x) {
      SeriesOrder(x, x, x);
    }
  }

  /** There is only one way to put given series in order, so an unstable sort of a map iterated in
      any order yields one result. */
  lemma OrderUnique(s: seq<Identity>, t: seq<Identity>)
    requires InOrder(s, Before) && InOrder(t, Before)
    requires forall x :: x in s <==> x in t
    ensures s == t
  {
    BeforeIsStrict(s);
    OrderedOnce(s, t, Before);
  }
}
