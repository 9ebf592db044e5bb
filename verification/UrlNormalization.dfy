/** Byte strings: Go's `string`. */
module ByteStrings {
  type Byte = x: int | 0 <= x < 256

  type Bytes = seq<Byte>
}

/** The URL key of the visited set (common/clients/httpcrawler/crawlrun.go). Percent-encoding is that
    of section 2.1 of RFC 3986. */
module UrlNormalization {
  import opened ByteStrings

  const PERCENT: Byte := 37
  const HASH: Byte := 35
  const QUESTION: Byte := 63
  const SLASH: Byte := 47

  const MAX_DECODE_ITERATIONS: nat := 10

  datatype Decoded = Bad | Good(text: Bytes)

  predicate IsHex(c: Byte) {
    48 <= c <= 57 || 65 <= c <= 70 || 97 <= c <= 102
  }

  function HexValue(c: Byte): (v: nat)
    requires IsHex(c)
    ensures v < 16
  {
    if c <= 57 then c - 48 else if c <= 70 then c - 55 else c - 87
  }

  /** `url.PathUnescape`: every percent sign must be followed by two hexadecimal digits. */
  function PathUnescape(s: Bytes): Decoded {
    if s == [] then Good([])
    else if s[0] == PERCENT then
      if |s| < 3 || !IsHex(s[1]) || !IsHex(s[2]) then Bad
      else
        match PathUnescape(s[3..])
        case Bad => Bad
        case Good(rest) => Good([16 * HexValue(s[1]) + HexValue(s[2])] + rest)
    else
      match PathUnescape(s[1..])
      case Bad => Bad
      case Good(rest) => Good([s[0]] + rest)
  }

  const LOWER: string := "0123456789abcdef"
  const UPPER: string := "0123456789ABCDEF"

  /** A digit has the value of its position, in either case, and there are no other digits. */
  lemma HexDigitsBothCases(c: Byte)
    ensures forall v: nat | v < 16 ::
              IsHex(LOWER[v] as int) && HexValue(LOWER[v] as int) == v && HexValue(UPPER[v] as int) == v
    ensures IsHex(c) ==> c as char == LOWER[HexValue(c)] || c as char == UPPER[HexValue(c)]
  {
  }

  /** A percent sign that does not start a code. */
  predicate BadCode(s: Bytes, i: nat)
    requires i < |s|
  {
    s[i] == PERCENT && (|s| < i + 3 || !IsHex(s[i + 1]) || !IsHex(s[i + 2]))
  }

  /** Decoding fails exactly when some percent sign does not start a code. */
  lemma {:induction false} BadIff(s: Bytes)
    ensures PathUnescape(s) == Bad <==> exists i :: 0 <= i < |s| && BadCode(s, i)
  {
    if s == [] {
    } else {
      var n := if s[0] != PERCENT then 1 else if BadCode(s, 0) then 0 else 3;
      if n > 0 {
        var rest := s[n..];
        BadIff(rest);
        assert s == s[..n] + rest;
        if i :| 0 <= i < |rest| && BadCode(rest, i) {
          assert BadCode(s, i + n);
        }
        if i :| 0 <= i < |s| && BadCode(s, i) {
          assert i >= n;
          assert BadCode(rest, i - n);
        }
      }
    }
  }

  /** At most `rounds` decodings, stopping at an error or when nothing changes. */
  function DecodeRounds(s: Bytes, rounds: nat): Bytes
    decreases rounds, s
  {
    if rounds == 0 then s
    else
      match PathUnescape(s)
      case Bad => s
      case Good(text) => if text == s then s else DecodeRounds(text, rounds - 1)
  }

  method FullyDecode(raw: Bytes) returns (s: Bytes)
    ensures s == DecodeRounds(raw, MAX_DECODE_ITERATIONS)
  {
    s := raw;
    var i := 0;
    while i < MAX_DECODE_ITERATIONS
      invariant 0 <= i <= MAX_DECODE_ITERATIONS
      invariant DecodeRounds(s, MAX_DECODE_ITERATIONS - i) == DecodeRounds(raw, MAX_DECODE_ITERATIONS)
    {
      var decoded := PathUnescape(s);
      if decoded.Bad? || decoded.text == s {
        return;
      }
      s := decoded.text;
      i := i + 1;
    }
  }

  /** Everything before the first query or fragment mark. */
  function CutQuery(s: Bytes): Bytes {
    if s == [] || s[0] == QUESTION || s[0] == HASH then [] else [s[0]] + CutQuery(s[1..])
  }

  function TrimSlashes(s: Bytes): Bytes {
    if s != [] && s[|s| - 1] == SLASH then TrimSlashes(s[..|s| - 1]) else s
  }

  function NormalizeURL(raw: Bytes): Bytes {
    TrimSlashes(CutQuery(DecodeRounds(raw, MAX_DECODE_ITERATIONS)))
  }

  // ---------- Encoding, and how many layers of it are undone ----------

  function HexDigit(v: nat): (c: Byte)
    requires v < 16
    ensures IsHex(c) && HexValue(c) == v
  {
    if v < 10 then 48 + v else 55 + v
  }

  /** One layer of percent-encoding: the percent sign and whatever the encoder calls unsafe. */
  function PathEscape(s: Bytes, unsafe: Byte -> bool): Bytes {
    if s == [] then []
    else
      (if s[0] == PERCENT || unsafe(s[0]) then [PERCENT, HexDigit(s[0] / 16), HexDigit(s[0] % 16)] else [s[0]])
        + PathEscape(s[1..], unsafe)
  }

  function Layers(s: Bytes, unsafe: Byte -> bool, k: nat): Bytes {
    if k == 0 then s else PathEscape(Layers(s, unsafe, k - 1), unsafe)
  }

  lemma {:induction false} UnescapeEscape(s: Bytes, unsafe: Byte -> bool)
    ensures PathUnescape(PathEscape(s, unsafe)) == Good(s)
  {
    if s == [] {
    } else {
      var rest := PathEscape(s[1..], unsafe);
      UnescapeEscape(s[1..], unsafe);
      if s[0] == PERCENT || unsafe(s[0]) {
        var code := [PERCENT, HexDigit(s[0] / 16), HexDigit(s[0] % 16)];
        assert (code + rest)[3..] == rest;
        assert 16 * (s[0] / 16) + s[0] % 16 == s[0];
      } else {
        assert ([s[0]] + rest)[1..] == rest;
      }
      assert s == [s[0]] + s[1..];
    }
  }

  lemma {:induction false} UnescapePlain(s: Bytes, t: Bytes)
    requires PERCENT !in s
    ensures PathUnescape(s + t) == match PathUnescape(t) case Bad => Bad case Good(text) => Good(s + text)
  {
    if s == [] {
      assert s + t == t;
      assert forall text: Bytes :: s + text == text;
    } else {
      assert s == [s[0]] + s[1..];
      assert (s + t)[1..] == s[1..] + t;
      UnescapePlain(s[1..], t);
      assert forall text: Bytes :: s + text == [s[0]] + (s[1..] + text);
    }
  }

  lemma {:induction false} EscapeGrows(s: Bytes, unsafe: Byte -> bool)
    ensures |PathEscape(s, unsafe)| >= |s|
    ensures PathEscape(s, unsafe) == s <==> |PathEscape(s, unsafe)| == |s|
    ensures PathEscape(s, unsafe) != s ==> PERCENT in PathEscape(s, unsafe)
    ensures PERCENT in s ==> |PathEscape(s, unsafe)| > |s|
  {
    if s == [] {
    } else {
      EscapeGrows(s[1..], unsafe);
      assert s == [s[0]] + s[1..];
      if !(s[0] == PERCENT || unsafe(s[0])) {
        assert PathEscape(s, unsafe)[1..] == PathEscape(s[1..], unsafe);
      }
    }
  }

  lemma {:induction false} LayersGrow(s: Bytes, unsafe: Byte -> bool, k: nat)
    requires PathEscape(s, unsafe) != s
    ensures |Layers(s, unsafe, k + 1)| > |Layers(s, unsafe, k)| >= |s| + k
    ensures PERCENT in Layers(s, unsafe, k + 1)
  {
    EscapeGrows(Layers(s, unsafe, k), unsafe);
    if k > 0 {
      LayersGrow(s, unsafe, k - 1);
    }
  }

  /** Each text is what decoding makes of the next one, and the first stays as it is. */
  ghost predicate Unwraps(texts: seq<Bytes>) {
    && texts != [] && PathUnescape(texts[0]) == Good(texts[0])
    && forall i :: 0 < i < |texts| ==> PathUnescape(texts[i]) == Good(texts[i - 1]) && texts[i] != texts[i - 1]
  }

  lemma {:induction false} RoundsUnwrap(texts: seq<Bytes>, k: nat, rounds: nat)
    requires Unwraps(texts) && k < |texts|
    ensures DecodeRounds(texts[k], rounds) == texts[if k <= rounds then 0 else k - rounds]
    decreases rounds
  {
    if k > 0 && rounds > 0 {
      RoundsUnwrap(texts, k - 1, rounds - 1);
    }
  }

  lemma LayersUnwrap(s: Bytes, unsafe: Byte -> bool, k: nat) returns (texts: seq<Bytes>)
    requires PERCENT !in s && PathEscape(s, unsafe) != s
    ensures Unwraps(texts) && |texts| == k + 1 && forall i :: 0 <= i <= k ==> texts[i] == Layers(s, unsafe, i)
  {
    texts := seq(k + 1, i requires 0 <= i <= k => Layers(s, unsafe, i));
    UnescapePlain(s, []);
    assert s + [] == s;
    forall i | 0 < i <= k ensures PathUnescape(texts[i]) == Good(texts[i - 1]) && texts[i] != texts[i - 1] {
      LayersGrow(s, unsafe, i - 1);
      UnescapeEscape(Layers(s, unsafe, i - 1), unsafe);
    }
  }

  /** Each decoding round removes one layer; what is left when the rounds are over stays encoded. */
  lemma RoundsRemoveLayers(s: Bytes, unsafe: Byte -> bool, k: nat, rounds: nat)
    requires PERCENT !in s && PathEscape(s, unsafe) != s
    ensures DecodeRounds(Layers(s, unsafe, k), rounds) == Layers(s, unsafe, if k <= rounds then 0 else k - rounds)
  {
    var texts := LayersUnwrap(s, unsafe, k);
    RoundsUnwrap(texts, k, rounds);
  }

  lemma {:induction false} LayersOfSafe(s: Bytes, unsafe: Byte -> bool, k: nat)
    requires PathEscape(s, unsafe) == s
    ensures Layers(s, unsafe, k) == s
  {
    if k == 0 {
    } else {
      LayersOfSafe(s, unsafe, k - 1);
    }
  }

  lemma LayersUndone(s: Bytes, unsafe: Byte -> bool, k: nat, rounds: nat)
    requires PERCENT !in s
    ensures DecodeRounds(Layers(s, unsafe, k), rounds) == s <==> k <= rounds || PathEscape(s, unsafe) == s
  {
    if PathEscape(s, unsafe) == s {
      LayersOfSafe(s, unsafe, k);
      RoundsOfPlain(s, rounds);
    } else {
      RoundsRemoveLayers(s, unsafe, k, rounds);
      if k > rounds {
        LayersGrow(s, unsafe, k - rounds);
      }
    }
  }

  lemma RoundsOfPlain(s: Bytes, rounds: nat)
    requires PERCENT !in s
    ensures DecodeRounds(s, rounds) == s
  {
    UnescapePlain(s, []);
    assert s + [] == s;
  }

  /** A text without percent signs is recovered from `k` layers of encoding exactly when there are
      at most ten of them, or the encoder has nothing to encode. */
  lemma TenLayers(s: Bytes, unsafe: Byte -> bool, k: nat)
    requires PERCENT !in s
    ensures DecodeRounds(Layers(s, unsafe, k), MAX_DECODE_ITERATIONS) == s <==> k <= 10 || PathEscape(s, unsafe) == s
  {
    LayersUndone(s, unsafe, k, MAX_DECODE_ITERATIONS);
  }

  predicate IsSlash(c: Byte) {
    c == SLASH
  }

  /** The code of a slash: what is left of one layer too many. */
  const SLASH_CODE: Bytes := [PERCENT, 50, 70]

  lemma OneLayerTooMany(rounds: nat)
    ensures DecodeRounds(Layers([SLASH], IsSlash, rounds + 1), rounds) == SLASH_CODE
  {
    assert PathEscape([SLASH], IsSlash) == SLASH_CODE;
    RoundsRemoveLayers([SLASH], IsSlash, rounds + 1, rounds);
    assert Layers([SLASH], IsSlash, 0) == [SLASH];
  }

  lemma KeysOfSlash()
    ensures TrimSlashes(CutQuery(SLASH_CODE)) == SLASH_CODE && TrimSlashes(CutQuery([SLASH])) == []
  {
    CutQueryPlain(SLASH_CODE);
    CutQueryPlain([SLASH]);
    assert [SLASH][..0] == [];
  }

  /** A slash under eleven layers comes out as the three bytes of its code: its key is not that of
      the slash. */
  lemma ElevenLayersExample()
    ensures var wrapped := Layers([SLASH], IsSlash, 11);
            && DecodeRounds(wrapped, MAX_DECODE_ITERATIONS) == SLASH_CODE
            && NormalizeURL(wrapped) == SLASH_CODE && NormalizeURL([SLASH]) == []
  {
    OneLayerTooMany(MAX_DECODE_ITERATIONS);
    RoundsOfPlain([SLASH], MAX_DECODE_ITERATIONS);
    KeysOfSlash();
  }

  // ---------- Texts of a given length ----------

  /** A text that another round leaves as it is. */
  predicate Settled(s: Bytes) {
    PathUnescape(s) == Bad || PathUnescape(s) == Good(s)
  }

  ghost predicate AlwaysSettled(n: nat, rounds: nat) {
    forall s: Bytes | |s| == n :: Settled(DecodeRounds(s, rounds))
  }

  /** A round that changes anything takes away at least two bytes. */
  lemma {:induction false} RoundShortens(s: Bytes)
    ensures PathUnescape(s).Good? && PathUnescape(s).text != s ==> |PathUnescape(s).text| <= |s| - 2
  {
    if s == [] {
    } else if s[0] != PERCENT {
      RoundShortens(s[1..]);
      assert s == [s[0]] + s[1..];
    } else if |s| >= 3 {
      RoundShortens(s[3..]);
    }
  }

  lemma {:induction false} ShortSettles(s: Bytes, rounds: nat)
    requires |s| < 2 * rounds + 3
    ensures Settled(DecodeRounds(s, rounds))
    decreases rounds
  {
    RoundShortens(s);
    if rounds > 0 && !Settled(s) {
      ShortSettles(PathUnescape(s).text, rounds - 1);
    }
  }

  lemma {:induction false} RoundsKeepPrefix(plain: Bytes, tail: Bytes, rounds: nat)
    requires PERCENT !in plain
    ensures DecodeRounds(plain + tail, rounds) == plain + DecodeRounds(tail, rounds)
    decreases rounds
  {
    UnescapePlain(plain, tail);
    if rounds > 0 && PathUnescape(tail).Good? {
      var text := PathUnescape(tail).text;
      assert plain + text == plain + tail <==> text == tail by {
        assert (plain + text)[|plain|..] == text && (plain + tail)[|plain|..] == tail;
      }
      if text != tail {
        RoundsKeepPrefix(plain, text, rounds - 1);
      }
    }
  }

  lemma {:induction false} EscapeSafe(s: Bytes)
    requires PERCENT !in s && SLASH !in s
    ensures PathEscape(s, IsSlash) == s
  {
    if s == [] {
    } else {
      assert s == [s[0]] + s[1..];
      EscapeSafe(s[1..]);
    }
  }

  /** A slash under `k` layers has one percent sign, in front, and two bytes more for every layer. */
  lemma {:induction false} WrappedSlash(k: nat)
    requires k >= 1
    ensures var s := Layers([SLASH], IsSlash, k);
            |s| == 1 + 2 * k && s[0] == PERCENT && PERCENT !in s[1..] && SLASH !in s[1..]
  {
    var inner := Layers([SLASH], IsSlash, k - 1);
    if k == 1 {
      assert inner == [SLASH] && PathEscape(inner, IsSlash) == SLASH_CODE;
    } else {
      WrappedSlash(k - 1);
      EscapeSafe(inner[1..]);
      assert PathEscape(inner, IsSlash) == [PERCENT, HexDigit(2), HexDigit(5)] + inner[1..];
    }
  }

  /** A long text that is not decoded to the end: a slash under one layer too many, after plain bytes. */
  lemma LongUnsettled(n: nat, rounds: nat)
    requires n >= 2 * rounds + 3
    ensures !AlwaysSettled(n, rounds)
  {
    var plain: Bytes, wrapped := seq(n - 2 * rounds - 3, _ => 97), Layers([SLASH], IsSlash, rounds + 1);
    WrappedSlash(rounds + 1);
    OneLayerTooMany(rounds);
    RoundsKeepPrefix(plain, wrapped, rounds);
    CodeAfterPlain(plain);
    assert |plain + wrapped| == n;
    assert !Settled(DecodeRounds(plain + wrapped, rounds));
  }

  lemma CodeAfterPlain(plain: Bytes)
    requires PERCENT !in plain
    ensures !Settled(plain + SLASH_CODE)
  {
    UnescapePlain(plain, SLASH_CODE);
    assert PathUnescape(SLASH_CODE[3..]) == Good([]);
    assert PathUnescape(SLASH_CODE) == Good([SLASH]);
  }

  /** Every text of `n` bytes is decoded until nothing changes exactly when `n` is at most 22: ten rounds
      are enough for shorter texts, and with 23 bytes there is room for eleven layers. */
  lemma SettledIffShort(n: nat)
    ensures AlwaysSettled(n, MAX_DECODE_ITERATIONS) <==> n <= 22
  {
    if n <= 22 {
      forall s: Bytes | |s| == n ensures Settled(DecodeRounds(s, MAX_DECODE_ITERATIONS)) {
        ShortSettles(s, MAX_DECODE_ITERATIONS);
      }
    } else {
      LongUnsettled(n, MAX_DECODE_ITERATIONS);
    }
  }

  // ---------- Keys ----------

  lemma {:induction false} CutQueryPlain(s: Bytes)
    requires QUESTION !in s && HASH !in s
    ensures CutQuery(s) == s
  {
    if s == [] {
    } else {
      assert s == [s[0]] + s[1..];
      CutQueryPlain(s[1..]);
    }
  }

  lemma {:induction false} CutQueryShape(s: Bytes)
    ensures QUESTION !in CutQuery(s) && HASH !in CutQuery(s) && CutQuery(s) <= s
    ensures |CutQuery(s)| < |s| ==> s[|CutQuery(s)|] == QUESTION || s[|CutQuery(s)|] == HASH
  {
    if s == [] || s[0] == QUESTION || s[0] == HASH {
    } else {
      CutQueryShape(s[1..]);
      assert s == [s[0]] + s[1..];
    }
  }

  lemma {:induction false} TrimShape(s: Bytes)
    ensures TrimSlashes(s) <= s && (TrimSlashes(s) == [] || TrimSlashes(s)[|TrimSlashes(s)| - 1] != SLASH)
    ensures forall i :: |TrimSlashes(s)| <= i < |s| ==> s[i] == SLASH
  {
    if s == [] || s[|s| - 1] != SLASH {
    } else {
      TrimShape(s[..|s| - 1]);
    }
  }

  predicate IsMark(c: Byte) {
    c as char == '?' || c as char == '#'
  }

  /** From `k` on there are only slashes up to the end or a query or fragment mark at `n`. */
  predicate SlashesUpTo(s: Bytes, k: nat, n: nat) {
    && k <= n <= |s| && (forall i :: k <= i < n ==> s[i] as char == '/')
    && (n < |s| ==> IsMark(s[n]))
  }

  /** A key never holds a query or fragment mark nor ends in a slash, and is what the decoded URL
      starts with: only slashes stand between it and a mark or the end. */
  lemma NormalizedShape(raw: Bytes)
    ensures var key, decoded := NormalizeURL(raw), DecodeRounds(raw, MAX_DECODE_ITERATIONS);
            && key <= decoded && (forall c :: c in key ==> !IsMark(c))
            && (key == [] || key[|key| - 1] as char != '/')
            && exists n :: SlashesUpTo(decoded, |key|, n)
  {
    var decoded := DecodeRounds(raw, MAX_DECODE_ITERATIONS);
    CutQueryShape(decoded);
    TrimShape(CutQuery(decoded));
    var n := |CutQuery(decoded)|;
    assert forall i :: |NormalizeURL(raw)| <= i < n ==> decoded[i] == CutQuery(decoded)[i];
    assert SlashesUpTo(decoded, |NormalizeURL(raw)|, n);
  }

  lemma {:induction false} CutQueryAt(path: Bytes, mark: Byte, tail: Bytes)
    requires IsMark(mark) && forall c :: c in path ==> !IsMark(c)
    ensures CutQuery(path + [mark] + tail) == path
  {
    if path == [] {
      assert path + [mark] + tail == [mark] + tail;
    } else {
      assert path == [path[0]] + path[1..];
      assert path[0] in path;
      assert (path + [mark] + tail)[1..] == path[1..] + [mark] + tail;
      CutQueryAt(path[1..], mark, tail);
    }
  }

  /** The key of a plain URL ignores any query or fragment, however badly encoded it is. */
  lemma QueryIgnored(path: Bytes, mark: Byte, query: Bytes)
    requires PERCENT !in path && IsMark(mark) && forall c :: c in path ==> !IsMark(c)
    ensures NormalizeURL(path + [mark] + query) == TrimSlashes(path)
  {
    RoundsKeepPrefix(path + [mark], query, MAX_DECODE_ITERATIONS);
    CutQueryAt(path, mark, DecodeRounds(query, MAX_DECODE_ITERATIONS));
  }

  /** ... also when the whole URL, mark included, was encoded up to ten times. */
  lemma EncodedQueryIgnored(path: Bytes, mark: Byte, query: Bytes, unsafe: Byte -> bool, k: nat)
    requires PERCENT !in path && IsMark(mark) && forall c :: c in path ==> !IsMark(c)
    requires PERCENT !in query && k <= 10
    ensures NormalizeURL(Layers(path + [mark] + query, unsafe, k)) == TrimSlashes(path)
  {
    TenLayers(path + [mark] + query, unsafe, k);
    CutQueryAt(path, mark, query);
  }
}
