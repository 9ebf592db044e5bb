/** When the order of loads matters (plugins/fingerprint/webidentity/hash/registry.go). */
module HashOrder {
  import opened Sequences
  import opened HashClaims
  import opened HashLoading

  lemma LoadSummarized(sum: string -> Hash, t: Table, fp: Fingerprints, hash: Hash)
    ensures SummaryOf(LoadFile(sum, t, fp), hash) == LoadSummary(sum, SummaryOf(t, hash), fp, hash)
  {
    var paths := PathClaims(sum, fp.software, fp.contentHashes);
    var after := AfterPaths(sum, t, fp);
    var versions := VersionClaims(sum, fp, fp.hashVersions, after.Keys);
    ApplyConcat(t, paths, versions);
    PathClaimsMean(sum, fp, fp.contentHashes, hash);
    assert fp.(contentHashes := fp.contentHashes) == fp;
    ClaimsSummary(t, paths, fp.software, hash);
    assert Elements<string>([]) == {};
    assert PathsOf(paths, hash) != [] ==> PathsOf(paths, hash)[0] in Roots(sum, fp, hash);
    VersionClaimsMean(sum, fp, fp.hashVersions, after.Keys, hash);
    assert fp.(hashVersions := fp.hashVersions) == fp;
    ClaimsSummary(after, versions, fp.software, hash);
  }

  ghost predicate SameKnowledge(t: Table, t': Table) {
    forall hash :: SummaryOf(t, hash) == SummaryOf(t', hash)
  }

  // ---------- Two files: exactly when their order matters ----------

  /** The versions of this hash are ignored when the hash is not known yet. */
  predicate Skippable(sum: string -> Hash, fp: Fingerprints, hash: Hash) {
    && HasVersions(sum, fp, hash)
    && hash in EmptyHashes(sum, fp.contentHashes)
    && Roots(sum, fp, hash) == {}
  }

  /** Loading this file makes the hash known in any case. */
  predicate Registers(sum: string -> Hash, fp: Fingerprints, hash: Hash) {
    Roots(sum, fp, hash) != {} || (HasVersions(sum, fp, hash) && hash !in EmptyHashes(sum, fp.contentHashes))
  }

  /** Where `a` skips a new hash that `b` registers, what `a` skips would add nothing to `b`. */
  predicate HarmlessSkip(sum: string -> Hash, t: Table, a: Fingerprints, b: Fingerprints, hash: Hash) {
    hash !in t && Skippable(sum, a, hash) && Registers(sum, b, hash) ==>
      a.software == b.software && VersionsFor(sum, a, hash) <= VersionsFor(sum, b, hash)
  }

  lemma JoinOrder(s: Summary, x: string, r: set<string>, v: set<string>, y: string, r': set<string>, v': set<string>)
    ensures Join(Join(s, x, r, v), y, r', v') == Join(Join(s, y, r', v'), x, r, v)
  {
    if s.Sole? && s.software == x == y {
      assert s.roots + r + r' == s.roots + r' + r;
      assert s.versions + v + v' == s.versions + v' + v;
    } else if s.Absent? {
      assert r + r' == r' + r && v + v' == v' + v;
    }
  }

  /** What loading a file does to a summary: nothing, or one join. */
  lemma LoadIsJoin(sum: string -> Hash, s: Summary, fp: Fingerprints, hash: Hash)
    ensures LoadSummary(sum, s, fp, hash) ==
            if Registers(sum, fp, hash) || (Skippable(sum, fp, hash) && !s.Absent?) then
              Join(s, fp.software, Roots(sum, fp, hash), VersionsFor(sum, fp, hash))
            else s
  {
    JoinTwice(s, fp.software, Roots(sum, fp, hash), {}, {}, VersionsFor(sum, fp, hash));
    assert Roots(sum, fp, hash) + {} == Roots(sum, fp, hash);
    assert {} + VersionsFor(sum, fp, hash) == VersionsFor(sum, fp, hash);
    if !HasVersions(sum, fp, hash) {
      assert VersionsFor(sum, fp, hash) == {};
    }
  }

  lemma OrderAtOneHash(sum: string -> Hash, s: Summary, a: Fingerprints, b: Fingerprints, hash: Hash)
    ensures LoadSummary(sum, LoadSummary(sum, s, a, hash), b, hash)
         == LoadSummary(sum, LoadSummary(sum, s, b, hash), a, hash)
       <==> && (s.Absent? && Skippable(sum, a, hash) && Registers(sum, b, hash) ==>
                  a.software == b.software && VersionsFor(sum, a, hash) <= VersionsFor(sum, b, hash))
            && (s.Absent? && Skippable(sum, b, hash) && Registers(sum, a, hash) ==>
                  b.software == a.software && VersionsFor(sum, b, hash) <= VersionsFor(sum, a, hash))
  {
    var ra, va := Roots(sum, a, hash), VersionsFor(sum, a, hash);
    var rb, vb := Roots(sum, b, hash), VersionsFor(sum, b, hash);
    LoadIsJoin(sum, s, a, hash);
    LoadIsJoin(sum, s, b, hash);
    LoadIsJoin(sum, LoadSummary(sum, s, a, hash), b, hash);
    LoadIsJoin(sum, LoadSummary(sum, s, b, hash), a, hash);
    JoinOrder(s, a.software, ra, va, b.software, rb, vb);
    if s.Absent? {
      assert vb + va == vb <==> va <= vb;
      assert va + vb == va <==> vb <= va;
      assert rb + {} == rb && ra + {} == ra;
    }
  }

  lemma OrderForHash(sum: string -> Hash, t: Table, a: Fingerprints, b: Fingerprints, hash: Hash)
    ensures SummaryOf(LoadFile(sum, LoadFile(sum, t, a), b), hash)
         == SummaryOf(LoadFile(sum, LoadFile(sum, t, b), a), hash)
       <==> HarmlessSkip(sum, t, a, b, hash) && HarmlessSkip(sum, t, b, a, hash)
  {
    LoadSummarized(sum, t, a, hash);
    LoadSummarized(sum, t, b, hash);
    LoadSummarized(sum, LoadFile(sum, t, a), b, hash);
    LoadSummarized(sum, LoadFile(sum, t, b), a, hash);
    OrderAtOneHash(sum, SummaryOf(t, hash), a, b, hash);
  }

  /** Loading two files in either order gives the same knowledge exactly when neither skips, for an
      empty path, versions of a hash the other one registers for the first time with less. */
  lemma OrderMattersIff(sum: string -> Hash, t: Table, a: Fingerprints, b: Fingerprints)
    ensures SameKnowledge(LoadFile(sum, LoadFile(sum, t, a), b), LoadFile(sum, LoadFile(sum, t, b), a))
       <==> forall hash :: HarmlessSkip(sum, t, a, b, hash) && HarmlessSkip(sum, t, b, a, hash)
  {
    var ab, ba := LoadFile(sum, LoadFile(sum, t, a), b), LoadFile(sum, LoadFile(sum, t, b), a);
    forall hash
      ensures SummaryOf(ab, hash) == SummaryOf(ba, hash)
         <==> HarmlessSkip(sum, t, a, b, hash) && HarmlessSkip(sum, t, b, a, hash)
    {
      OrderForHash(sum, t, a, b, hash);
    }
  }

  /** The file of a software that lists a hash only on an empty path, and that of one that registers it. */
  function OnEmptyPath(): Fingerprints {
    Fingerprints("a", [ContentHash("?x", ["h"])], [HashVersion("h", ["1"])])
  }

  function OnRealPath(): Fingerprints {
    Fingerprints("b", [ContentHash("p", ["h"])], [])
  }

  lemma SkipIsHarmful(sum: string -> Hash)
    ensures Skippable(sum, OnEmptyPath(), sum("h")) && Registers(sum, OnRealPath(), sum("h"))
  {
    var a, b := OnEmptyPath(), OnRealPath();
    assert a.hashVersions[0] in a.hashVersions && a.contentHashes[0] in a.contentHashes;
    assert "h" in a.contentHashes[0].hashes && StripQueryAndFragment("?x") == "";
    assert sum("h") in EmptyHashes(sum, a.contentHashes);
    assert b.contentHashes[0] in b.contentHashes && "h" in b.contentHashes[0].hashes;
    PlainPath();
    assert "p" in Roots(sum, b, sum("h"));
  }

  /** A hash listed only on an empty path by one software and registered by another: loaded first it
      is ignored, loaded last it buries the other one. */
  lemma OrderMattersExample(sum: string -> Hash)
    ensures var a, b := OnEmptyPath(), OnRealPath();
            !SameKnowledge(LoadFile(sum, LoadFile(sum, map[], a), b), LoadFile(sum, LoadFile(sum, map[], b), a))
  {
    SkipIsHarmful(sum);
    OrderMattersIff(sum, map[], OnEmptyPath(), OnRealPath());
    assert !HarmlessSkip(sum, map[], OnEmptyPath(), OnRealPath(), sum("h"));
  }

  lemma PlainPath()
    ensures StripQueryAndFragment("p") == "p"
  {
    assert Before("p", '#') == "p" by {
      assert "p"[1..] == "";
    }
    assert Before("p", '?') == "p" by {
      assert "p"[1..] == "";
    }
  }

  // ---------- Many files without empty paths ----------

  predicate NoEmptyPaths(fp: Fingerprints) {
    forall c :: c in fp.contentHashes ==> StripQueryAndFragment(c.path) != ""
  }

  predicate Mentions(sum: string -> Hash, fp: Fingerprints, hash: Hash) {
    Roots(sum, fp, hash) != {} || HasVersions(sum, fp, hash)
  }

  function RootsOfAll(sum: string -> Hash, files: seq<Fingerprints>, hash: Hash): set<string> {
    set fp, r | fp in files && r in Roots(sum, fp, hash) :: r
  }

  function VersionsOfAll(sum: string -> Hash, files: seq<Fingerprints>, hash: Hash): set<string> {
    set fp, v | fp in files && v in VersionsFor(sum, fp, hash) :: v
  }

  /** What the files say of a hash, without any order. */
  ghost predicate SummaryMeans(sum: string -> Hash, files: seq<Fingerprints>, hash: Hash, s: Summary) {
    match s
    case Absent => forall fp :: fp in files ==> !Mentions(sum, fp, hash)
    case Conflict =>
      exists a, b :: a in files && b in files && Mentions(sum, a, hash) && Mentions(sum, b, hash)
                     && a.software != b.software
    case Sole(software, roots, versions) =>
      && (exists fp :: fp in files && Mentions(sum, fp, hash))
      && (forall fp :: fp in files && Mentions(sum, fp, hash) ==> fp.software == software)
      && roots == RootsOfAll(sum, files, hash) && versions == VersionsOfAll(sum, files, hash)
  }

  lemma {:induction false} FilesSummarized(sum: string -> Hash, files: seq<Fingerprints>, hash: Hash)
    requires forall fp :: fp in files ==> NoEmptyPaths(fp)
    ensures SummaryMeans(sum, files, hash, SummaryOf(LoadAll(sum, files), hash))
  {
    if files == [] {
    } else {
      var init, fp := files[..|files| - 1], files[|files| - 1];
      assert files == init + [fp];
      assert fp in files && forall f :: f in init ==> f in files;
      FilesSummarized(sum, init, hash);
      LoadSummarized(sum, LoadAll(sum, init), fp, hash);
      LoadIsJoin(sum, SummaryOf(LoadAll(sum, init), hash), fp, hash);
      assert NoEmptyPaths(fp) && EmptyHashes(sum, fp.contentHashes) == {};
      OneMoreFile(sum, init, fp, hash, SummaryOf(LoadAll(sum, init), hash));
    }
  }

  lemma OneMoreFile(sum: string -> Hash, init: seq<Fingerprints>, fp: Fingerprints, hash: Hash, s: Summary)
    requires SummaryMeans(sum, init, hash, s)
    ensures SummaryMeans(sum, init + [fp], hash,
              if Mentions(sum, fp, hash)
              then Join(s, fp.software, Roots(sum, fp, hash), VersionsFor(sum, fp, hash)) else s)
  {
    var files := init + [fp];
    assert fp in files && forall f :: f in files <==> f in init || f == fp;
    assert RootsOfAll(sum, files, hash) == RootsOfAll(sum, init, hash) + Roots(sum, fp, hash);
    assert VersionsOfAll(sum, files, hash) == VersionsOfAll(sum, init, hash) + VersionsFor(sum, fp, hash);
    if !Mentions(sum, fp, hash) {
      assert VersionsFor(sum, fp, hash) == {};
    }
    if s.Absent? {
      assert RootsOfAll(sum, init, hash) == {};
      Unmentioned(sum, init, hash);
    }
  }

  lemma Unmentioned(sum: string -> Hash, files: seq<Fingerprints>, hash: Hash)
    requires forall fp :: fp in files ==> !Mentions(sum, fp, hash)
    ensures VersionsOfAll(sum, files, hash) == {}
  {
    forall fp | fp in files ensures VersionsFor(sum, fp, hash) == {} {
      assert !Mentions(sum, fp, hash);
    }
  }

  /** Without empty paths the knowledge depends only on which files were loaded: any order, and any
      repetition, gives the same. */
  lemma OrderIndependent(sum: string -> Hash, files: seq<Fingerprints>, files': seq<Fingerprints>)
    requires forall fp :: fp in files ==> NoEmptyPaths(fp)
    requires forall fp :: fp in files <==> fp in files'
    ensures SameKnowledge(LoadAll(sum, files), LoadAll(sum, files'))
  {
    forall hash ensures SummaryOf(LoadAll(sum, files), hash) == SummaryOf(LoadAll(sum, files'), hash) {
      FilesSummarized(sum, files, hash);
      FilesSummarized(sum, files', hash);
      assert RootsOfAll(sum, files, hash) == RootsOfAll(sum, files', hash);
      assert VersionsOfAll(sum, files, hash) == VersionsOfAll(sum, files', hash);
    }
  }
}
