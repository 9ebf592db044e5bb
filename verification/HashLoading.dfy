/** Loading fingerprints into the table, and when the order of loads matters
    (plugins/fingerprint/webidentity/hash/registry.go). `sum` is the hash of a hexadecimal string. */
module HashLoading {
  import opened Sequences
  import opened HashClaims

  // ---------- The claims of one file ----------

  function PathClaimsOf(sum: string -> Hash, software: string, path: string, hashes: seq<string>): seq<Claim> {
    if hashes == [] || path == "" then []
    else
      var last := |hashes| - 1;
      PathClaimsOf(sum, software, path, hashes[..last]) + [Claim(sum(hashes[last]), software, Path(path))]
  }

  function PathClaims(sum: string -> Hash, software: string, contents: seq<ContentHash>): seq<Claim> {
    if contents == [] then []
    else
      var c := contents[|contents| - 1];
      PathClaims(sum, software, contents[..|contents| - 1])
        + PathClaimsOf(sum, software, StripQueryAndFragment(c.path), c.hashes)
  }

  /** The hashes listed under a path that strips to nothing. */
  function EmptyHashes(sum: string -> Hash, contents: seq<ContentHash>): set<Hash> {
    set c, h | c in contents && h in c.hashes && StripQueryAndFragment(c.path) == "" :: sum(h)
  }

  /** The version claims, but for hashes that only appear on empty paths and are not known yet. */
  function VersionClaims(sum: string -> Hash, fp: Fingerprints, listed: seq<HashVersion>,
                         known: set<Hash>): seq<Claim> {
    if listed == [] then []
    else
      var hv := listed[|listed| - 1];
      var before := VersionClaims(sum, fp, listed[..|listed| - 1], known);
      if sum(hv.hash) in EmptyHashes(sum, fp.contentHashes) && sum(hv.hash) !in known then before
      else before + [Claim(sum(hv.hash), fp.software, Versions(hv.versions))]
  }

  function AfterPaths(sum: string -> Hash, t: Table, fp: Fingerprints): Table {
    ApplyClaims(t, PathClaims(sum, fp.software, fp.contentHashes))
  }

  /** What one file claims when loaded into a table. */
  function LoadClaims(sum: string -> Hash, t: Table, fp: Fingerprints): seq<Claim> {
    PathClaims(sum, fp.software, fp.contentHashes)
      + VersionClaims(sum, fp, fp.hashVersions, AfterPaths(sum, t, fp).Keys)
  }

  function LoadFile(sum: string -> Hash, t: Table, fp: Fingerprints): Table {
    ApplyClaims(t, LoadClaims(sum, t, fp))
  }

  function LoadAll(sum: string -> Hash, files: seq<Fingerprints>): Table {
    if files == [] then map[] else LoadFile(sum, LoadAll(sum, files[..|files| - 1]), files[|files| - 1])
  }

  /** The claims in force after loading files one after the other. */
  function AllClaims(sum: string -> Hash, files: seq<Fingerprints>): seq<Claim> {
    if files == [] then []
    else
      AllClaims(sum, files[..|files| - 1])
        + LoadClaims(sum, LoadAll(sum, files[..|files| - 1]), files[|files| - 1])
  }

  /** After any loads the registry equals the claims in force: one software, its paths and versions;
      two, a tombstone; none, nothing. */
  lemma {:induction false} RegistryMeans(sum: string -> Hash, files: seq<Fingerprints>)
    ensures LoadAll(sum, files) == ApplyClaims(map[], AllClaims(sum, files))
    ensures forall hash :: EntryMeans(AllClaims(sum, files), LoadAll(sum, files), hash)
  {
    if files == [] {
    } else {
      RegistryMeans(sum, files[..|files| - 1]);
      ApplyConcat(map[], AllClaims(sum, files[..|files| - 1]),
                  LoadClaims(sum, LoadAll(sum, files[..|files| - 1]), files[|files| - 1]));
    }
    forall hash ensures EntryMeans(AllClaims(sum, files), LoadAll(sum, files), hash) {
      TableMeans(AllClaims(sum, files), hash);
    }
  }

  // ---------- One hash at a time, up to the order of lists ----------

  datatype Summary = Absent | Conflict | Sole(software: string, roots: set<string>, versions: set<string>)

  function SummaryOf(t: Table, hash: Hash): Summary {
    if hash !in t then Absent
    else match t[hash]
         case Tombstone => Conflict
         case Known(software, roots, versions) => Sole(software, Elements(roots), Elements(versions))
  }

  function Join(s: Summary, software: string, roots: set<string>, versions: set<string>): Summary {
    match s
    case Absent => Sole(software, roots, versions)
    case Conflict => Conflict
    case Sole(other, r, v) => if other == software then Sole(software, r + roots, v + versions) else Conflict
  }

  /** The registered paths of one file for a hash. */
  function Roots(sum: string -> Hash, fp: Fingerprints, hash: Hash): set<string> {
    set c, h | c in fp.contentHashes && h in c.hashes && sum(h) == hash && StripQueryAndFragment(c.path) != ""
      :: StripQueryAndFragment(c.path)
  }

  predicate HasVersions(sum: string -> Hash, fp: Fingerprints, hash: Hash) {
    exists hv :: hv in fp.hashVersions && sum(hv.hash) == hash
  }

  function VersionsFor(sum: string -> Hash, fp: Fingerprints, hash: Hash): set<string> {
    set hv, v | hv in fp.hashVersions && sum(hv.hash) == hash && v in hv.versions :: v
  }

  /** What loading a file does to the summary of one hash. */
  function LoadSummary(sum: string -> Hash, s: Summary, fp: Fingerprints, hash: Hash): Summary {
    var afterPaths := if Roots(sum, fp, hash) == {} then s else Join(s, fp.software, Roots(sum, fp, hash), {});
    if !HasVersions(sum, fp, hash) then afterPaths
    else if hash in EmptyHashes(sum, fp.contentHashes) && afterPaths.Absent? then afterPaths
    else Join(afterPaths, fp.software, {}, VersionsFor(sum, fp, hash))
  }

  // ---------- Summaries follow the claims ----------

  lemma {:induction false} AppendAllNewElements(s: seq<string>, xs: seq<string>)
    ensures Elements(AppendAllNew(s, xs)) == Elements(s) + Elements(xs)
  {
    if xs == [] {
      assert Elements(xs) == {};
    } else {
      AppendAllNewElements(s, xs[..|xs| - 1]);
      ElementsConcat(xs[..|xs| - 1], [xs[|xs| - 1]]);
      assert xs == xs[..|xs| - 1] + [xs[|xs| - 1]];
      ElementsConcat(AppendAllNew(s, xs[..|xs| - 1]), [xs[|xs| - 1]]);
    }
  }

  lemma ElementsConcat(a: seq<string>, b: seq<string>)
    ensures Elements(a + b) == Elements(a) + Elements(b)
    ensures |b| == 1 ==> Elements(b) == {b[0]}
  {
  }

  lemma JoinTwice(s: Summary, software: string, r: set<string>, v: set<string>, r': set<string>, v': set<string>)
    ensures Join(Join(s, software, r, v), software, r', v') == Join(s, software, r + r', v + v')
  {
    if s.Sole? {
      assert (s.roots + r) + r' == s.roots + (r + r');
      assert (s.versions + v) + v' == s.versions + (v + v');
    }
  }

  function RootsIn(fact: Fact): set<string> {
    if fact.Path? then {fact.path} else {}
  }

  function VersionsIn(fact: Fact): set<string> {
    if fact.Versions? then Elements(fact.versions) else {}
  }

  lemma ClaimSummary(t: Table, c: Claim, hash: Hash)
    ensures SummaryOf(ApplyClaim(t, c), hash) ==
            if c.hash == hash then Join(SummaryOf(t, hash), c.software, RootsIn(c.fact), VersionsIn(c.fact))
            else SummaryOf(t, hash)
  {
    if c.hash == hash && c.fact.Versions? {
      AppendAllNewElements([], c.fact.versions);
      if hash in t && t[hash].Known? {
        AppendAllNewElements(t[hash].versions, c.fact.versions);
      }
    }
  }

  predicate Claims(claims: seq<Claim>, hash: Hash) {
    exists i :: 0 <= i < |claims| && claims[i].hash == hash
  }

  /** The claims of one software change the summary of a hash by one join, or not at all. */
  ghost predicate Summarized(t: Table, claims: seq<Claim>, software: string, hash: Hash) {
    if Claims(claims, hash) then
      SummaryOf(ApplyClaims(t, claims), hash)
      == Join(SummaryOf(t, hash), software, Elements(PathsOf(claims, hash)), Elements(VersionsOf(claims, hash)))
    else
      SummaryOf(ApplyClaims(t, claims), hash) == SummaryOf(t, hash)
      && PathsOf(claims, hash) == [] && VersionsOf(claims, hash) == []
  }

  lemma OneMoreClaim(t: Table, init: seq<Claim>, c: Claim, hash: Hash)
    requires Summarized(t, init, c.software, hash)
    ensures Summarized(t, init + [c], c.software, hash)
  {
    var claims := init + [c];
    assert claims[..|init|] == init;
    ClaimSummary(ApplyClaims(t, init), c, hash);
    ClaimsSnoc(init, c, hash);
    if c.hash == hash {
      FactElements(init, c, hash);
      var r, v := Elements(PathsOf(init, hash)), Elements(VersionsOf(init, hash));
      JoinTwice(SummaryOf(t, hash), c.software, r, v, RootsIn(c.fact), VersionsIn(c.fact));
      if !Claims(init, hash) {
        assert r == {} && v == {};
        assert r + RootsIn(c.fact) == RootsIn(c.fact) && v + VersionsIn(c.fact) == VersionsIn(c.fact);
      }
    }
  }

  lemma {:induction false} ClaimsSummary(t: Table, claims: seq<Claim>, software: string, hash: Hash)
    requires forall c :: c in claims ==> c.software == software
    ensures Summarized(t, claims, software, hash)
  {
    if claims == [] {
    } else {
      var init, c := claims[..|claims| - 1], claims[|claims| - 1];
      assert claims == init + [c];
      assert c in claims && forall d :: d in init ==> d in claims;
      ClaimsSummary(t, init, software, hash);
      OneMoreClaim(t, init, c, hash);
    }
  }

  lemma FactElements(init: seq<Claim>, c: Claim, hash: Hash)
    requires c.hash == hash
    ensures Elements(PathsOf(init + [c], hash)) == Elements(PathsOf(init, hash)) + RootsIn(c.fact)
    ensures Elements(VersionsOf(init + [c], hash)) == Elements(VersionsOf(init, hash)) + VersionsIn(c.fact)
    ensures PathsOf(init, hash) == [] ==> Elements(PathsOf(init, hash)) == {}
    ensures VersionsOf(init, hash) == [] ==> Elements(VersionsOf(init, hash)) == {}
  {
    assert (init + [c])[..|init|] == init;
    match c.fact
    case Path(path) => ElementsConcat(PathsOf(init, hash), [path]);
    case Versions(versions) => ElementsConcat(VersionsOf(init, hash), versions);
  }

  lemma {:induction false} PathClaimsOfMean(sum: string -> Hash, software: string, path: string, hashes: seq<string>,
                                            hash: Hash)
    ensures forall c :: c in PathClaimsOf(sum, software, path, hashes) ==> c.software == software
    ensures var claims := PathClaimsOf(sum, software, path, hashes);
            && VersionsOf(claims, hash) == []
            && Elements(PathsOf(claims, hash))
               == (if path != "" && exists h :: h in hashes && sum(h) == hash then {path} else {})
            && (Claims(claims, hash) <==> PathsOf(claims, hash) != [])
  {
    var claims := PathClaimsOf(sum, software, path, hashes);
    if claims != [] {
      var last := |hashes| - 1;
      var init := PathClaimsOf(sum, software, path, hashes[..last]);
      assert hashes == hashes[..last] + [hashes[last]];
      PathClaimsOfMean(sum, software, path, hashes[..last], hash);
      assert claims[..|init|] == init;
      ClaimsSnoc(init, claims[|init|], hash);
      assert claims == init + [claims[|init|]];
    }
  }

  lemma ClaimsSnoc(claims: seq<Claim>, c: Claim, hash: Hash)
    ensures Claims(claims + [c], hash) <==> Claims(claims, hash) || c.hash == hash
  {
    if Claims(claims, hash) {
      var i :| 0 <= i < |claims| && claims[i].hash == hash;
      assert (claims + [c])[i].hash == hash;
    }
    assert (claims + [c])[|claims|] == c;
  }

  lemma {:induction false} PathsConcat(a: seq<Claim>, b: seq<Claim>, hash: Hash)
    ensures PathsOf(a + b, hash) == PathsOf(a, hash) + PathsOf(b, hash)
  {
    if b == [] {
      assert a + b == a;
    } else {
      assert (a + b)[..|a + b| - 1] == a + b[..|b| - 1];
      PathsConcat(a, b[..|b| - 1], hash);
    }
  }

  lemma {:induction false} VersionsConcat(a: seq<Claim>, b: seq<Claim>, hash: Hash)
    ensures VersionsOf(a + b, hash) == VersionsOf(a, hash) + VersionsOf(b, hash)
  {
    if b == [] {
      assert a + b == a;
    } else {
      assert (a + b)[..|a + b| - 1] == a + b[..|b| - 1];
      VersionsConcat(a, b[..|b| - 1], hash);
    }
  }

  lemma FactsConcat(a: seq<Claim>, b: seq<Claim>, hash: Hash)
    ensures PathsOf(a + b, hash) == PathsOf(a, hash) + PathsOf(b, hash)
    ensures VersionsOf(a + b, hash) == VersionsOf(a, hash) + VersionsOf(b, hash)
    ensures Claims(a + b, hash) <==> Claims(a, hash) || Claims(b, hash)
  {
    PathsConcat(a, b, hash);
    VersionsConcat(a, b, hash);
    if i :| 0 <= i < |a| && a[i].hash == hash {
      assert (a + b)[i].hash == hash;
    }
    if i :| 0 <= i < |b| && b[i].hash == hash {
      assert (a + b)[|a| + i].hash == hash;
    }
  }

  lemma {:induction false} PathClaimsMean(sum: string -> Hash, fp: Fingerprints, contents: seq<ContentHash>, hash: Hash)
    ensures forall c :: c in PathClaims(sum, fp.software, contents) ==> c.software == fp.software
    ensures var claims := PathClaims(sum, fp.software, contents);
            && VersionsOf(claims, hash) == []
            && Elements(PathsOf(claims, hash)) == Roots(sum, fp.(contentHashes := contents), hash)
            && (Claims(claims, hash) <==> PathsOf(claims, hash) != [])
  {
    if contents == [] {
    } else {
      var init, c := contents[..|contents| - 1], contents[|contents| - 1];
      assert contents == init + [c];
      var path := StripQueryAndFragment(c.path);
      PathClaimsMean(sum, fp, init, hash);
      PathClaimsOfMean(sum, fp.software, path, c.hashes, hash);
      var before, more := PathClaims(sum, fp.software, init), PathClaimsOf(sum, fp.software, path, c.hashes);
      FactsConcat(before, more, hash);
      ElementsConcat(PathsOf(before, hash), PathsOf(more, hash));
      RootsSnoc(sum, fp, init, c, hash);
    }
  }

  lemma RootsSnoc(sum: string -> Hash, fp: Fingerprints, init: seq<ContentHash>, c: ContentHash, hash: Hash)
    ensures Roots(sum, fp.(contentHashes := init + [c]), hash) == Roots(sum, fp.(contentHashes := init), hash) +
              var path := StripQueryAndFragment(c.path);
              if path != "" && exists h :: h in c.hashes && sum(h) == hash then {path} else {}
  {
  }

  lemma {:induction false} VersionClaimsMean(sum: string -> Hash, fp: Fingerprints, listed: seq<HashVersion>,
                                             known: set<Hash>, hash: Hash)
    ensures forall c :: c in VersionClaims(sum, fp, listed, known) ==> c.software == fp.software
    ensures var claims := VersionClaims(sum, fp, listed, known);
            var listedFp := fp.(hashVersions := listed);
            && PathsOf(claims, hash) == []
            && if hash in EmptyHashes(sum, fp.contentHashes) && hash !in known then !Claims(claims, hash)
               else (Claims(claims, hash) <==> HasVersions(sum, listedFp, hash))
                    && Elements(VersionsOf(claims, hash)) == VersionsFor(sum, listedFp, hash)
  {
    if listed == [] {
    } else {
      var init, hv := listed[..|listed| - 1], listed[|listed| - 1];
      assert listed == init + [hv];
      var before := VersionClaims(sum, fp, init, known);
      var c := Claim(sum(hv.hash), fp.software, Versions(hv.versions));
      VersionClaimsMean(sum, fp, init, known, hash);
      ClaimsSnoc(before, c, hash);
      FactElements(before, c, c.hash);
      assert (before + [c])[..|before|] == before;
      VersionsSnoc(sum, fp, init, hv, hash);
    }
  }

  lemma VersionsSnoc(sum: string -> Hash, fp: Fingerprints, init: seq<HashVersion>, hv: HashVersion, hash: Hash)
    ensures HasVersions(sum, fp.(hashVersions := init + [hv]), hash) <==>
              HasVersions(sum, fp.(hashVersions := init), hash) || sum(hv.hash) == hash
    ensures VersionsFor(sum, fp.(hashVersions := init + [hv]), hash) ==
              VersionsFor(sum, fp.(hashVersions := init), hash)
                + if sum(hv.hash) == hash then Elements(hv.versions) else {}
  {
    assert hv in init + [hv];
    if HasVersions(sum, fp.(hashVersions := init), hash) {
      var w :| w in init && sum(w.hash) == hash;
      assert w in init + [hv];
    }
  }
}
