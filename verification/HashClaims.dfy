/** What a registry of fingerprint hashes knows, as a function of the claims made
    (plugins/fingerprint/webidentity/hash/registry.go). */
module HashClaims {
  import opened Sequences

  type Hash = nat

  datatype ContentHash = ContentHash(path: string, hashes: seq<string>)

  datatype HashVersion = HashVersion(hash: string, versions: seq<string>)

  datatype Fingerprints = Fingerprints(software: string, contentHashes: seq<ContentHash>,
                                       hashVersions: seq<HashVersion>)

  /** A hash that two softwares claimed is a tombstone: it stays, and says nothing. */
  datatype Entry = Tombstone | Known(software: string, roots: seq<string>, versions: seq<string>)

  type Table = map<Hash, Entry>

  datatype Fact = Path(path: string) | Versions(versions: seq<string>)

  datatype Claim = Claim(hash: Hash, software: string, fact: Fact)

  /** `strings.Cut`: what comes before the first mark. */
  function Before(s: string, mark: char): string {
    if s == [] || s[0] == mark then [] else [s[0]] + Before(s[1..], mark)
  }

  function StripQueryAndFragment(raw: string): string {
    Before(Before(raw, '#'), '?')
  }

  lemma {:induction false} BeforeIsCut(s: string, mark: char)
    ensures Before(s, mark) <= s && mark !in Before(s, mark)
    ensures |Before(s, mark)| < |s| ==> s[|Before(s, mark)|] == mark
  {
    if s == [] || s[0] == mark {
    } else {
      BeforeIsCut(s[1..], mark);
      assert s == [s[0]] + s[1..];
    }
  }

  /** What is left is everything up to the first query or fragment mark, whichever comes first. */
  lemma StripMeaning(raw: string)
    ensures var clean := StripQueryAndFragment(raw);
            && clean <= raw && '#' !in clean && '?' !in clean
            && (|clean| < |raw| ==> raw[|clean|] == '#' || raw[|clean|] == '?')
  {
    BeforeIsCut(raw, '#');
    BeforeIsCut(Before(raw, '#'), '?');
  }

  // ---------- Claims on a table ----------

  function ClaimSoftware(t: Table, hash: Hash, software: string): Table {
    if hash !in t then t[hash := Known(software, [], [])]
    else if t[hash].Tombstone? || t[hash].software != software then t[hash := Tombstone]
    else t
  }

  function AddFact(e: Entry, fact: Fact): Entry {
    match e
    case Tombstone => e
    case Known(_, roots, versions) =>
      match fact
      case Path(path) => e.(roots := AppendNew(roots, path))
      case Versions(more) => e.(versions := AppendAllNew(versions, more))
  }

  function ApplyClaim(t: Table, c: Claim): Table {
    var t' := ClaimSoftware(t, c.hash, c.software);
    t'[c.hash := AddFact(t'[c.hash], c.fact)]
  }

  function ApplyClaims(t: Table, claims: seq<Claim>): Table {
    if claims == [] then t else ApplyClaim(ApplyClaims(t, claims[..|claims| - 1]), claims[|claims| - 1])
  }

  lemma {:induction false} ApplyConcat(t: Table, a: seq<Claim>, b: seq<Claim>)
    ensures ApplyClaims(t, a + b) == ApplyClaims(ApplyClaims(t, a), b)
  {
    if b == [] {
      assert a + b == a;
    } else {
      assert (a + b)[..|a + b| - 1] == a + b[..|b| - 1];
      ApplyConcat(t, a, b[..|b| - 1]);
    }
  }

  // ---------- What the claims mean ----------

  function PathsOf(claims: seq<Claim>, hash: Hash): seq<string> {
    if claims == [] then []
    else
      var c, before := claims[|claims| - 1], PathsOf(claims[..|claims| - 1], hash);
      if c.hash == hash && c.fact.Path? then before + [c.fact.path] else before
  }

  function VersionsOf(claims: seq<Claim>, hash: Hash): seq<string> {
    if claims == [] then []
    else
      var c, before := claims[|claims| - 1], VersionsOf(claims[..|claims| - 1], hash);
      if c.hash == hash && c.fact.Versions? then before + c.fact.versions else before
  }

  ghost predicate ClaimedBy(claims: seq<Claim>, hash: Hash, software: string) {
    exists i :: 0 <= i < |claims| && claims[i].hash == hash && claims[i].software == software
  }

  /** No claim: no entry. Two softwares: a tombstone. One: its paths and versions, each once, in the
      order first claimed. */
  ghost predicate EntryMeans(claims: seq<Claim>, t: Table, hash: Hash) {
    && (hash in t <==> exists s :: ClaimedBy(claims, hash, s))
    && (hash in t ==>
          match t[hash]
          case Tombstone => exists s, s' :: s != s' && ClaimedBy(claims, hash, s) && ClaimedBy(claims, hash, s')
          case Known(software, roots, versions) =>
            && (forall s :: ClaimedBy(claims, hash, s) <==> s == software)
            && roots == Dedup(PathsOf(claims, hash)) && versions == Dedup(VersionsOf(claims, hash)))
  }

  lemma ClaimedBySnoc(claims: seq<Claim>, c: Claim, hash: Hash, software: string)
    ensures ClaimedBy(claims + [c], hash, software) <==>
              ClaimedBy(claims, hash, software) || (c.hash == hash && c.software == software)
  {
    if ClaimedBy(claims, hash, software) {
      var i :| 0 <= i < |claims| && claims[i].hash == hash && claims[i].software == software;
      assert (claims + [c])[i] == claims[i];
    }
    assert (claims + [c])[|claims|] == c;
  }

  lemma {:induction false} DedupIdempotent(s: seq<string>)
    ensures Dedup(Dedup(s)) == Dedup(s)
  {
    DedupDistinct(s);
    DistinctIsDedup(Dedup(s));
  }

  /** Adding a fact to an entry that means its claims. */
  lemma FactMeans(roots: seq<string>, versions: seq<string>, paths: seq<string>, all: seq<string>, software: string,
                  fact: Fact)
    requires roots == Dedup(paths) && versions == Dedup(all)
    ensures var e := AddFact(Known(software, roots, versions), fact);
            && e.Known? && e.software == software
            && e.roots == Dedup(paths + if fact.Path? then [fact.path] else [])
            && e.versions == Dedup(all + if fact.Versions? then fact.versions else [])
  {
    match fact
    case Path(path) =>
      DedupSnoc(paths, path);
      assert all + [] == all;
    case Versions(more) =>
      DedupIdempotent(all);
      AppendAllNewIsDedup(versions, more);
      DedupConcat(versions, more);
      DedupConcat(all, more);
      DedupElements(all);
      assert Elements(versions) == Elements(all);
      assert paths + [] == paths;
  }

  lemma NoClaimsNoFacts(claims: seq<Claim>, hash: Hash)
    requires forall s :: !ClaimedBy(claims, hash, s)
    ensures PathsOf(claims, hash) == [] && VersionsOf(claims, hash) == []
  {
    if claims != [] {
      var init, c := claims[..|claims| - 1], claims[|claims| - 1];
      assert claims == init + [c];
      forall s ensures !ClaimedBy(init, hash, s) {
        ClaimedBySnoc(init, c, hash, s);
      }
      ClaimedBySnoc(init, c, hash, c.software);
      NoClaimsNoFacts(init, hash);
    }
  }

  lemma ClaimMeans(claims: seq<Claim>, t: Table, c: Claim, hash: Hash)
    requires EntryMeans(claims, t, hash)
    ensures EntryMeans(claims + [c], ApplyClaim(t, c), hash)
  {
    assert (claims + [c])[..|claims|] == claims;
    forall s
      ensures ClaimedBy(claims + [c], hash, s) <==> ClaimedBy(claims, hash, s) || (c.hash == hash && c.software == s)
    {
      ClaimedBySnoc(claims, c, hash, s);
    }
    if c.hash == hash {
      assert ClaimedBy(claims + [c], hash, c.software);
      if hash !in t {
        NoClaimsNoFacts(claims, hash);
        FactMeans([], [], [], [], c.software, c.fact);
      } else if t[hash].Known? {
        if t[hash].software == c.software {
          FactMeans(t[hash].roots, t[hash].versions, PathsOf(claims, hash), VersionsOf(claims, hash), c.software,
                    c.fact);
          assert PathsOf(claims, hash) + [] == PathsOf(claims, hash);
          assert VersionsOf(claims, hash) + [] == VersionsOf(claims, hash);
        } else {
          assert ClaimedBy(claims + [c], hash, t[hash].software);
        }
      }
    }
  }

  /** The table equals its claims. */
  lemma {:induction false} TableMeans(claims: seq<Claim>, hash: Hash)
    ensures EntryMeans(claims, ApplyClaims(map[], claims), hash)
  {
    if claims == [] {
    } else {
      var init, c := claims[..|claims| - 1], claims[|claims| - 1];
      TableMeans(init, hash);
      ClaimMeans(init, ApplyClaims(map[], init), c, hash);
      assert claims == init + [c];
    }
  }
}
