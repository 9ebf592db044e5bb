/** The registry object (plugins/fingerprint/webidentity/hash/registry.go): identities are shared
    objects updated in place while files are loaded. */
module HashRegistries {
  import opened Sequences
  import opened HashClaims
  import opened HashLoading

  class Identity {
    const software: string
    ghost const hash: Hash
    var potentialRoots: seq<string>
    var versions: seq<string>

    constructor (software: string, ghost hash: Hash)
      ensures this.software == software && this.hash == hash && potentialRoots == [] && versions == []
    {
      this.software := software;
      this.hash := hash;
      potentialRoots := [];
      versions := [];
    }
  }

  /** What Find answers: `NotFound` is the nil identity. */
  datatype Found = NotFound | Found(software: string, roots: seq<string>, versions: seq<string>)

  /** The prefixes of `path` before each registered path it ends with, in registration order. */
  function RootsFor(path: string, registered: seq<string>): seq<string> {
    if registered == [] then []
    else
      var p, before := registered[|registered| - 1], RootsFor(path, registered[..|registered| - 1]);
      if |p| <= |path| && path[|path| - |p|..] == p then before + [path[..|path| - |p|]] else before
  }

  /** A root is found exactly when it completes to the path with a registered path. */
  lemma {:induction false} RootsForMeaning(path: string, registered: seq<string>, root: string)
    ensures root in RootsFor(path, registered) <==> exists p :: p in registered && root + p == path
  {
    if registered == [] {
    } else {
      var init, p := registered[..|registered| - 1], registered[|registered| - 1];
      assert registered == init + [p];
      RootsForMeaning(path, init, root);
      assert root + p == path <==> |p| <= |path| && path[|path| - |p|..] == p && root == path[..|path| - |p|];
      if q :| q in init && root + q == path {
        assert q in registered;
      }
    }
  }

  predicate EndsWith(path: string, p: string) {
    |p| <= |path| && path[|path| - |p|..] == p
  }

  /** What each root leaves of the path. */
  function Remainders(path: string, roots: seq<string>): seq<string>
    requires forall i :: 0 <= i < |roots| ==> roots[i] <= path
  {
    seq(|roots|, i requires 0 <= i < |roots| => path[|roots[i]|..])
  }

  /** Not the registered paths that the path ends with. */
  function Misfits(path: string, registered: seq<string>): set<string> {
    set p | p in registered && !EndsWith(path, p)
  }

  /** The roots come in the order of the registered paths they go with, one each. */
  lemma {:induction false} RootsInOrder(path: string, registered: seq<string>)
    ensures forall i :: 0 <= i < |RootsFor(path, registered)| ==> RootsFor(path, registered)[i] <= path
    ensures Remainders(path, RootsFor(path, registered)) == Without(registered, Misfits(path, registered))
  {
    if registered == [] {
    } else {
      var init, p := registered[..|registered| - 1], registered[|registered| - 1];
      assert registered == init + [p];
      RootsInOrder(path, init);
      WithoutConcat(init, [p], Misfits(path, registered));
      SameWithout(init, Misfits(path, init), Misfits(path, registered));
    }
  }

  lemma {:induction false} SameWithout(s: seq<string>, a: set<string>, b: set<string>)
    requires forall x | x in s :: x in a <==> x in b
    ensures Without(s, a) == Without(s, b)
  {
    if s == [] {
    } else {
      assert s == [s[0]] + s[1..];
      SameWithout(s[1..], a, b);
    }
  }

  /** The answer to a lookup, from the value of the registry. */
  function FindIn(t: Table, key: Hash, clean: string): Found {
    if key !in t || t[key].Tombstone? then NotFound
    else if t[key].roots != [] && RootsFor(clean, t[key].roots) == [] then NotFound
    else Found.Found(t[key].software, RootsFor(clean, t[key].roots), t[key].versions)
  }

  ghost predicate OneClaimant(claims: seq<Claim>, key: Hash) {
    && (exists s :: ClaimedBy(claims, key, s))
    && forall s, s' :: ClaimedBy(claims, key, s) && ClaimedBy(claims, key, s') ==> s == s'
  }

  /** Some claimed path completes a root to this path, or no path was claimed at all. */
  ghost predicate Placed(claims: seq<Claim>, key: Hash, clean: string) {
    PathsOf(claims, key) == [] || exists root, p :: p in PathsOf(claims, key) && root + p == clean
  }

  /** The roots go with those of the paths that `clean` ends with, in order. */
  ghost predicate InPathOrder(roots: seq<string>, paths: seq<string>, clean: string) {
    && (forall i :: 0 <= i < |roots| ==> roots[i] <= clean)
    && Remainders(clean, roots) == Without(paths, Misfits(clean, paths))
  }

  /** After any loads a hash is found at a path exactly when one software alone claimed it and its
      claimed paths, if any, fit; the answer is that software, its versions, and exactly the roots
      that a claimed path completes to the path, in the order these paths were first claimed. */
  lemma FindMeans(sum: string -> Hash, files: seq<Fingerprints>, key: Hash, clean: string)
    ensures var claims, found := AllClaims(sum, files), FindIn(LoadAll(sum, files), key, clean);
            && (found.Found? <==> OneClaimant(claims, key) && Placed(claims, key, clean))
            && (found.Found? ==>
                  && ClaimedBy(claims, key, found.software) && found.versions == Dedup(VersionsOf(claims, key))
                  && (forall root ::
                        root in found.roots <==> exists p :: p in PathsOf(claims, key) && root + p == clean)
                  && InPathOrder(found.roots, Dedup(PathsOf(claims, key)), clean))
  {
    RegistryMeans(sum, files);
    FindFromClaims(LoadAll(sum, files), AllClaims(sum, files), key, clean);
  }

  lemma FindFromClaims(t: Table, claims: seq<Claim>, key: Hash, clean: string)
    requires EntryMeans(claims, t, key)
    ensures var found := FindIn(t, key, clean);
            && (found.Found? <==> OneClaimant(claims, key) && Placed(claims, key, clean))
            && (found.Found? ==>
                  && ClaimedBy(claims, key, found.software) && found.versions == Dedup(VersionsOf(claims, key))
                  && (forall root ::
                        root in found.roots <==> exists p :: p in PathsOf(claims, key) && root + p == clean)
                  && InPathOrder(found.roots, Dedup(PathsOf(claims, key)), clean))
  {
    if key in t && t[key].Known? {
      RootsOfClaims(PathsOf(claims, key), t[key].roots, clean);
      RootsInOrder(clean, t[key].roots);
    }
  }

  lemma RootsOfClaims(paths: seq<string>, registered: seq<string>, clean: string)
    requires registered == Dedup(paths)
    ensures registered == [] <==> paths == []
    ensures forall root :: root in RootsFor(clean, registered) <==> exists p :: p in paths && root + p == clean
    ensures RootsFor(clean, registered) == [] <==> !exists root, p :: p in paths && root + p == clean
  {
    var roots := RootsFor(clean, registered);
    DedupElements(paths);
    assert paths != [] ==> paths[0] in registered;
    forall root ensures root in roots <==> exists p :: p in paths && root + p == clean {
      RootsForMeaning(clean, registered, root);
    }
    assert roots != [] ==> roots[0] in roots;
    if root, p :| p in paths && root + p == clean {
      assert root in roots;
    }
  }

  class Registry {
    var knownHashes: map<Hash, Identity?>

    /** Identities are not shared between hashes. */
    ghost predicate Filed()
      reads this
    {
      forall h :: h in knownHashes && knownHashes[h] != null ==> knownHashes[h].hash == h
    }

    ghost function View(): Table
      reads this, knownHashes.Values
    {
      map h | h in knownHashes ::
        if knownHashes[h] == null then Tombstone
        else Known(knownHashes[h].software, knownHashes[h].potentialRoots, knownHashes[h].versions)
    }

    constructor ()
      ensures Filed() && View() == map[] && knownHashes == map[]
    {
      knownHashes := map[];
    }

    method Count() returns (n: nat)
      ensures n == |View()|
    {
      assert View().Keys == knownHashes.Keys;
      assert |View()| == |View().Keys| && |knownHashes| == |knownHashes.Keys|;
      n := |knownHashes|;
    }

    method AddSoftware(hash: Hash, software: string) returns (id: Identity?)
      requires Filed()
      modifies this
      ensures Filed() && View() == ClaimSoftware(old(View()), hash, software)
      ensures hash in knownHashes && id == knownHashes[hash]
      ensures forall h :: h in knownHashes && knownHashes[h] != null ==>
                knownHashes[h] in old(knownHashes.Values) || fresh(knownHashes[h])
    {
      ghost var was := View();
      if hash in knownHashes {
        id := knownHashes[hash];
        if id == null || id.software != software {
          knownHashes := knownHashes[hash := null];
          assert View() == was[hash := Tombstone];
          return null;
        }
        return id;
      }
      id := new Identity(software, hash);
      knownHashes := knownHashes[hash := id];
      assert View() == was[hash := Known(software, [], [])];
    }

    method AddPath(hash: Hash, software: string, path: string)
      requires Filed()
      modifies this, knownHashes.Values
      ensures Filed() && View() == ApplyClaim(old(View()), Claim(hash, software, Path(path)))
      ensures forall h :: h in knownHashes && knownHashes[h] != null ==>
                knownHashes[h] in old(knownHashes.Values) || fresh(knownHashes[h])
    {
      var id := AddSoftware(hash, software);
      ghost var claimed := View();
      if id == null {
        assert claimed == claimed[hash := AddFact(claimed[hash], Path(path))];
        return;
      }
      assert forall h :: h in knownHashes && h != hash ==> knownHashes[h] != id;
      if path !in id.potentialRoots {
        id.potentialRoots := id.potentialRoots + [path];
      }
      assert View() == claimed[hash := AddFact(claimed[hash], Path(path))];
    }

    method AddVersions(hash: Hash, software: string, versions: seq<string>)
      requires Filed()
      modifies this, knownHashes.Values
      ensures Filed() && View() == ApplyClaim(old(View()), Claim(hash, software, Versions(versions)))
      ensures forall h :: h in knownHashes && knownHashes[h] != null ==>
                knownHashes[h] in old(knownHashes.Values) || fresh(knownHashes[h])
    {
      var id := AddSoftware(hash, software);
      ghost var claimed := View();
      if id == null {
        assert claimed == claimed[hash := AddFact(claimed[hash], Versions(versions))];
        return;
      }
      assert forall h :: h in knownHashes && h != hash ==> knownHashes[h] != id;
      AppendVersions(id, versions);
      assert View() == claimed[hash := AddFact(claimed[hash], Versions(versions))];
    }

    static method AppendVersions(id: Identity, versions: seq<string>)
      modifies id`versions
      ensures id.versions == AppendAllNew(old(id.versions), versions)
    {
      for i := 0 to |versions|
        invariant id.versions == AppendAllNew(old(id.versions), versions[..i])
      {
        assert versions[..i + 1][..i] == versions[..i];
        if versions[i] !in id.versions {
          id.versions := id.versions + [versions[i]];
        }
      }
      assert versions[..|versions|] == versions;
    }

    /** One content entry: its claims, or its hashes when the path strips to nothing. */
    method LoadContent(sum: string -> Hash, software: string, content: ContentHash) returns (emptied: set<Hash>)
      requires Filed()
      modifies this, knownHashes.Values
      ensures Filed()
      ensures View() == ApplyClaims(old(View()),
                                    PathClaimsOf(sum, software, StripQueryAndFragment(content.path), content.hashes))
      ensures emptied == EmptyHashes(sum, [content])
      ensures forall h :: h in knownHashes && knownHashes[h] != null ==>
                knownHashes[h] in old(knownHashes.Values) || fresh(knownHashes[h])
    {
      var path := StripQueryAndFragment(content.path);
      ghost var was := View();
      emptied := {};
      for j := 0 to |content.hashes|
        invariant Filed()
        invariant View() == ApplyClaims(was, PathClaimsOf(sum, software, path, content.hashes[..j]))
        invariant emptied == if path == "" then SumsOf(sum, content.hashes[..j]) else {}
        invariant forall h :: h in knownHashes && knownHashes[h] != null ==>
                    knownHashes[h] in old(knownHashes.Values) || fresh(knownHashes[h])
      {
        var hash := sum(content.hashes[j]);
        OneMoreHash(sum, was, software, path, content.hashes, j);
        OneMoreSum(sum, content.hashes, j);
        if path == "" {
          emptied := emptied + {hash};
          continue;
        }
        AddPath(hash, software, path);
      }
      assert content.hashes[..|content.hashes|] == content.hashes;
      assert EmptyHashes(sum, [content]) == if path == "" then SumsOf(sum, content.hashes) else {};
    }

    static function SumsOf(sum: string -> Hash, hashes: seq<string>): set<Hash> {
      set h | h in hashes :: sum(h)
    }

    static lemma OneMoreHash(sum: string -> Hash, t: Table, software: string, path: string, hashes: seq<string>, j: nat)
      requires j < |hashes|
      ensures path == "" ==>
                PathClaimsOf(sum, software, path, hashes[..j + 1]) == PathClaimsOf(sum, software, path, hashes[..j])
      ensures path != "" ==>
                ApplyClaims(t, PathClaimsOf(sum, software, path, hashes[..j + 1]))
                == ApplyClaim(ApplyClaims(t, PathClaimsOf(sum, software, path, hashes[..j])),
                              Claim(sum(hashes[j]), software, Path(path)))
    {
      if path != "" {
        PathClaimsOfSnoc(sum, software, path, hashes, j);
        ApplyOne(t, PathClaimsOf(sum, software, path, hashes[..j]), Claim(sum(hashes[j]), software, Path(path)));
      }
    }

    static lemma OneMoreSum(sum: string -> Hash, hashes: seq<string>, j: nat)
      requires j < |hashes|
      ensures SumsOf(sum, hashes[..j + 1]) == SumsOf(sum, hashes[..j]) + {sum(hashes[j])}
    {
      assert hashes[..j + 1] == hashes[..j] + [hashes[j]];
    }

    static lemma PathClaimsOfSnoc(sum: string -> Hash, software: string, path: string, hashes: seq<string>, j: nat)
      requires j < |hashes| && path != ""
      ensures PathClaimsOf(sum, software, path, hashes[..j + 1])
           == PathClaimsOf(sum, software, path, hashes[..j]) + [Claim(sum(hashes[j]), software, Path(path))]
    {
      assert hashes[..j + 1][..j] == hashes[..j];
    }

    static lemma ApplyOne(t: Table, claims: seq<Claim>, c: Claim)
      ensures ApplyClaims(t, claims + [c]) == ApplyClaim(ApplyClaims(t, claims), c)
    {
      assert (claims + [c])[..|claims|] == claims;
    }

    method Load(sum: string -> Hash, fp: Fingerprints)
      requires Filed()
      modifies this, knownHashes.Values
      ensures Filed() && View() == LoadFile(sum, old(View()), fp)
      ensures forall h :: h in knownHashes && knownHashes[h] != null ==>
                knownHashes[h] in old(knownHashes.Values) || fresh(knownHashes[h])
    {
      var emptyPathHashes: set<Hash> := {};
      for i := 0 to |fp.contentHashes|
        invariant Filed()
        invariant View() == ApplyClaims(old(View()), PathClaims(sum, fp.software, fp.contentHashes[..i]))
        invariant emptyPathHashes == EmptyHashes(sum, fp.contentHashes[..i])
        invariant forall h :: h in knownHashes && knownHashes[h] != null ==>
                    knownHashes[h] in old(knownHashes.Values) || fresh(knownHashes[h])
      {
        var content := fp.contentHashes[i];
        var emptied := LoadContent(sum, fp.software, content);
        emptyPathHashes := emptyPathHashes + emptied;
        OneMoreContent(sum, old(View()), fp.software, fp.contentHashes, i);
      }
      assert fp.contentHashes[..|fp.contentHashes|] == fp.contentHashes;
      LoadVersions(sum, fp, emptyPathHashes);
      ApplyConcat(old(View()), PathClaims(sum, fp.software, fp.contentHashes),
                  VersionClaims(sum, fp, fp.hashVersions, AfterPaths(sum, old(View()), fp).Keys));
    }

    method LoadVersions(sum: string -> Hash, fp: Fingerprints, emptyPathHashes: set<Hash>)
      requires Filed() && emptyPathHashes == EmptyHashes(sum, fp.contentHashes)
      modifies this, knownHashes.Values
      ensures Filed()
      ensures View() == ApplyClaims(old(View()), VersionClaims(sum, fp, fp.hashVersions, old(View()).Keys))
      ensures forall h :: h in knownHashes && knownHashes[h] != null ==>
                knownHashes[h] in old(knownHashes.Values) || fresh(knownHashes[h])
    {
      ghost var was := View();
      for i := 0 to |fp.hashVersions|
        invariant Filed()
        invariant View() == ApplyClaims(was, VersionClaims(sum, fp, fp.hashVersions[..i], was.Keys))
        invariant forall h :: h in emptyPathHashes ==> (h in View() <==> h in was)
        invariant forall h :: h in knownHashes && knownHashes[h] != null ==>
                    knownHashes[h] in old(knownHashes.Values) || fresh(knownHashes[h])
      {
        var hv := fp.hashVersions[i];
        var hash := sum(hv.hash);
        OneMoreVersion(sum, was, fp, i);
        assert hash in knownHashes <==> hash in View();
        if hash in emptyPathHashes && hash !in knownHashes {
          continue;
        }
        ghost var before := View();
        AddVersions(hash, fp.software, hv.versions);
        ClaimKeys(before, Claim(hash, fp.software, Versions(hv.versions)));
      }
      assert fp.hashVersions[..|fp.hashVersions|] == fp.hashVersions;
    }

    static lemma ClaimKeys(t: Table, c: Claim)
      ensures ApplyClaim(t, c).Keys == t.Keys + {c.hash}
    {
    }

    static lemma OneMoreVersion(sum: string -> Hash, t: Table, fp: Fingerprints, i: nat)
      requires i < |fp.hashVersions|
      ensures var hv := fp.hashVersions[i];
              var before := ApplyClaims(t, VersionClaims(sum, fp, fp.hashVersions[..i], t.Keys));
              ApplyClaims(t, VersionClaims(sum, fp, fp.hashVersions[..i + 1], t.Keys))
              == if sum(hv.hash) in EmptyHashes(sum, fp.contentHashes) && sum(hv.hash) !in t then before
                 else ApplyClaim(before, Claim(sum(hv.hash), fp.software, Versions(hv.versions)))
    {
      assert fp.hashVersions[..i + 1][..i] == fp.hashVersions[..i];
      var hv := fp.hashVersions[i];
      ApplyOne(t, VersionClaims(sum, fp, fp.hashVersions[..i], t.Keys),
               Claim(sum(hv.hash), fp.software, Versions(hv.versions)));
    }

    static lemma OneMoreContent(sum: string -> Hash, t: Table, software: string, contents: seq<ContentHash>, i: nat)
      requires i < |contents|
      ensures ApplyClaims(ApplyClaims(t, PathClaims(sum, software, contents[..i])),
                          PathClaimsOf(sum, software, StripQueryAndFragment(contents[i].path), contents[i].hashes))
           == ApplyClaims(t, PathClaims(sum, software, contents[..i + 1]))
      ensures EmptyHashes(sum, contents[..i + 1]) == EmptyHashes(sum, contents[..i]) + EmptyHashes(sum, [contents[i]])
    {
      assert contents[..i + 1] == contents[..i] + [contents[i]];
      assert contents[..i + 1][..i] == contents[..i];
      ApplyConcat(t, PathClaims(sum, software, contents[..i]),
                  PathClaimsOf(sum, software, StripQueryAndFragment(contents[i].path), contents[i].hashes));
    }

    method Find(sum: string -> Hash, hash: string, path: string) returns (found: Found)
      requires Filed()
      ensures found == FindIn(View(), sum(hash), StripQueryAndFragment(path))
    {
      var key := sum(hash);
      if key !in knownHashes || knownHashes[key] == null {
        return NotFound;
      }
      var id := knownHashes[key];
      assert View()[key] == Known(id.software, id.potentialRoots, id.versions);
      var cleanPath := StripQueryAndFragment(path);
      var roots: seq<string> := [];
      for i := 0 to |id.potentialRoots|
        invariant roots == RootsFor(cleanPath, id.potentialRoots[..i])
      {
        var p := id.potentialRoots[i];
        assert id.potentialRoots[..i + 1][..i] == id.potentialRoots[..i];
        if |p| <= |cleanPath| && cleanPath[|cleanPath| - |p|..] == p {
          roots := roots + [cleanPath[..|cleanPath| - |p|]];
        }
      }
      assert id.potentialRoots[..|id.potentialRoots|] == id.potentialRoots;
      if |id.potentialRoots| > 0 && |roots| == 0 {
        return NotFound;
      }
      return Found.Found(id.software, roots, id.versions);
    }
  }
}
