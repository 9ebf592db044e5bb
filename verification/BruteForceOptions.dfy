/** A username and password pair, as in common/bruteforce/credential.go. */
module Credentials {
  datatype Credential = Credential(username: string, password: string)
}

/** Preparing the store of a brute-force detector (common/bruteforce/options.go) and the list of
    candidates it tests (common/bruteforce/bruteforce.go). */
module BruteForceOptions {
  import opened Sequences
  import opened Credentials
  import opened CredentialStores

  // ---------- Prepending the default credentials ----------

  function UserOf(cred: Credential, passwordOnly: bool): string {
    if passwordOnly then "" else cred.username
  }

  /** What the descending loop of prependDefaultCredentials does to the value of the store. */
  function PrependDefaults(s: Store, defaults: seq<Credential>, passwordOnly: bool): Store {
    if defaults == [] then s
    else
      var user := UserOf(defaults[0], passwordOnly);
      var t := PrependUser(PrependDefaults(s, defaults[1..], passwordOnly), user);
      PrependPasswordForUser(t, user, defaults[0].password)
  }

  function DefaultUsers(defaults: seq<Credential>, passwordOnly: bool): seq<string> {
    if defaults == [] then []
    else [UserOf(defaults[0], passwordOnly)] + DefaultUsers(defaults[1..], passwordOnly)
  }

  function DefaultPasswords(defaults: seq<Credential>, passwordOnly: bool, user: string): seq<string> {
    if defaults == [] then []
    else if UserOf(defaults[0], passwordOnly) == user then
      [defaults[0].password] + DefaultPasswords(defaults[1..], passwordOnly, user)
    else
      DefaultPasswords(defaults[1..], passwordOnly, user)
  }

  /** `front` without its repetitions, then what `known` has besides. */
  function Prioritised(front: seq<string>, known: seq<string>): seq<string> {
    Dedup(front) + Without(known, Elements(front))
  }

  /** One more element in front of a prioritised list is a move to the front. */
  lemma PrioritiseOne(x: string, front: seq<string>, known: seq<string>)
    requires Distinct(Prioritised(front, known))
    ensures MoveToFront(Prioritised(front, known), x) == Prioritised([x] + front, known)
  {
    assert MoveToFront(Prioritised(front, known), x) == [x] + Without(Prioritised(front, known), {x}) by {
      MoveToFrontIsWithout(Prioritised(front, known), x);
    }
    PrioritisedWithout(x, front, known);
    PrioritisedCons(x, front, known);
  }

  lemma PrioritisedCons(x: string, front: seq<string>, known: seq<string>)
    ensures Prioritised([x] + front, known)
         == [x] + (Without(Dedup(front), {x}) + Without(known, Elements([x] + front)))
  {
    assert ([x] + front)[1..] == front;
  }

  lemma PrioritisedWithout(x: string, front: seq<string>, known: seq<string>)
    ensures Without(Prioritised(front, known), {x})
         == Without(Dedup(front), {x}) + Without(known, Elements([x] + front))
  {
    WithoutConcat(Dedup(front), Without(known, Elements(front)), {x});
    WithoutTwice(known, Elements(front), {x});
    assert Elements(front) + {x} == Elements([x] + front);
  }

  /** Where `r` keeps the users and passwords of `s` once `defaults` took precedence. */
  ghost predicate OrderedBy(s: Store, defaults: seq<Credential>, passwordOnly: bool, r: Store) {
    && r.usernames == Prioritised(DefaultUsers(defaults, passwordOnly), s.usernames)
    && r.credentials.Keys == s.credentials.Keys + Elements(DefaultUsers(defaults, passwordOnly))
    && forall u :: r.Passwords(u) == Prioritised(DefaultPasswords(defaults, passwordOnly, u), s.Passwords(u))
  }

  /** A user is put in front of the list, whether it was listed, known or new. */
  lemma PrependUserOnLists(t: Store, user: string, front: seq<string>, known: seq<string>)
    requires t.Ok() && t.usernames == Prioritised(front, known)
    ensures PrependUser(t, user).usernames == Prioritised([user] + front, known)
    ensures PrependUser(t, user).credentials.Keys == t.credentials.Keys + {user}
    ensures forall u :: PrependUser(t, user).Passwords(u) == t.Passwords(u)
  {
    assert PrependUser(t, user).usernames == MoveToFront(t.usernames, user);
    PrioritiseOne(user, front, known);
  }

  /** The passwords of `u` after both calls for `user`. */
  lemma PasswordsAfter(t: Store, user: string, password: string, u: string, front: seq<string>, known: seq<string>)
    requires t.Ok() && t.Passwords(u) == Prioritised(front, known)
    ensures var r := PrependPasswordForUser(PrependUser(t, user), user, password);
            r.Passwords(u) == Prioritised(if u == user then [password] + front else front, known)
  {
    assert PrependUser(t, user).Passwords(u) == t.Passwords(u);
    if u == user {
      assert Distinct(t.Passwords(u));
      PrioritiseOne(password, front, known);
    }
  }

  lemma DefaultsCons(defaults: seq<Credential>, passwordOnly: bool)
    requires defaults != []
    ensures var user, rest := UserOf(defaults[0], passwordOnly), defaults[1..];
            && DefaultUsers(defaults, passwordOnly) == [user] + DefaultUsers(rest, passwordOnly)
            && Elements(DefaultUsers(defaults, passwordOnly)) == {user} + Elements(DefaultUsers(rest, passwordOnly))
            && DefaultPasswords(defaults, passwordOnly, user)
               == [defaults[0].password] + DefaultPasswords(rest, passwordOnly, user)
            && forall u :: u != user ==>
                 DefaultPasswords(defaults, passwordOnly, u) == DefaultPasswords(rest, passwordOnly, u)
  {
  }

  lemma PrependsKeepOk(t: Store, user: string, password: string)
    requires t.Ok()
    ensures PrependUser(t, user).Ok() && PrependPasswordForUser(PrependUser(t, user), user, password).Ok()
  {
    ApplyOk(t, OpPrependUser(user));
    ApplyOk(PrependUser(t, user), OpPrependPassword(user, password));
  }

  lemma StepPasswords(s: Store, t: Store, defaults: seq<Credential>, passwordOnly: bool, u: string)
    requires t.Ok() && defaults != [] && OrderedBy(s, defaults[1..], passwordOnly, t)
    ensures var user := UserOf(defaults[0], passwordOnly);
            var r := PrependPasswordForUser(PrependUser(t, user), user, defaults[0].password);
            r.Passwords(u) == Prioritised(DefaultPasswords(defaults, passwordOnly, u), s.Passwords(u))
  {
    var user, password, rest := UserOf(defaults[0], passwordOnly), defaults[0].password, defaults[1..];
    DefaultsCons(defaults, passwordOnly);
    PasswordsAfter(t, user, password, u, DefaultPasswords(rest, passwordOnly, u), s.Passwords(u));
  }

  /** One turn of the loop. */
  lemma PrependStep(s: Store, t: Store, defaults: seq<Credential>, passwordOnly: bool)
    requires t.Ok() && defaults != [] && OrderedBy(s, defaults[1..], passwordOnly, t)
    ensures var user := UserOf(defaults[0], passwordOnly);
            var r := PrependPasswordForUser(PrependUser(t, user), user, defaults[0].password);
            r.Ok() && OrderedBy(s, defaults, passwordOnly, r)
  {
    var user, password, rest := UserOf(defaults[0], passwordOnly), defaults[0].password, defaults[1..];
    var added := PrependUser(t, user);
    PrependsKeepOk(t, user, password);
    DefaultsCons(defaults, passwordOnly);
    PrependUserOnLists(t, user, DefaultUsers(rest, passwordOnly), s.usernames);
    var r := PrependPasswordForUser(added, user, password);
    forall u ensures r.Passwords(u) == Prioritised(DefaultPasswords(defaults, passwordOnly, u), s.Passwords(u)) {
      StepPasswords(s, t, defaults, passwordOnly, u);
    }
  }

  lemma NothingPrepended(s: Store, passwordOnly: bool)
    ensures OrderedBy(s, [], passwordOnly, s)
  {
    assert Elements<string>([]) == {};
    WithoutNothing(s.usernames, {});
    forall u ensures Prioritised([], s.Passwords(u)) == s.Passwords(u) {
      WithoutNothing(s.Passwords(u), {});
    }
  }

  /** The reverse move-to-front loop: default users first in their order, then the old ones, and
      under each user its default passwords first, then the old ones. */
  lemma {:induction false} PrependOrder(s: Store, defaults: seq<Credential>, passwordOnly: bool)
    requires s.Ok()
    ensures PrependDefaults(s, defaults, passwordOnly).Ok()
    ensures OrderedBy(s, defaults, passwordOnly, PrependDefaults(s, defaults, passwordOnly))
  {
    if defaults == [] {
      NothingPrepended(s, passwordOnly);
    } else {
      PrependOrder(s, defaults[1..], passwordOnly);
      PrependStep(s, PrependDefaults(s, defaults[1..], passwordOnly), defaults, passwordOnly);
    }
  }

  // ---------- The candidate list ----------

  function WithPasswords(user: string, passwords: seq<string>): (creds: seq<Credential>)
    ensures |creds| == |passwords|
    ensures forall i :: 0 <= i < |passwords| ==> creds[i] == Credential(user, passwords[i])
  {
    seq(|passwords|, i requires 0 <= i < |passwords| => Credential(user, passwords[i]))
  }

  function CandidatesOf(s: Store, users: seq<string>): seq<Credential> {
    if users == [] then [] else WithPasswords(users[0], s.Passwords(users[0])) + CandidatesOf(s, users[1..])
  }

  lemma {:induction false} CandidatesConcat(s: Store, a: seq<string>, b: seq<string>)
    ensures CandidatesOf(s, a + b) == CandidatesOf(s, a) + CandidatesOf(s, b)
  {
    if a == [] {
      assert a + b == b;
    } else {
      assert (a + b)[1..] == a[1..] + b;
      CandidatesConcat(s, a[1..], b);
    }
  }

  lemma {:induction false} CandidatesMembers(s: Store, users: seq<string>, c: Credential)
    ensures c in CandidatesOf(s, users) <==> c.username in users && c.password in s.Passwords(c.username)
  {
    if users == [] {
    } else {
      CandidatesMembers(s, users[1..], c);
      assert users == [users[0]] + users[1..];
      var block := WithPasswords(users[0], s.Passwords(users[0]));
      if c.username == users[0] && c.password in s.Passwords(users[0]) {
        var i :| 0 <= i < |block| && s.Passwords(users[0])[i] == c.password;
        assert block[i] == c;
      }
    }
  }

  /** How many candidates the first `k` users have. */
  function Offset(s: Store, users: seq<string>, k: nat): nat
    requires k <= |users|
  {
    if k == 0 then 0 else Offset(s, users, k - 1) + |s.Passwords(users[k - 1])|
  }

  lemma {:induction false} OffsetTail(s: Store, users: seq<string>, k: nat)
    requires 1 <= k <= |users|
    ensures Offset(s, users, k) == |s.Passwords(users[0])| + Offset(s, users[1..], k - 1)
  {
    if k > 1 {
      OffsetTail(s, users, k - 1);
    }
  }

  /** `c` stands at this place of the list. */
  predicate StandsAt(creds: seq<Credential>, place: nat, c: Credential) {
    place < |creds| && creds[place] == c
  }

  lemma InFirstPart(a: seq<Credential>, b: seq<Credential>, place: nat, c: Credential)
    requires StandsAt(a, place, c)
    ensures StandsAt(a + b, place, c)
  {
  }

  lemma InSecondPart(a: seq<Credential>, b: seq<Credential>, place: nat, c: Credential)
    requires StandsAt(b, place, c)
    ensures StandsAt(a + b, |a| + place, c)
  {
  }

  /** The list goes user by user in the order of the store, and through each user's passwords in order. */
  lemma {:induction false} CandidatesInOrder(s: Store, users: seq<string>, k: nat, i: nat)
    requires k < |users| && i < |s.Passwords(users[k])|
    ensures StandsAt(CandidatesOf(s, users), Offset(s, users, k) + i, Credential(users[k], s.Passwords(users[k])[i]))
    decreases |users|
  {
    var block, rest := WithPasswords(users[0], s.Passwords(users[0])), CandidatesOf(s, users[1..]);
    var c := Credential(users[k], s.Passwords(users[k])[i]);
    if k == 0 {
      InFirstPart(block, rest, i, c);
    } else {
      CandidatesInOrder(s, users[1..], k - 1, i);
      OffsetTail(s, users, k);
      InSecondPart(block, rest, Offset(s, users[1..], k - 1) + i, c);
    }
  }

  /** ... and holds nothing else. */
  lemma {:induction false} CandidatesLength(s: Store, users: seq<string>)
    ensures |CandidatesOf(s, users)| == Offset(s, users, |users|)
  {
    if users == [] {
    } else {
      CandidatesLength(s, users[1..]);
      OffsetTail(s, users, |users|);
    }
  }

  /** The list to test holds exactly the known passwords of the listed users, no pair twice. */
  lemma {:induction false} CandidatesDistinct(s: Store, users: seq<string>)
    requires s.Ok() && Distinct(users)
    ensures Distinct(CandidatesOf(s, users))
  {
    if users == [] {
    } else {
      CandidatesDistinct(s, users[1..]);
      var block, rest := WithPasswords(users[0], s.Passwords(users[0])), CandidatesOf(s, users[1..]);
      forall i, j | 0 <= i < |block| && 0 <= j < |rest| ensures block[i] != rest[j] {
        CandidatesMembers(s, users[1..], rest[j]);
      }
    }
  }

  /** Whatever calls built the store, and in password-only mode too, no pair is tested twice. */
  lemma PreparedCandidatesDistinct(ops: seq<Op>, defaults: seq<Credential>, passwordOnly: bool)
    ensures var base := Run(Store([], map[]), ops);
            var s := Prepared(base, defaults, passwordOnly);
            Distinct(CandidatesOf(s, s.usernames))
  {
    var base := Run(Store([], map[]), ops);
    RunOk(ops);
    ApplyOk(base, OpCollapse);
    PrependOrder(if passwordOnly then CollapseToPasswordOnly(base) else base, defaults, passwordOnly);
    var s := Prepared(base, defaults, passwordOnly);
    CandidatesDistinct(s, s.usernames);
  }

  function Prepared(base: Store, defaults: seq<Credential>, passwordOnly: bool): Store {
    PrependDefaults(if passwordOnly then CollapseToPasswordOnly(base) else base, defaults, passwordOnly)
  }

  // ---------- The prepared store ----------

  function AllUsers(defaults: seq<Credential>): seq<string> {
    seq(|defaults|, i requires 0 <= i < |defaults| => defaults[i].username)
  }

  function AllDefaultPasswords(defaults: seq<Credential>): seq<string> {
    seq(|defaults|, i requires 0 <= i < |defaults| => defaults[i].password)
  }

  /** The default passwords of one user, in order. */
  function OwnPasswords(defaults: seq<Credential>, user: string): seq<string> {
    if defaults == [] then []
    else (if defaults[0].username == user then [defaults[0].password] else []) + OwnPasswords(defaults[1..], user)
  }

  /** In password-only mode there is one user without a name, with all default passwords and then those of
      the listed users, each once; otherwise the default users come first, and under each user its default
      passwords. */
  ghost predicate IsPrepared(base: Store, defaults: seq<Credential>, passwordOnly: bool, r: Store) {
    if passwordOnly then
      var front := AllDefaultPasswords(defaults);
      && r.usernames == [""] && r.credentials.Keys == {""}
      && r.Passwords("") == Dedup(front) + Without(Dedup(AllPasswords(base, base.usernames)), Elements(front))
    else
      var front := AllUsers(defaults);
      && r.usernames == Dedup(front) + Without(base.usernames, Elements(front))
      && r.credentials.Keys == base.credentials.Keys + Elements(front)
      && forall u ::
           r.Passwords(u)
           == Dedup(OwnPasswords(defaults, u)) + Without(base.Passwords(u), Elements(OwnPasswords(defaults, u)))
  }

  lemma {:induction false} DefaultsByName(defaults: seq<Credential>, user: string)
    ensures DefaultUsers(defaults, false) == AllUsers(defaults)
    ensures DefaultPasswords(defaults, false, user) == OwnPasswords(defaults, user)
  {
    if defaults == [] {
    } else {
      DefaultsByName(defaults[1..], user);
      assert AllUsers(defaults) == [defaults[0].username] + AllUsers(defaults[1..]);
    }
  }

  lemma {:induction false} DefaultsNameless(defaults: seq<Credential>)
    ensures DefaultPasswords(defaults, true, "") == AllDefaultPasswords(defaults)
    ensures Elements(DefaultUsers(defaults, true)) <= {""}
    ensures Prioritised(DefaultUsers(defaults, true), [""]) == [""]
  {
    if defaults == [] {
      WithoutNothing([""], {});
      assert Elements<string>([]) == {};
    } else {
      DefaultsNameless(defaults[1..]);
      assert AllDefaultPasswords(defaults) == [defaults[0].password] + AllDefaultPasswords(defaults[1..]);
      var users := DefaultUsers(defaults, true);
      assert users == [""] + DefaultUsers(defaults[1..], true);
      assert users[0] in users && Elements(users) == {""};
      OnlyOne(DefaultUsers(defaults[1..], true), "");
    }
  }

  lemma {:induction false} OnlyOne(s: seq<string>, x: string)
    requires Elements(s) <= {x}
    ensures Without(Dedup(s), {x}) == []
  {
    DedupElements(s);
    NothingLeft(Dedup(s), x);
  }

  lemma {:induction false} NothingLeft(s: seq<string>, x: string)
    requires Elements(s) <= {x}
    ensures Without(s, {x}) == []
  {
    if s == [] {
    } else {
      assert s[0] in Elements(s) && Elements(s[1..]) <= Elements(s);
      NothingLeft(s[1..], x);
    }
  }

  lemma PreparedMeans(base: Store, defaults: seq<Credential>, passwordOnly: bool)
    requires base.Ok()
    ensures IsPrepared(base, defaults, passwordOnly, Prepared(base, defaults, passwordOnly))
  {
    if passwordOnly {
      var collapsed := CollapseToPasswordOnly(base);
      ApplyOk(base, OpCollapse);
      PrependOrder(collapsed, defaults, true);
      DefaultsNameless(defaults);
      assert collapsed.credentials.Keys == {""};
    } else {
      PrependOrder(base, defaults, false);
      forall u ensures DefaultPasswords(defaults, false, u) == OwnPasswords(defaults, u) {
        DefaultsByName(defaults, u);
      }
      DefaultsByName(defaults, "");
    }
  }

  // ---------- When are all defaults tested before anything generic? ----------

  predicate IsDefault(defaults: seq<Credential>, passwordOnly: bool, c: Credential) {
    c.password in DefaultPasswords(defaults, passwordOnly, c.username)
  }

  ghost predicate DefaultsFirst(defaults: seq<Credential>, passwordOnly: bool, creds: seq<Credential>) {
    forall i, j :: 0 <= i < j < |creds| && IsDefault(defaults, passwordOnly, creds[j])
      ==> IsDefault(defaults, passwordOnly, creds[i])
  }

  predicate OnlyDefaults(s: Store, defaults: seq<Credential>, passwordOnly: bool, user: string) {
    forall p :: p in s.Passwords(user) ==> p in DefaultPasswords(defaults, passwordOnly, user)
  }

  /** Every default user but the last has no password of its own in the old store. */
  predicate OnlyLastHasOthers(s: Store, defaults: seq<Credential>, passwordOnly: bool, users: seq<string>) {
    forall k :: 0 <= k < |users| - 1 ==> OnlyDefaults(s, defaults, passwordOnly, users[k])
  }

  lemma DefaultsFirstConcat(defaults: seq<Credential>, passwordOnly: bool, a: seq<Credential>, b: seq<Credential>)
    ensures DefaultsFirst(defaults, passwordOnly, a + b) <==>
              && DefaultsFirst(defaults, passwordOnly, a)
              && DefaultsFirst(defaults, passwordOnly, b)
              && ((forall i :: 0 <= i < |a| ==> IsDefault(defaults, passwordOnly, a[i]))
                  || (forall j :: 0 <= j < |b| ==> !IsDefault(defaults, passwordOnly, b[j])))
  {
    var ab := a + b;
    assert forall i :: 0 <= i < |a| ==> ab[i] == a[i];
    assert forall j :: 0 <= j < |b| ==> ab[|a| + j] == b[j];
    if DefaultsFirst(defaults, passwordOnly, ab) {
      forall i, j | 0 <= i < |a| && 0 <= j < |b| && IsDefault(defaults, passwordOnly, b[j])
        ensures IsDefault(defaults, passwordOnly, a[i])
      {
        assert ab[|a| + j] == b[j];
      }
      forall i, j | 0 <= i < j < |b| && IsDefault(defaults, passwordOnly, b[j])
        ensures IsDefault(defaults, passwordOnly, b[i])
      {
        assert ab[|a| + i] == b[i] && ab[|a| + j] == b[j];
      }
    }
  }

  /** One default user's block: its defaults first, and nothing else exactly when it had no other password. */
  lemma DefaultUserBlock(s: Store, defaults: seq<Credential>, passwordOnly: bool, user: string)
    requires s.Ok() && user in DefaultUsers(defaults, passwordOnly)
    ensures var block := WithPasswords(user, PrependDefaults(s, defaults, passwordOnly).Passwords(user));
            && DefaultsFirst(defaults, passwordOnly, block)
            && |block| > 0 && IsDefault(defaults, passwordOnly, block[0])
            && ((forall i :: 0 <= i < |block| ==> IsDefault(defaults, passwordOnly, block[i]))
                <==> OnlyDefaults(s, defaults, passwordOnly, user))
  {
    PrependOrder(s, defaults, passwordOnly);
    var own := DefaultPasswords(defaults, passwordOnly, user);
    var others := Without(s.Passwords(user), Elements(own));
    var passwords := PrependDefaults(s, defaults, passwordOnly).Passwords(user);
    assert passwords == Dedup(own) + others;
    HasDefaultPassword(defaults, passwordOnly, user);
    DedupElements(own);
    WithoutElements(s.Passwords(user), Elements(own));
    var block := WithPasswords(user, passwords);
    forall i | 0 <= i < |block| ensures IsDefault(defaults, passwordOnly, block[i]) <==> i < |Dedup(own)| {
      if i < |Dedup(own)| {
        assert passwords[i] in Dedup(own);
      } else {
        assert passwords[i] == others[i - |Dedup(own)|];
        assert passwords[i] in others;
      }
    }
    assert |Dedup(own)| > 0;
    if others != [] {
      assert !IsDefault(defaults, passwordOnly, block[|Dedup(own)|]);
      assert others[0] in others;
    }
  }

  lemma {:induction false} HasDefaultPassword(defaults: seq<Credential>, passwordOnly: bool, user: string)
    ensures DefaultPasswords(defaults, passwordOnly, user) != [] <==> user in DefaultUsers(defaults, passwordOnly)
  {
    if defaults == [] {
    } else {
      HasDefaultPassword(defaults[1..], passwordOnly, user);
    }
  }

  lemma NoDefaultsAmong(s: Store, defaults: seq<Credential>, passwordOnly: bool, users: seq<string>)
    requires forall u :: u in users ==> u !in DefaultUsers(defaults, passwordOnly)
    ensures forall i :: 0 <= i < |CandidatesOf(s, users)| ==>
              !IsDefault(defaults, passwordOnly, CandidatesOf(s, users)[i])
  {
    var creds := CandidatesOf(s, users);
    forall i | 0 <= i < |creds| ensures !IsDefault(defaults, passwordOnly, creds[i]) {
      CandidatesMembers(s, users, creds[i]);
      HasDefaultPassword(defaults, passwordOnly, creds[i].username);
    }
  }

  lemma OnlyLastCons(s: Store, defaults: seq<Credential>, passwordOnly: bool, users: seq<string>)
    requires |users| > 1
    ensures OnlyLastHasOthers(s, defaults, passwordOnly, users)
       <==> OnlyDefaults(s, defaults, passwordOnly, users[0])
            && OnlyLastHasOthers(s, defaults, passwordOnly, users[1..])
  {
    assert forall k :: 0 <= k < |users| - 2 ==> users[k + 1] == users[1..][k];
    assert forall k :: 1 <= k < |users| - 1 ==> users[k] == users[1..][k - 1];
  }

  lemma {:induction false} DefaultsFirstFrom(s: Store, defaults: seq<Credential>, passwordOnly: bool,
                                             users: seq<string>, rest: seq<string>)
    requires s.Ok()
    requires forall u :: u in users ==> u in DefaultUsers(defaults, passwordOnly)
    requires forall u :: u in rest ==> u !in DefaultUsers(defaults, passwordOnly)
    ensures DefaultsFirst(defaults, passwordOnly,
                          CandidatesOf(PrependDefaults(s, defaults, passwordOnly), users + rest))
       <==> OnlyLastHasOthers(s, defaults, passwordOnly, users)
  {
    var r := PrependDefaults(s, defaults, passwordOnly);
    if users == [] {
      assert users + rest == rest;
      NoDefaultsAmong(r, defaults, passwordOnly, rest);
    } else {
      var user, tail := users[0], users[1..];
      assert (users + rest)[1..] == tail + rest;
      var block, others := WithPasswords(user, r.Passwords(user)), CandidatesOf(r, tail + rest);
      DefaultUserBlock(s, defaults, passwordOnly, user);
      DefaultsFirstFrom(s, defaults, passwordOnly, tail, rest);
      DefaultsFirstConcat(defaults, passwordOnly, block, others);
      if tail == [] {
        assert tail + rest == rest;
        NoDefaultsAmong(r, defaults, passwordOnly, rest);
      } else {
        DefaultUserBlock(s, defaults, passwordOnly, tail[0]);
        assert others[0] == WithPasswords(tail[0], r.Passwords(tail[0]))[0];
        OnlyLastCons(s, defaults, passwordOnly, users);
      }
    }
  }

  /** Defaults are promised to be tested before generic credentials. The list is ordered user by
      user, so the promise holds exactly when no default user but the last has other passwords. */
  lemma DefaultsTestedFirst(s: Store, defaults: seq<Credential>, passwordOnly: bool)
    requires s.Ok()
    ensures var r := PrependDefaults(s, defaults, passwordOnly);
            DefaultsFirst(defaults, passwordOnly, CandidatesOf(r, r.usernames))
            <==> OnlyLastHasOthers(s, defaults, passwordOnly, Dedup(DefaultUsers(defaults, passwordOnly)))
  {
    var users := DefaultUsers(defaults, passwordOnly);
    PrependOrder(s, defaults, passwordOnly);
    DedupElements(users);
    WithoutElements(s.usernames, Elements(users));
    DefaultsFirstFrom(s, defaults, passwordOnly, Dedup(users), Without(s.usernames, Elements(users)));
  }

  /** In password-only mode there is one user, so defaults always come first. */
  lemma {:induction false} PasswordOnlyDefaultsFirst(defaults: seq<Credential>)
    ensures |Dedup(DefaultUsers(defaults, true))| <= 1
    ensures forall s: Store :: OnlyLastHasOthers(s, defaults, true, Dedup(DefaultUsers(defaults, true)))
  {
    if defaults == [] {
    } else {
      PasswordOnlyDefaultsFirst(defaults[1..]);
      var tail := Dedup(DefaultUsers(defaults[1..], true));
      DedupElements(DefaultUsers(defaults[1..], true));
      OneUser(defaults[1..]);
      assert tail == [] || tail == [""];
      assert Without(tail, {""}) == [];
    }
  }

  lemma {:induction false} OneUser(defaults: seq<Credential>)
    ensures forall u :: u in DefaultUsers(defaults, true) ==> u == ""
  {
    if defaults == [] {
    } else {
      OneUser(defaults[1..]);
    }
  }

  /** Two default users with generic passwords: the second default waits behind a generic one. */
  lemma DefaultsNotFirstExample()
    ensures var s := Store(["a", "b"], map["a" := ["generic"], "b" := ["generic"]]);
            var defaults := [Credential("a", "x"), Credential("b", "y")];
            var r := PrependDefaults(s, defaults, false);
            s.Ok() && !DefaultsFirst(defaults, false, CandidatesOf(r, r.usernames))
  {
    var s := Store(["a", "b"], map["a" := ["generic"], "b" := ["generic"]]);
    var defaults := [Credential("a", "x"), Credential("b", "y")];
    assert defaults[1..] == [Credential("b", "y")];
    assert DefaultUsers(defaults, false) == ["a", "b"];
    assert Dedup(["a", "b"]) == ["a", "b"] by {
      DistinctIsDedup(["a", "b"]);
    }
    DefaultsTestedFirst(s, defaults, false);
    assert DefaultPasswords(defaults, false, "a") == ["x"];
    assert "generic" in s.Passwords("a");
  }

  // ---------- The methods ----------

  lemma PrependedOne(s: Store, t: Store, defaults: seq<Credential>, i: nat, passwordOnly: bool, r: Store)
    requires i < |defaults| && t == PrependDefaults(s, defaults[i + 1..], passwordOnly)
    requires var user := UserOf(defaults[i], passwordOnly);
             r == CredentialStores.Apply(CredentialStores.Apply(t, OpPrependUser(user)),
                                         OpPrependPassword(user, defaults[i].password))
    ensures r == PrependDefaults(s, defaults[i..], passwordOnly)
  {
    assert defaults[i..][1..] == defaults[i + 1..];
  }

  method PrependDefaultCredentials(store: CredentialStore, defaults: seq<Credential>, passwordOnly: bool)
    requires store.Valid()
    modifies store
    ensures store.Valid() && store.View() == PrependDefaults(old(store.View()), defaults, passwordOnly)
  {
    if |defaults| == 0 {
      return;
    }
    ghost var was := store.View();
    var i := |defaults| - 1;
    while i >= 0
      invariant -1 <= i < |defaults|
      invariant store.Valid()
      invariant store.View() == PrependDefaults(was, defaults[i + 1..], passwordOnly)
    {
      var cred := defaults[i];
      var user := cred.username;
      if passwordOnly {
        user := "";
      }
      ghost var before := store.View();
      store.PrependUser(user);
      store.PrependPasswordForUser(user, cred.password);
      PrependedOne(was, before, defaults, i, passwordOnly, store.View());
      i := i - 1;
    }
  }

  /** `base` is the given store or the loaded defaults; it is copied, never changed. */
  method PrepareCredentialStore(base: CredentialStore, defaults: seq<Credential>, passwordOnly: bool)
      returns (store: CredentialStore)
    requires base.Valid()
    ensures fresh(store) && store.Valid()
    ensures store.View() == Prepared(base.View(), defaults, passwordOnly)
    ensures IsPrepared(base.View(), defaults, passwordOnly, store.View())
  {
    PreparedMeans(base.View(), defaults, passwordOnly);
    store := base.Copy();
    if passwordOnly {
      store.CollapseToPasswordOnly();
    }
    PrependDefaultCredentials(store, defaults, passwordOnly);
  }

  method Candidates(store: CredentialStore) returns (creds: seq<Credential>)
    requires store.Valid()
    ensures creds == CandidatesOf(store.View(), store.View().usernames)
    ensures Distinct(creds)
  {
    creds := [];
    var s := store.View();
    for i := 0 to |store.usernames|
      invariant creds == CandidatesOf(s, s.usernames[..i])
    {
      var username := store.usernames[i];
      var passwords := s.Passwords(username);
      ghost var before := creds;
      for j := 0 to |passwords|
        invariant creds == before + WithPasswords(username, passwords)[..j]
      {
        creds := creds + [Credential(username, passwords[j])];
      }
      assert s.usernames[..i + 1] == s.usernames[..i] + [username];
      CandidatesConcat(s, s.usernames[..i], [username]);
      assert CandidatesOf(s, [username]) == WithPasswords(username, passwords);
    }
    assert s.usernames[..|s.usernames|] == s.usernames;
    CandidatesDistinct(s, s.usernames);
  }
}
