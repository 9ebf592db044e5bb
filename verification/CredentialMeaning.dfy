/** What each call on a credential store does, said without the functions that compute it. */
module CredentialMeaning {
  import opened Sequences
  import opened CredentialStores

  /** Only the passwords of `user` changed, to these; the user now has a key. */
  ghost predicate OnlyPasswords(s: Store, r: Store, user: string, passwords: seq<string>) {
    && r.usernames == s.usernames && r.credentials.Keys == s.credentials.Keys + {user}
    && r.Passwords(user) == passwords
    && forall u :: u != user ==> r.Passwords(u) == s.Passwords(u)
  }

  /** The passwords `user` has, then the new ones among those given, in the order given. */
  ghost predicate Does(s: Store, op: Op, r: Store) {
    match op
    case OpAddUser(u) =>
      if u in s.credentials then r == s
      else r.usernames == s.usernames + [u] && r.credentials == s.credentials[u := []]
    case OpAddPasswordForUser(u, p) =>
      OnlyPasswords(s, r, u, s.Passwords(u) + if p in s.Passwords(u) then [] else [p])
    case OpAddPasswordsForUser(u, ps) =>
      if ps == [] then r == s else OnlyPasswords(s, r, u, Dedup(s.Passwords(u) + ps))
    case OpAddPassword(p) =>
      && r.usernames == s.usernames && r.credentials.Keys == s.credentials.Keys
      && forall u ::
           r.Passwords(u) == s.Passwords(u) + if u in s.usernames && p !in s.Passwords(u) then [p] else []
    case OpPrependUser(u) =>
      && r.usernames == [u] + Without(s.usernames, {u}) && r.credentials.Keys == s.credentials.Keys + {u}
      && forall v :: r.Passwords(v) == s.Passwords(v)
    case OpPrependPassword(u, p) => OnlyPasswords(s, r, u, [p] + Without(s.Passwords(u), {p}))
    case OpCollapse =>
      r.usernames == [""] && r.credentials == map["" := Dedup(AllPasswords(s, s.usernames))]
  }

  lemma OneMore(known: seq<string>, passwords: seq<string>)
    requires passwords != []
    ensures var init, last := passwords[..|passwords| - 1], passwords[|passwords| - 1];
            Dedup(known + passwords) == AppendNew(Dedup(known + init), last)
  {
    var init, last := passwords[..|passwords| - 1], passwords[|passwords| - 1];
    DedupSnoc(known + init, last);
    assert known + passwords == known + init + [last];
  }

  lemma NoneGiven(known: seq<string>)
    requires Distinct(known)
    ensures Dedup(known + []) == known
  {
    DistinctIsDedup(known);
    assert known + [] == known;
  }

  lemma {:induction false} GivenPasswords(s: Store, user: string, passwords: seq<string>)
    requires s.Ok() && passwords != []
    ensures OnlyPasswords(s, AddPasswordsForUser(s, user, passwords), user, Dedup(s.Passwords(user) + passwords))
  {
    var init, last := passwords[..|passwords| - 1], passwords[|passwords| - 1];
    OneMore(s.Passwords(user), passwords);
    if init == [] {
      NoneGiven(s.Passwords(user));
      assert AddPasswordsForUser(s, user, init) == s;
    } else {
      GivenPasswords(s, user, init);
    }
  }

  lemma {:induction false} PasswordForUsers(s: Store, users: seq<string>, password: string)
    requires s.Ok() && Distinct(users) && forall u :: u in users ==> u in s.usernames
    ensures var r := AddPasswordForUsers(s, users, password);
            && r.usernames == s.usernames && r.credentials.Keys == s.credentials.Keys
            && forall u ::
                 r.Passwords(u) == s.Passwords(u) + if u in users && password !in s.Passwords(u) then [password] else []
  {
    if users == [] {
    } else {
      var init, last := users[..|users| - 1], users[|users| - 1];
      assert users == init + [last];
      PasswordForUsers(s, init, password);
    }
  }

  /** Every operation does what its name says, to the order of the lists. */
  lemma ApplyMeans(s: Store, op: Op)
    requires s.Ok()
    ensures Does(s, op, Apply(s, op))
  {
    match op
    case OpAddPasswordsForUser(u, ps) =>
      if ps != [] {
        GivenPasswords(s, u, ps);
      }
    case OpAddPassword(p) => PasswordForUsers(s, s.usernames, p);
    case OpPrependUser(u) =>
      MoveToFrontIsWithout(s.usernames, u);
      if u !in s.usernames {
        WithoutNothing(s.usernames, {u});
      }
    case OpPrependPassword(u, p) => MoveToFrontIsWithout(s.Passwords(u), p);
    case _ =>
  }

  /** The passwords of a list of users are those of each user in turn. */
  lemma {:induction false} AllPasswordsInTurn(s: Store, a: seq<string>, user: string, b: seq<string>)
    ensures AllPasswords(s, []) == [] && AllPasswords(s, [user]) == s.Passwords(user)
    ensures AllPasswords(s, a + b) == AllPasswords(s, a) + AllPasswords(s, b)
  {
    assert [user][..0] == [];
    assert AllPasswords(s, []) == [];
    if b == [] {
      assert a + b == a;
    } else {
      var init, last := b[..|b| - 1], b[|b| - 1];
      assert (a + b)[..|a + b| - 1] == a + init;
      AllPasswordsInTurn(s, a, user, init);
    }
  }
}
