/** The ordered credential store of common/credentialstore/credentialstore.go. */
module CredentialStores {
  import opened Sequences

  /** The value of a store: the listed usernames and the passwords known for each key. */
  datatype Store = Store(usernames: seq<string>, credentials: map<string, seq<string>>) {

    function Passwords(user: string): seq<string> {
      if user in credentials then credentials[user] else []
    }

    /** Every listed user has a key and no list repeats itself. A key need not be listed. */
    ghost predicate Ok() {
      && Distinct(usernames)
      && (forall u :: u in usernames ==> u in credentials)
      && (forall u :: u in credentials ==> Distinct(credentials[u]))
    }
  }

  function IndexOf(s: seq<string>, x: string): (i: int)
    ensures i == -1 <==> x !in s
    ensures i != -1 ==> 0 <= i < |s| && s[i] == x && x !in s[..i]
  {
    if s == [] then -1
    else if s[0] == x then 0
    else
      var rest := IndexOf(s[1..], x);
      assert s == [s[0]] + s[1..];
      if rest == -1 then -1
      else
        assert s[..rest + 1] == [s[0]] + s[1..][..rest];
        rest + 1
  }

  function DeleteAt(s: seq<string>, i: nat): seq<string>
    requires i < |s|
  {
    s[..i] + s[i + 1..]
  }

  /** `slices.Index`, then `slices.Delete` if found, then the element in front. */
  function MoveToFront(s: seq<string>, x: string): seq<string> {
    var i := IndexOf(s, x);
    [x] + if i == -1 then s else DeleteAt(s, i)
  }

  // ---------- The operations on values ----------

  function AddUser(s: Store, user: string): Store {
    if user in s.credentials then s
    else Store(s.usernames + [user], s.credentials[user := []])
  }

  function AddPasswordForUser(s: Store, user: string, password: string): Store {
    s.(credentials := s.credentials[user := AppendNew(s.Passwords(user), password)])
  }

  function AddPasswordsForUser(s: Store, user: string, passwords: seq<string>): Store {
    if passwords == [] then s
    else
      var last := |passwords| - 1;
      AddPasswordForUser(AddPasswordsForUser(s, user, passwords[..last]), user, passwords[last])
  }

  function AddPasswordForUsers(s: Store, users: seq<string>, password: string): Store {
    if users == [] then s
    else
      var last := |users| - 1;
      AddPasswordForUser(AddPasswordForUsers(s, users[..last], password), users[last], password)
  }

  function PrependUser(s: Store, user: string): Store {
    if user in s.credentials then s.(usernames := MoveToFront(s.usernames, user))
    else Store([user] + s.usernames, s.credentials[user := []])
  }

  function PrependPasswordForUser(s: Store, user: string, password: string): Store {
    s.(credentials := s.credentials[user := MoveToFront(s.Passwords(user), password)])
  }

  /** The passwords of `users`, user after user. */
  function AllPasswords(s: Store, users: seq<string>): seq<string> {
    if users == [] then []
    else
      var last := |users| - 1;
      AllPasswords(s, users[..last]) + s.Passwords(users[last])
  }

  lemma NextUser(s: Store, users: seq<string>, i: nat)
    requires i < |users|
    ensures AllPasswords(s, users[..i + 1]) == AllPasswords(s, users[..i]) + s.Passwords(users[i])
  {
    assert users[..i + 1][..i] == users[..i];
  }

  lemma NextPassword(before: seq<string>, listed: seq<string>, j: nat)
    requires j < |listed|
    ensures Dedup(before + listed[..j + 1]) == AppendNew(Dedup(before + listed[..j]), listed[j])
  {
    DedupSnoc(before + listed[..j], listed[j]);
    assert before + listed[..j + 1] == (before + listed[..j]) + [listed[j]];
  }

  function CollapseToPasswordOnly(s: Store): Store {
    Store([""], map["" := Dedup(AllPasswords(s, s.usernames))])
  }

  /** One call on the store. */
  datatype Op =
    | OpAddUser(user: string)
    | OpAddPasswordForUser(user: string, password: string)
    | OpAddPasswordsForUser(user: string, passwords: seq<string>)
    | OpAddPassword(password: string)
    | OpPrependUser(user: string)
    | OpPrependPassword(user: string, password: string)
    | OpCollapse

  function Apply(s: Store, op: Op): Store {
    match op
    case OpAddUser(u) => AddUser(s, u)
    case OpAddPasswordForUser(u, p) => AddPasswordForUser(s, u, p)
    case OpAddPasswordsForUser(u, ps) => AddPasswordsForUser(s, u, ps)
    case OpAddPassword(p) => AddPasswordForUsers(s, s.usernames, p)
    case OpPrependUser(u) => PrependUser(s, u)
    case OpPrependPassword(u, p) => PrependPasswordForUser(s, u, p)
    case OpCollapse => CollapseToPasswordOnly(s)
  }

  function Run(s: Store, ops: seq<Op>): Store {
    if ops == [] then s else Apply(Run(s, ops[..|ops| - 1]), ops[|ops| - 1])
  }

  // ---------- What every operation keeps ----------

  lemma MoveToFrontIsWithout(s: seq<string>, x: string)
    requires Distinct(s)
    ensures MoveToFront(s, x) == [x] + Without(s, {x})
    ensures Distinct(MoveToFront(s, x))
  {
    if x in s {
      WithoutAt(s, IndexOf(s, x));
    } else {
      WithoutNothing(s, {x});
    }
    WithoutDistinct(s, {x});
    WithoutElements(s, {x});
  }

  lemma {:induction false} AddPasswordsForUserOk(s: Store, user: string, passwords: seq<string>)
    requires s.Ok()
    ensures AddPasswordsForUser(s, user, passwords).Ok()
  {
    if passwords == [] {
    } else {
      AddPasswordsForUserOk(s, user, passwords[..|passwords| - 1]);
    }
  }

  lemma {:induction false} AddPasswordForUsersOk(s: Store, users: seq<string>, password: string)
    requires s.Ok()
    ensures AddPasswordForUsers(s, users, password).Ok()
    ensures AddPasswordForUsers(s, users, password).usernames == s.usernames
  {
    if users == [] {
    } else {
      AddPasswordForUsersOk(s, users[..|users| - 1], password);
    }
  }

  lemma ApplyOk(s: Store, op: Op)
    requires s.Ok()
    ensures Apply(s, op).Ok()
  {
    match op
    case OpAddUser(u) =>
    case OpAddPasswordForUser(u, p) =>
    case OpAddPasswordsForUser(u, ps) => AddPasswordsForUserOk(s, u, ps);
    case OpAddPassword(p) => AddPasswordForUsersOk(s, s.usernames, p);
    case OpPrependUser(u) =>
      MoveToFrontIsWithout(s.usernames, u);
      WithoutElements(s.usernames, {u});
    case OpPrependPassword(u, p) => MoveToFrontIsWithout(s.Passwords(u), p);
    case OpCollapse => DedupDistinct(AllPasswords(s, s.usernames));
  }

  /** No sequence of calls on a new store ever lists a user or a password twice. */
  lemma {:induction false} RunOk(ops: seq<Op>)
    ensures Run(Store([], map[]), ops).Ok()
  {
    if ops == [] {
    } else {
      RunOk(ops[..|ops| - 1]);
      ApplyOk(Run(Store([], map[]), ops[..|ops| - 1]), ops[|ops| - 1]);
    }
  }

  /** `AddPassword` reaches exactly the listed users; keys that are not listed keep their list. */
  lemma {:induction false} AddPasswordReaches(s: Store, users: seq<string>, password: string, user: string)
    requires Distinct(users)
    ensures AddPasswordForUsers(s, users, password).Passwords(user)
         == if user in users then AppendNew(s.Passwords(user), password) else s.Passwords(user)
  {
    if users == [] {
    } else {
      var last := |users| - 1;
      AddPasswordReaches(s, users[..last], password, user);
      AddPasswordReaches(s, users[..last], password, users[last]);
      assert users == users[..last] + [users[last]];
    }
  }

  /** A user already known only through `AddPasswordForUser` is never listed by `AddUser`. */
  lemma AddUserLists(s: Store, user: string)
    ensures user in AddUser(s, user).usernames <==> user in s.usernames || user !in s.credentials
    ensures !("root" in AddUser(AddPasswordForUser(Store([], map[]), "root", "toor"), "root").usernames)
  {
  }

  lemma {:induction false} AddPasswordsKeys(s: Store, user: string, passwords: seq<string>)
    ensures var r := AddPasswordsForUser(s, user, passwords);
            r.usernames == s.usernames && r.credentials.Keys >= s.credentials.Keys
  {
    if passwords == [] {
    } else {
      AddPasswordsKeys(s, user, passwords[..|passwords| - 1]);
    }
  }

  lemma {:induction false} AddPasswordKeys(s: Store, users: seq<string>, password: string)
    ensures var r := AddPasswordForUsers(s, users, password);
            r.usernames == s.usernames && r.credentials.Keys >= s.credentials.Keys
  {
    if users == [] {
    } else {
      AddPasswordKeys(s, users[..|users| - 1], password);
    }
  }

  /** Whatever is called short of a collapse, a user known but not listed gets listed exactly by a
      `PrependUser` of its own: no `AddUser` ever makes up for it. */
  lemma {:induction false} ListedOnlyByPrepending(s: Store, ops: seq<Op>, user: string)
    requires s.Ok() && user in s.credentials && user !in s.usernames && OpCollapse !in ops
    ensures Run(s, ops).Ok() && user in Run(s, ops).credentials
    ensures user in Run(s, ops).usernames <==> OpPrependUser(user) in ops
  {
    if ops == [] {
    } else {
      var init, op := ops[..|ops| - 1], ops[|ops| - 1];
      assert ops == init + [op];
      ListedOnlyByPrepending(s, init, user);
      var t := Run(s, init);
      ApplyOk(t, op);
      match op
      case OpAddPasswordsForUser(u, ps) => AddPasswordsKeys(t, u, ps);
      case OpAddPassword(p) => AddPasswordKeys(t, t.usernames, p);
      case OpPrependUser(u) =>
        MoveToFrontIsWithout(t.usernames, u);
        WithoutElements(t.usernames, {u});
      case _ =>
    }
  }

  lemma {:induction false} AllPasswordsMembers(s: Store, users: seq<string>, password: string)
    ensures password in AllPasswords(s, users) <==> exists u :: u in users && password in s.Passwords(u)
  {
    if users == [] {
    } else {
      var init, last := users[..|users| - 1], users[|users| - 1];
      assert users == init + [last];
      AllPasswordsMembers(s, init, password);
    }
  }

  /** Collapsing keeps exactly the passwords of the listed users, each once, under the empty name;
      what is known only for keys that are not listed is lost. */
  lemma CollapseKeeps(s: Store, password: string)
    ensures var r := CollapseToPasswordOnly(s);
            && r.usernames == [""] && r.credentials.Keys == {""} && Distinct(r.Passwords(""))
            && (password in r.Passwords("") <==> exists u :: u in s.usernames && password in s.Passwords(u))
  {
    AllPasswordsMembers(s, s.usernames, password);
    DedupElements(AllPasswords(s, s.usernames));
    DedupDistinct(AllPasswords(s, s.usernames));
  }

  ghost predicate KnownFor(s: Store, user: string, password: string) {
    user in s.credentials && password in s.credentials[user]
  }

  /** Every password known for some key is known for a listed user. */
  ghost predicate AllListed(s: Store) {
    forall u, p | KnownFor(s, u, p) :: exists v :: v in s.usernames && KnownFor(s, v, p)
  }

  /** Collapsing is promised to keep all credentials. It keeps every known password exactly when each
      of them is known for a listed user. */
  lemma CollapseKeepsAllIff(s: Store)
    ensures (forall u, p | KnownFor(s, u, p) :: p in CollapseToPasswordOnly(s).Passwords("")) <==> AllListed(s)
  {
    forall u, p | KnownFor(s, u, p)
      ensures p in CollapseToPasswordOnly(s).Passwords("") <==> exists v :: v in s.usernames && KnownFor(s, v, p)
    {
      CollapseKeeps(s, p);
      assert forall v :: KnownFor(s, v, p) <==> p in s.Passwords(v);
    }
  }

  /** A new store with one password added for a user that is not listed: collapsing loses it. */
  lemma CollapseLosesExample()
    ensures var s := Run(Store([], map[]), [OpAddPasswordForUser("root", "toor")]);
            KnownFor(s, "root", "toor") && "toor" !in CollapseToPasswordOnly(s).Passwords("")
  {
    var ops := [OpAddPasswordForUser("root", "toor")];
    assert ops[..0] == [];
    CollapseKeeps(Run(Store([], map[]), ops), "toor");
  }

  // ---------- The class ----------

  class CredentialStore {
    var usernames: seq<string>
    var credentials: map<string, seq<string>>

    function View(): Store
      reads this
    {
      Store(usernames, credentials)
    }

    ghost predicate Valid()
      reads this
    {
      View().Ok()
    }

    constructor ()
      ensures Valid() && View() == Store([], map[])
    {
      usernames := [];
      credentials := map[];
    }

    method Copy() returns (cp: CredentialStore)
      requires Valid()
      ensures fresh(cp) && cp.Valid() && cp.View() == View()
    {
      cp := new CredentialStore();
      cp.usernames := usernames;
      var left := credentials.Keys;
      while left != {}
        invariant left <= credentials.Keys
        invariant cp.usernames == usernames
        invariant cp.credentials == map u | u in credentials && u !in left :: credentials[u]
        decreases left
      {
        var user :| user in left;
        cp.credentials := cp.credentials[user := credentials[user]];
        left := left - {user};
      }
    }

    method AddPasswordForUser(user: string, password: string)
      requires Valid()
      modifies this
      ensures Valid() && View() == Apply(old(View()), OpAddPasswordForUser(user, password))
    {
      ApplyOk(View(), OpAddPasswordForUser(user, password));
      if user in credentials {
        var known := credentials[user];
        if password in known {
          assert credentials == credentials[user := known];
          return;
        }
      }
      credentials := credentials[user := (if user in credentials then credentials[user] else []) + [password]];
    }

    method AddMultiplePasswordsForUser(user: string, passwords: seq<string>)
      requires Valid()
      modifies this
      ensures Valid() && View() == Apply(old(View()), OpAddPasswordsForUser(user, passwords))
    {
      for i := 0 to |passwords|
        invariant Valid() && View() == AddPasswordsForUser(old(View()), user, passwords[..i])
      {
        AddPasswordForUser(user, passwords[i]);
        assert passwords[..i + 1][..i] == passwords[..i];
      }
      assert passwords[..|passwords|] == passwords;
    }

    method AddPassword(password: string)
      requires Valid()
      modifies this
      ensures Valid() && View() == Apply(old(View()), OpAddPassword(password))
    {
      for i := 0 to |usernames|
        invariant usernames == old(usernames)
        invariant Valid() && View() == AddPasswordForUsers(old(View()), usernames[..i], password)
      {
        var user := usernames[i];
        assert user in credentials;
        var known := credentials[user];
        assert usernames[..i + 1][..i] == usernames[..i];
        ApplyOk(View(), OpAddPasswordForUser(user, password));
        if password !in known {
          credentials := credentials[user := known + [password]];
        } else {
          assert credentials == credentials[user := known];
        }
      }
      assert usernames[..|usernames|] == usernames;
    }

    method AddUser(user: string)
      requires Valid()
      modifies this
      ensures Valid() && View() == Apply(old(View()), OpAddUser(user))
    {
      if user in credentials {
        return;
      }
      usernames := usernames + [user];
      credentials := credentials[user := []];
    }

    method PrependUser(user: string)
      requires Valid()
      modifies this
      ensures Valid() && View() == Apply(old(View()), OpPrependUser(user))
    {
      ApplyOk(View(), OpPrependUser(user));
      if user in credentials {
        var i := IndexOf(usernames, user);
        if i != -1 {
          usernames := DeleteAt(usernames, i);
        }
      } else {
        MoveToFrontIsWithout(usernames, user);
        credentials := credentials[user := []];
      }
      usernames := [user] + usernames;
    }

    method PrependPasswordForUser(user: string, password: string)
      requires Valid()
      modifies this
      ensures Valid() && View() == Apply(old(View()), OpPrependPassword(user, password))
    {
      ghost var was := View();
      if user in credentials {
        var known := credentials[user];
        var i := IndexOf(known, password);
        if i != -1 {
          credentials := credentials[user := DeleteAt(known, i)];
        }
        assert [password] + credentials[user] == MoveToFront(was.Passwords(user), password);
      }
      credentials := credentials[user := [password] + if user in credentials then credentials[user] else []];
      assert credentials == was.credentials[user := MoveToFront(was.Passwords(user), password)];
      ApplyOk(was, OpPrependPassword(user, password));
    }

    method CollapseToPasswordOnly()
      requires Valid()
      modifies this
      ensures Valid() && View() == Apply(old(View()), OpCollapse)
    {
      ghost var was := View();
      var passwords := [];
      for i := 0 to |usernames|
        modifies {}
        invariant passwords == Dedup(AllPasswords(was, usernames[..i]))
      {
        var listed := credentials[usernames[i]];
        ghost var before := AllPasswords(was, usernames[..i]);
        assert before + listed[..0] == before;
        for j := 0 to |listed|
          modifies {}
          invariant passwords == Dedup(before + listed[..j])
        {
          NextPassword(before, listed, j);
          if listed[j] !in passwords {
            passwords := passwords + [listed[j]];
          }
        }
        NextUser(was, usernames, i);
        assert before + listed[..|listed|] == before + listed;
      }
      assert usernames[..|usernames|] == usernames;
      ApplyOk(was, OpCollapse);
      usernames := [""];
      credentials := map["" := passwords];
    }
  }
}
