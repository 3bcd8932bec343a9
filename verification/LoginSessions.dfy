/** Login sessions in Redis: a session key names its user, and a link per user names the session.  Logging in
    and logging out are one script each; signing up is a row in MySQL and then two separate commands. */
module LoginSessions {

  type User = int
  type Sess = nat

  datatype Store = Store(sessions: map<Sess, User>, current: map<User, Sess>)

  // ---- The scripts ----

  /** The new session takes the place of the one the link names. */
  function LogIn(st: Store, user: User, s: Sess): Store {
    var kept := if user in st.current then st.sessions - {st.current[user]} else st.sessions;
    Store(kept[s := user], st.current[user := s])
  }

  /** The link goes only if it still names this session. */
  function LogOut(st: Store, s: Sess): Store {
    if s !in st.sessions then st
    else
      var user := st.sessions[s];
      Store(st.sessions - {s}, if user in st.current && st.current[user] == s then st.current - {user} else st.current)
  }

  // ---- The protocol ----

  /** How far a sign-up has come: its row is there, or its session hash is there as well. */
  datatype SignUp = Inserted | Hashed(s: Sess)

  /** users are the rows of the table, used the session keys handed out so far. */
  datatype State = State(store: Store, users: set<User>, signing: map<User, SignUp>, used: set<Sess>)

  datatype Action =
    | Insert(user: User)
    | Hash(user: User, s: Sess)
    | Link(user: User)
    | Login(user: User, s: Sess)
    | Logout(s: Sess)
    | ExpireSession(s: Sess)
    | ExpireLink(user: User)

  /** An action that is not possible leaves the state alone.  Session keys are new UUIDs; the scripts set and
      refresh both keys' times together, so a link does not expire before its session. */
  function Next(m: State, a: Action): State {
    match a
    case Insert(user) =>
        if user in m.users then m else m.(users := m.users + {user}, signing := m.signing[user := Inserted])
    case Hash(user, s) =>
      if user !in m.signing || !m.signing[user].Inserted? || s in m.used then m
      else m.(store := m.store.(sessions := m.store.sessions[s := user]), signing := m.signing[user := Hashed(s)],
          used := m.used + {s})
    case Link(user) =>
      if user !in m.signing || !m.signing[user].Hashed? then m
      else m.(store := m.store.(current := m.store.current[user := m.signing[user].s]), signing := m.signing - {user})
    case Login(user, s) =>
      if user !in m.users || s in m.used then m
      else m.(store := LogIn(m.store, user, s), used := m.used + {s})
    case Logout(s) => m.(store := LogOut(m.store, s))
    case ExpireSession(s) => m.(store := m.store.(sessions := m.store.sessions - {s}))
    case ExpireLink(user) =>
      if user in m.store.current && m.store.current[user] in m.store.sessions then m
      else m.(store := m.store.(current := m.store.current - {user}))
  }

  const START := State(Store(map[], map[]), {}, map[], {})

  function After(m: State, actions: seq<Action>): State {
    if actions == [] then m else Next(After(m, actions[..|actions| - 1]), actions[|actions| - 1])
  }

  /** Nobody logs in between the row of their sign-up and its link. */
  predicate WaitsForSignUp(m: State, a: Action) { a.Login? ==> a.user !in m.signing }

  predicate Patient(m: State, actions: seq<Action>) {
    actions == [] ||
    (Patient(m, actions[..|actions| - 1]) && WaitsForSignUp(After(m, actions[..|actions| - 1]), actions[|actions| - 1]))
  }

  // ---- One live session each ----

  ghost predicate OneEach(m: State) {
    forall s, t | s in m.store.sessions && t in m.store.sessions && s != t :: m.store.sessions[s] != m.store.sessions[t]
  }

  /** The session stands behind its user's link, or is that of a sign-up not yet finished. */
  predicate Known(m: State, s: Sess)
    requires s in m.store.sessions
  {
    var user := m.store.sessions[s];
    (user in m.store.current && m.store.current[user] == s) || (user in m.signing && m.signing[user] == Hashed(s))
  }

  ghost predicate Ok(m: State) {
    && (forall s <- m.store.sessions :: Known(m, s))
    && m.store.sessions.Keys <= m.used && (forall user <- m.store.current :: m.store.current[user] in m.used)
    && (forall user <- m.signing ::
      user in m.users && user !in m.store.current && (m.signing[user].Hashed? ==> m.signing[user].s in m.used))
    && (forall user <- m.signing | m.signing[user].Hashed? && m.signing[user].s in m.store.sessions ::
      m.store.sessions[m.signing[user].s] == user)
    && (forall user <- m.store.current :: user in m.users)
  }

  lemma OkIsOneEach(m: State)
    requires Ok(m)
    ensures OneEach(m)
  {
    forall s, t | s in m.store.sessions && t in m.store.sessions && m.store.sessions[s] == m.store.sessions[t]
      ensures s == t
    {
      assert Known(m, s) && Known(m, t);
    }
  }

  lemma StepKeeps(m: State, a: Action)
    requires Ok(m) && WaitsForSignUp(m, a)
    ensures Ok(Next(m, a))
  {
    var m' := Next(m, a);
    forall s <- m'.store.sessions ensures Known(m', s) {
      if s in m.store.sessions { assert Known(m, s); }
    }
  }

  lemma {:induction false} RunOk(actions: seq<Action>)
    requires Patient(START, actions)
    ensures Ok(After(START, actions))
  {
    if actions != [] {
      RunOk(actions[..|actions| - 1]);
      StepKeeps(After(START, actions[..|actions| - 1]), actions[|actions| - 1]);
    }
  }

  /** In every run in which nobody logs in during their own sign-up, a user has at most one live session; and a
      login leaves the user with the new one alone. */
  lemma OneSessionEach(actions: seq<Action>, user: User, s: Sess)
    requires Patient(START, actions)
    ensures OneEach(After(START, actions))
    ensures var m := After(START, actions);
      user in m.users && user !in m.signing && s !in m.used ==>
        forall t <- Next(m, Login(user, s)).store.sessions | Next(m, Login(user, s)).store.sessions[t] == user :: t == s
  {
    var m := After(START, actions);
    RunOk(actions);
    OkIsOneEach(m);
    if user !in m.signing {
      StepKeeps(m, Login(user, s));
      OkIsOneEach(Next(m, Login(user, s)));
    }
  }

  /** A logout ends its session and nobody else's; it takes away the link that names the session, and a link that
      names another session stays. */
  lemma LogoutEffect(m: State, s: Sess)
    ensures var t := Next(m, Logout(s));
      && t == m.(store := t.store)
      && (forall x: Sess :: x in t.store.sessions <==> x in m.store.sessions && x != s)
      && (forall x <- t.store.sessions :: t.store.sessions[x] == m.store.sessions[x])
      && (forall u: User :: u in t.store.current <==>
        u in m.store.current && !(s in m.store.sessions && m.store.sessions[s] == u && m.store.current[u] == s))
      && (forall u <- t.store.current :: t.store.current[u] == m.store.current[u])
  {}

  /** A login opens its session and links it, ends the session the user's link named, and touches no other user's. */
  lemma LoginEffect(m: State, user: User, s: Sess)
    requires user in m.users && s !in m.used && m.store.sessions.Keys <= m.used
    ensures var t := Next(m, Login(user, s));
      && t == m.(store := t.store, used := t.used)
      && s in t.store.sessions && t.store.sessions[s] == user && user in t.store.current && t.store.current[user] == s
      && (forall x: Sess | x != s :: x in t.store.sessions <==>
        x in m.store.sessions && !(user in m.store.current && m.store.current[user] == x))
      && (forall x <- t.store.sessions | x != s :: t.store.sessions[x] == m.store.sessions[x])
      && (forall u: User | u != user :: u in t.store.current <==> u in m.store.current)
      && (forall u <- m.store.current | u != user :: t.store.current[u] == m.store.current[u])
  {
    var t := Next(m, Login(user, s));
    if user in m.store.current && m.store.current[user] == s { assert s !in m.store.sessions; }
  }

  // ---- Exactly when that fails ----

  /** The step gives a user a second live session: a login while a live session of the user is not the one the
      link names, which it therefore does not take over, or the hash of a sign-up while the user has any. */
  ghost predicate Doubles(m: State, a: Action) {
    match a
    case Login(user, s) =>
      && user in m.users && s !in m.used
      && exists t <- m.store.sessions ::
           m.store.sessions[t] == user && !(user in m.store.current && m.store.current[user] == t)
    case Hash(user, s) =>
      && user in m.signing && m.signing[user].Inserted? && s !in m.used
      && exists t <- m.store.sessions :: m.store.sessions[t] == user
    case _ => false
  }

  /** Whatever the links and the sign-ups under way. */
  lemma DoublesIff(m: State, a: Action)
    requires OneEach(m) && m.store.sessions.Keys <= m.used
    ensures OneEach(Next(m, a)) <==> !Doubles(m, a)
  {
    var m' := Next(m, a);
    if Doubles(m, a) {
      var t :| t in m.store.sessions && m.store.sessions[t] == a.user && t in m'.store.sessions;
      assert a.s in m'.store.sessions && t != a.s && m'.store.sessions[t] == m'.store.sessions[a.s];
    }
  }

  lemma {:induction false} KeysAreUsed(actions: seq<Action>)
    ensures After(START, actions).store.sessions.Keys <= After(START, actions).used
  {
    if actions != [] { KeysAreUsed(actions[..|actions| - 1]); }
  }

  ghost predicate AlwaysOneEach(actions: seq<Action>) {
    forall k | 0 <= k <= |actions| :: OneEach(After(START, actions[..k]))
  }

  ghost predicate NeverDoubles(actions: seq<Action>) {
    forall k | 0 <= k < |actions| :: !Doubles(After(START, actions[..k]), actions[k])
  }

  lemma AlwaysLast(actions: seq<Action>, n: nat)
    requires |actions| == n + 1
    ensures AlwaysOneEach(actions) <==> AlwaysOneEach(actions[..n]) && OneEach(After(START, actions))
    ensures NeverDoubles(actions) <==> NeverDoubles(actions[..n]) && !Doubles(After(START, actions[..n]), actions[n])
  {
    assert actions[..n + 1] == actions;
    forall k | 0 <= k <= n ensures actions[..n][..k] == actions[..k] {}
    forall k | 0 <= k < n ensures actions[..n][k] == actions[k] {}
  }

  /** Over any run, nobody ever has two live sessions if and only if no step gives anybody a second one. */
  lemma {:induction false} OneSessionEachIff(actions: seq<Action>)
    ensures AlwaysOneEach(actions) <==> NeverDoubles(actions)
  {
    if actions == [] {
      assert actions[..0] == [];
    } else {
      var n := |actions| - 1;
      var init := actions[..n];
      OneSessionEachIff(init);
      AlwaysLast(actions, n);
      KeysAreUsed(init);
      assert init[..n] == init;
      if AlwaysOneEach(init) {
        assert OneEach(After(START, init[..n]));
        DoublesIff(After(START, init), actions[n]);
      }
    }
  }

  // ---- It happens ----

  lemma LastStep(actions: seq<Action>, a: Action)
    ensures After(START, actions + [a]) == Next(After(START, actions), a)
  {
    assert (actions + [a])[..|actions + [a]| - 1] == actions;
  }

  function Five(a: Action, b: Action, c: Action, d: Action, e: Action): seq<Action> { [a] + [b] + [c] + [d] + [e] }

  lemma FiveSteps(a: Action, b: Action, c: Action, d: Action, e: Action)
    ensures After(START, Five(a, b, c, d, e)) == Next(Next(Next(Next(Next(START, a), b), c), d), e)
  {
    assert [] + [a] == [a];
    LastStep([], a);
    LastStep([a], b);
    LastStep([a] + [b], c);
    LastStep([a] + [b] + [c], d);
    LastStep([a] + [b] + [c] + [d], e);
  }

  /** Once the sign-up's link is set, the next login takes over the sign-up's session and not the other one. */
  lemma LoginMisses(m: State, other: Sess, signed: Sess)
    requires m.store == Store(map[other := 7, signed := 7], map[7 := other]) && other != signed && 2 !in {other, signed}
    requires 7 in m.users && 2 !in m.used && 7 in m.signing && m.signing[7] == Hashed(signed)
    ensures Next(Next(m, Link(7)), Login(7, 2)).store == Store(map[other := 7, 2 := 7], map[7 := 2])
  {}

  /** A login between the two commands of a sign-up leaves a session that no later login takes over. */
  lemma SignUpRace()
    ensures After(START, Five(Insert(7), Hash(7, 0), Login(7, 1), Link(7), Login(7, 2))).store
      == Store(map[1 := 7, 2 := 7], map[7 := 2])
  {
    FiveSteps(Insert(7), Hash(7, 0), Login(7, 1), Link(7), Login(7, 2));
    var m := Next(Next(Next(START, Insert(7)), Hash(7, 0)), Login(7, 1));
    assert m.store == Store(map[1 := 7, 0 := 7], map[7 := 1]);
    LoginMisses(m, 1, 0);
  }

  /** So does a login between the row and the first command. */
  lemma SignUpRaceBeforeHash()
    ensures After(START, Five(Insert(7), Login(7, 0), Hash(7, 1), Link(7), Login(7, 2))).store
      == Store(map[0 := 7, 2 := 7], map[7 := 2])
  {
    FiveSteps(Insert(7), Login(7, 0), Hash(7, 1), Link(7), Login(7, 2));
    var m := Next(Next(Next(START, Insert(7)), Login(7, 0)), Hash(7, 1));
    assert m.store == Store(map[0 := 7, 1 := 7], map[7 := 0]);
    LoginMisses(m, 0, 1);
  }

  /** The sign-up's session is gone, but its link is still to be set. */
  lemma LinkNamesTheDead(m: State)
    requires m.store == Store(map[], map[]) && m.users == {7} && m.signing == map[7 := Hashed(0)] && m.used == {0}
    ensures Next(Next(m, Login(7, 1)), Link(7)).store == Store(map[1 := 7], map[7 := 0])
    ensures Next(Next(Next(m, Login(7, 1)), Link(7)), Login(7, 2)).store == Store(map[1 := 7, 2 := 7], map[7 := 2])
  {
    var linked := Next(Next(m, Login(7, 1)), Link(7));
    assert linked.store == Store(map[1 := 7], map[7 := 0]) && linked.used == {0, 1};
  }

  /** And one whose sign-up session had expired in between: the link then names the dead session. */
  lemma SignUpRaceAfterExpiry()
    ensures After(START, Five(Insert(7), Hash(7, 0), ExpireSession(0), Login(7, 1), Link(7)) + [Login(7, 2)]).store
      == Store(map[1 := 7, 2 := 7], map[7 := 2])
  {
    var actions := Five(Insert(7), Hash(7, 0), ExpireSession(0), Login(7, 1), Link(7));
    FiveSteps(Insert(7), Hash(7, 0), ExpireSession(0), Login(7, 1), Link(7));
    LastStep(actions, Login(7, 2));
    var m := Next(Next(Next(START, Insert(7)), Hash(7, 0)), ExpireSession(0));
    assert m.store.sessions == map[];
    LinkNamesTheDead(m);
  }
}
