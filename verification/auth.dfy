/**
 The authentication engine: `try_login` and the administrator's
 `reset_attempts`, as pure steps over the stores.

 The password, the session role and the session name come from the merged
 view, where a role store overrides the `users` mirror; only the blocked flag
 and the failure counter come from the mirror.
 */
module Auth {
  import opened Directory

  /** What a successful login puts into the browser session. */
  datatype Session = Session(username: string, role: Role, name: string)

  datatype LoginOutcome =
    | Granted(session: Session)
    /** "User not found." */
    | UnknownUser
    /** The mirror was already blocked; nothing was compared. */
    | AccountBlocked
    /** This failure was the third: the account is now blocked. */
    | LockedOut
    /** A wrong password that left `remaining` attempts. */
    | InvalidCredentials(remaining: nat)

  datatype LoginStep = LoginStep(stores: Stores, outcome: LoginOutcome)

  /** The mirror materialised for an account seen for the first time. */
  function FreshMirror(v: View, u: string): (m: Mirror)
    ensures m.password == v.password && m.role == v.role
    ensures m.attempts == 0 && !m.blocked
    ensures v.name.None? ==> m.name == u
  {
    Mirror(v.password, v.role, 0, false, DisplayName(v, u))
  }

  /** The mirror a login attempt reads: the stored one, or the fresh one for a
      username that only a role store knows. */
  function MirrorBefore(s: Stores, u: string): Mirror
    requires Resolve(s, u).Some?
  {
    if u in s.users then s.users[u] else FreshMirror(Resolve(s, u).value, u)
  }

  /** One login attempt of username `u` with password `p`: the stores after it
      and what the user is told. */
  function Login(s: Stores, u: string, p: string): (r: LoginStep)
    // a username no store holds is rejected and nothing changes
    ensures (u !in s.users && u !in s.lecturers && u !in s.examPersonnel) ==> r == LoginStep(s, UnknownUser)
    // a login only ever writes the mirror of `u`
    ensures r.stores.lecturers == s.lecturers && r.stores.examPersonnel == s.examPersonnel
    ensures r.stores.users - {u} == s.users - {u}
    // every known account has a mirror afterwards; one that only a role store
    // knew gets that record's password and role and the username as its name
    ensures Resolve(s, u).Some? ==> u in r.stores.users
    ensures (u !in s.users && (u in s.lecturers || u in s.examPersonnel)) ==>
      && r.stores.users[u].password == Resolve(s, u).value.password
      && r.stores.users[u].role == Resolve(s, u).value.role
      && r.stores.users[u].name == u
    // a blocked mirror rejects every password and nothing changes
    ensures (u in s.users && s.users[u].blocked) ==> r == LoginStep(s, AccountBlocked)
    // access is granted exactly for an unblocked account and the password of
    // the record that wins the merge
    ensures r.outcome.Granted? <==>
      Resolve(s, u).Some? && !MirrorBefore(s, u).blocked && p == Resolve(s, u).value.password
    ensures r.outcome.Granted? ==>
      && r.outcome.session.username == u
      && r.outcome.session.role == Resolve(s, u).value.role
      && r.outcome.session.name == DisplayName(Resolve(s, u).value, u)
      && r.stores.users[u] == MirrorBefore(s, u).(attempts := 0, blocked := false)
    // a wrong password on an unblocked account adds one failure, and the
    // third failure blocks
    ensures (Resolve(s, u).Some? && !MirrorBefore(s, u).blocked && p != Resolve(s, u).value.password) ==>
      var m := MirrorBefore(s, u);
      var n := m.attempts + 1;
      && r.stores.users[u] == m.(attempts := n, blocked := n >= MaxAttempts)
      && r.outcome == (if n >= MaxAttempts then LockedOut else InvalidCredentials(MaxAttempts - n))
    ensures Wellformed(s) ==> Wellformed(r.stores)
  {
    match Resolve(s, u)
    case None => LoginStep(s, UnknownUser)
    case Some(record) =>
      var s1 := if u in s.users then s else s.(users := s.users[u := FreshMirror(record, u)]);
      var mirror := s1.users[u];
      if mirror.blocked then
        LoginStep(s1, AccountBlocked)
      else if p == record.password then
        var session := Session(u, record.role, DisplayName(record, u));
        LoginStep(s1.(users := s1.users[u := mirror.(attempts := 0, blocked := false)]), Granted(session))
      else
        var n := mirror.attempts + 1;
        var s2 := s1.(users := s1.users[u := mirror.(attempts := n, blocked := n >= MaxAttempts)]);
        LoginStep(s2, if n >= MaxAttempts then LockedOut else InvalidCredentials(MaxAttempts - n))
  }

  /** A login never changes what any username resolves to: it writes only the
      failure counter and the blocked flag, or adds a mirror for a username a
      role store already overrides. */
  lemma LoginKeepsResolve(s: Stores, u: string, p: string, x: string)
    ensures Resolve(Login(s, u, p).stores, x) == Resolve(s, x)
  {
  }

  /** `reset_attempts(u)`: clears the failure counter and the blocked flag of
      the mirror of `u`, if there is one. */
  function ResetAttempts(s: Stores, u: string): (r: Stores)
    ensures u !in s.users ==> r == s
    ensures u in s.users ==> u in r.users && r.users[u] == s.users[u].(attempts := 0, blocked := false)
    ensures r.users.Keys == s.users.Keys
    ensures r.users - {u} == s.users - {u}
    ensures r.lecturers == s.lecturers && r.examPersonnel == s.examPersonnel
    ensures Wellformed(s) ==> Wellformed(r)
  {
    if u in s.users then
      s.(users := s.users[u := s.users[u].(attempts := 0, blocked := false)])
    else
      s
  }

  /** Resetting twice is resetting once. */
  lemma ResetIdempotent(s: Stores, u: string)
    ensures ResetAttempts(ResetAttempts(s, u), u) == ResetAttempts(s, u)
  {
  }

  /** After a reset the mirror's password is accepted again, however many
      failures came before. */
  lemma ResetUnblocks(s: Stores, u: string)
    requires u in s.users
    ensures var r := ResetAttempts(s, u);
            Login(r, u, Resolve(r, u).value.password).outcome.Granted?
  {
  }
}
