/**
 The account mutations of the three dashboards: adding and deleting
 lecturers and exam personnel (administrator), setting a password
 (administrator, or an account holder for their own account), and renaming
 one's own account. Each writes the role store and the `users` mirror.
 */
module Accounts {
  import opened Text
  import opened Directory
  import opened Auth

  function ProfileName(profile: Profile): string {
    match profile
    case LecturerProfile(name, _, _) => name
    case PersonnelProfile(name, _) => name
  }

  datatype AddOutcome =
    | Added
    /** "Username and password are required." */
    | MissingCredentials
    /** "Username already exists." (in the same role store) */
    | UsernameTaken

  datatype AddStep = AddStep(stores: Stores, outcome: AddOutcome)

  /** The add-account form of a role store: the role record, then a fresh
      mirror in `users` named after the profile, or after the username when
      the profile's name is empty. Only the role store itself is checked for
      the username, so an existing mirror of that name is replaced. */
  function AddAccount(s: Stores, k: StoreKind, u: string, p: string, profile: Profile): (r: AddStep)
    ensures r.outcome == MissingCredentials <==> IsBlank(u) || IsBlank(p)
    ensures r.outcome == UsernameTaken <==> !IsBlank(u) && !IsBlank(p) && u in RoleStore(s, k)
    ensures !r.outcome.Added? ==> r.stores == s
    ensures r.outcome.Added? ==>
      && RoleStore(r.stores, k) == RoleStore(s, k)[u := RoleRecord(p, RoleOf(k), profile)]
      && r.stores.users == s.users[u := Mirror(p, RoleOf(k), 0, false, OrElse(ProfileName(profile), u))]
      && RoleStore(r.stores, Other(k)) == RoleStore(s, Other(k))
    ensures Wellformed(s) ==> Wellformed(r.stores)
  {
    if IsBlank(u) || IsBlank(p) then
      AddStep(s, MissingCredentials)
    else if u in RoleStore(s, k) then
      AddStep(s, UsernameTaken)
    else
      var s1 := WithRoleStore(s, k, RoleStore(s, k)[u := RoleRecord(p, RoleOf(k), profile)]);
      var mirror := Mirror(p, RoleOf(k), 0, false, OrElse(ProfileName(profile), u));
      AddStep(s1.(users := s1.users[u := mirror]), Added)
  }

  /** "Add Lecturer" */
  function AddLecturer(s: Stores, u: string, p: string, name: string, address: string, phone: string): (r: AddStep)
    ensures r.outcome.Added? <==> !IsBlank(u) && !IsBlank(p) && u !in s.lecturers
    ensures r.outcome.Added? ==>
      && r.stores.lecturers == s.lecturers[u := RoleRecord(p, Lecturer, LecturerProfile(name, address, phone))]
      && r.stores.users == s.users[u := Mirror(p, Lecturer, 0, false, if name == "" then u else name)]
      && r.stores.examPersonnel == s.examPersonnel
    ensures !r.outcome.Added? ==> r.stores == s
  {
    AddAccount(s, LecturerStore, u, p, LecturerProfile(name, address, phone))
  }

  /** "Add Exam Personnel" */
  function AddExamPersonnel(s: Stores, u: string, p: string, name: string, phone: string): (r: AddStep)
    ensures r.outcome.Added? <==> !IsBlank(u) && !IsBlank(p) && u !in s.examPersonnel
    ensures r.outcome.Added? ==>
      && r.stores.examPersonnel == s.examPersonnel[u := RoleRecord(p, ExamPersonnel, PersonnelProfile(name, phone))]
      && r.stores.users == s.users[u := Mirror(p, ExamPersonnel, 0, false, if name == "" then u else name)]
      && r.stores.lecturers == s.lecturers
    ensures !r.outcome.Added? ==> r.stores == s
  {
    AddAccount(s, PersonnelStore, u, p, PersonnelProfile(name, phone))
  }

  /** A freshly added account logs in with its password. The session is named
      after the username, since a role record has no top-level name. */
  lemma AddThenLogin(s: Stores, k: StoreKind, u: string, p: string, profile: Profile)
    requires AddAccount(s, k, u, p, profile).outcome.Added?
    requires k == PersonnelStore || u !in s.examPersonnel
    ensures Login(AddAccount(s, k, u, p, profile).stores, u, p).outcome
         == Granted(Session(u, RoleOf(k), u))
  {
  }

  datatype DeleteOutcome =
    | Deleted
    /** "Lecturer not found." / "User not found." */
    | NotFound

  datatype DeleteStep = DeleteStep(stores: Stores, outcome: DeleteOutcome)

  /** "Delete Lecturer" / "Delete Exam Personnel": a username of the role
      store is removed from it and from `users`; the other role store is not
      touched. */
  function DeleteAccount(s: Stores, k: StoreKind, u: string): (r: DeleteStep)
    ensures r.outcome == Deleted <==> u in RoleStore(s, k)
    ensures r.outcome == NotFound ==> r.stores == s
    ensures r.outcome == Deleted ==>
      && RoleStore(r.stores, k) == RoleStore(s, k) - {u}
      && r.stores.users == s.users - {u}
      && RoleStore(r.stores, Other(k)) == RoleStore(s, Other(k))
    ensures Wellformed(s) ==> Wellformed(r.stores)
  {
    if u in RoleStore(s, k) then
      var s1 := WithRoleStore(s, k, RoleStore(s, k) - {u});
      DeleteStep(s1.(users := s1.users - {u}), Deleted)
    else
      DeleteStep(s, NotFound)
  }

  /** Deleting an account that was just added, under a username no store of
      that role nor `users` held, restores the stores exactly. */
  lemma DeleteUndoesAdd(s: Stores, k: StoreKind, u: string, p: string, profile: Profile)
    requires u !in s.users && u !in RoleStore(s, k)
    requires AddAccount(s, k, u, p, profile).outcome.Added?
    ensures DeleteAccount(AddAccount(s, k, u, p, profile).stores, k, u) == DeleteStep(s, Deleted)
  {
    var added := AddAccount(s, k, u, p, profile).stores;
    var r := DeleteAccount(added, k, u).stores;
    RemoveAdded(s.users, u, added.users[u]);
    RemoveAdded(RoleStore(s, k), u, RoleStore(added, k)[u]);
    match k
    case LecturerStore => assert r.lecturers == s.lecturers;
    case PersonnelStore => assert r.examPersonnel == s.examPersonnel;
  }

  /** Removing a key just added to a map that lacked it gives the map back. */
  lemma RemoveAdded<V>(m: map<string, V>, u: string, v: V)
    requires u !in m
    ensures m[u := v] - {u} == m
  {
  }

  /** A deleted account is unknown to login unless the other role store also
      holds its username. */
  lemma DeleteThenLogin(s: Stores, k: StoreKind, u: string, p: string)
    requires u in RoleStore(s, k) && u !in RoleStore(s, Other(k))
    ensures Login(DeleteAccount(s, k, u).stores, u, p) == LoginStep(DeleteAccount(s, k, u).stores, UnknownUser)
  {
  }

  /** "Update Password" on the administrator's user page: an empty password is
      ignored; otherwise every store that holds the username gets it. */
  function AdminSetPassword(s: Stores, u: string, pw: string): (r: Stores)
    ensures pw == "" ==> r == s
    ensures r.users.Keys == s.users.Keys && r.users - {u} == s.users - {u}
    ensures r.lecturers.Keys == s.lecturers.Keys && r.lecturers - {u} == s.lecturers - {u}
    ensures r.examPersonnel.Keys == s.examPersonnel.Keys && r.examPersonnel - {u} == s.examPersonnel - {u}
    ensures pw != "" && u in s.users ==> r.users[u] == s.users[u].(password := pw)
    ensures pw != "" && u in s.lecturers ==> r.lecturers[u] == s.lecturers[u].(password := pw)
    ensures pw != "" && u in s.examPersonnel ==> r.examPersonnel[u] == s.examPersonnel[u].(password := pw)
    ensures Wellformed(s) ==> Wellformed(r)
  {
    if pw == "" then
      s
    else
      var users := if u in s.users then s.users[u := s.users[u].(password := pw)] else s.users;
      var lecturers := if u in s.lecturers then s.lecturers[u := s.lecturers[u].(password := pw)] else s.lecturers;
      var personnel := if u in s.examPersonnel then s.examPersonnel[u := s.examPersonnel[u].(password := pw)] else s.examPersonnel;
      Stores(users, lecturers, personnel)
  }

  /** An administrator's password change takes effect on the next login,
      whichever store owns the account: the new password is accepted and any
      other one is refused. */
  lemma AdminPasswordTakesEffect(s: Stores, u: string, pw: string, other: string)
    requires pw != "" && other != pw
    requires u in s.users && !s.users[u].blocked
    ensures Login(AdminSetPassword(s, u, pw), u, pw).outcome.Granted?
    ensures !Login(AdminSetPassword(s, u, pw), u, other).outcome.Granted?
  {
  }

  /** "Update Password" on a lecturer's or exam personnel's own account page:
      the holder's role store and `users` get the new password, with no check
      that it is non-empty. */
  function ChangeOwnPassword(s: Stores, k: StoreKind, u: string, pw: string): (r: Stores)
    ensures RoleStore(r, k).Keys == RoleStore(s, k).Keys && RoleStore(r, k) - {u} == RoleStore(s, k) - {u}
    ensures u in RoleStore(s, k) ==> RoleStore(r, k)[u] == RoleStore(s, k)[u].(password := pw)
    ensures r.users.Keys == s.users.Keys && r.users - {u} == s.users - {u}
    ensures u in s.users ==> r.users[u] == s.users[u].(password := pw)
    ensures RoleStore(r, Other(k)) == RoleStore(s, Other(k))
    ensures Wellformed(s) ==> Wellformed(r)
  {
    var store := RoleStore(s, k);
    var s1 := if u in store then WithRoleStore(s, k, store[u := store[u].(password := pw)]) else s;
    if u in s1.users then s1.(users := s1.users[u := s1.users[u].(password := pw)]) else s1
  }

  /** A holder's own password change takes effect on the next login as long
      as no store that overrides theirs holds the same username: the new
      password is accepted and any other one refused. */
  lemma OwnPasswordTakesEffect(s: Stores, k: StoreKind, u: string, pw: string, other: string)
    requires u in s.users && !s.users[u].blocked && other != pw
    requires Owner(s, u) == Some(FromStore(k)) || Owner(s, u) == Some(FromUsers)
    ensures Login(ChangeOwnPassword(s, k, u, pw), u, pw).outcome.Granted?
    ensures !Login(ChangeOwnPassword(s, k, u, pw), u, other).outcome.Granted?
  {
  }

  /** `m` with the entry of `from` moved to `to`, as `m[to] = m.pop(from)`:
      without a check on `to`, an entry already there is replaced. */
  function MoveKey<V>(m: map<string, V>, from: string, to: string): (r: map<string, V>)
    ensures from !in m ==> r == m
    ensures from in m ==> to in r && r[to] == m[from] && r.Keys == m.Keys - {from} + {to}
    ensures forall x | x in m && x != from && x != to :: x in r && r[x] == m[x]
  {
    if from in m then (m - {from})[to := m[from]] else m
  }

  datatype RenameOutcome =
    /** "Enter a valid username." */
    | InvalidUsername
    /** The stores were migrated and the session ends: "Please log in again." */
    | LoggedOut

  datatype RenameStep = RenameStep(stores: Stores, outcome: RenameOutcome)

  /** "Update Username" on a lecturer's or exam personnel's own account page:
      a blank new name is refused; otherwise the holder's record moves to the
      new key in their role store and in `users`, unchanged, and the session
      ends. */
  function Rename(s: Stores, k: StoreKind, from: string, to: string): (r: RenameStep)
    ensures r.outcome == InvalidUsername <==> IsBlank(to)
    ensures r.outcome == InvalidUsername ==> r.stores == s
    ensures r.outcome == LoggedOut ==>
      && RoleStore(r.stores, k) == MoveKey(RoleStore(s, k), from, to)
      && r.stores.users == MoveKey(s.users, from, to)
      && RoleStore(r.stores, Other(k)) == RoleStore(s, Other(k))
  {
    if IsBlank(to) then
      RenameStep(s, InvalidUsername)
    else
      var s1 := WithRoleStore(s, k, MoveKey(RoleStore(s, k), from, to));
      RenameStep(s1.(users := MoveKey(s1.users, from, to)), LoggedOut)
  }

  /** A rename moves a mirror without changing it, so it keeps the lockout
      invariant. */
  lemma RenameKeepsWellformed(s: Stores, k: StoreKind, from: string, to: string)
    requires Wellformed(s)
    ensures Wellformed(Rename(s, k, from, to).stores)
  {
  }

  /** After a rename the old username is unknown and the new one logs in with
      the password the account had before, provided the other role store
      holds neither name in a way that overrides the move. */
  lemma RenameThenLogin(s: Stores, k: StoreKind, from: string, to: string, p: string)
    requires !IsBlank(to) && from != to
    requires from in RoleStore(s, k) && from in s.users && !s.users[from].blocked
    requires from !in RoleStore(s, Other(k))
    requires k == PersonnelStore || to !in s.examPersonnel
    ensures var r := Rename(s, k, from, to).stores;
            && Login(r, from, p) == LoginStep(r, UnknownUser)
            && Login(r, to, RoleStore(s, k)[from].password).outcome.Granted?
  {
  }

  /** Renaming onto a username that already has a mirror replaces that mirror:
      the account that held the name loses its password, role, failure
      counter and blocked flag to the renamed account's. */
  lemma RenameOverwritesTarget(s: Stores, k: StoreKind, from: string, to: string)
    requires !IsBlank(to) && from != to
    requires from in s.users && to in s.users
    ensures var r := Rename(s, k, from, to).stores;
            && r.users[to] == s.users[from]
            && from !in r.users
            && |r.users| == |s.users| - 1
  {
  }

  /** Renaming an account to its own name changes no store. */
  lemma RenameToSameName(s: Stores, k: StoreKind, u: string)
    requires !IsBlank(u)
    ensures Rename(s, k, u, u) == RenameStep(s, LoggedOut)
  {
  }

  /** A name that starts with a non-whitespace character is not blank. */
  lemma NotBlankIfStartsWithText(u: string)
    requires |u| > 0 && !IsSpace(u[0])
    ensures !IsBlank(u)
  {
  }

  /** On a fresh install, adding lecturer `bob` with password `pw1` lets `bob`
      log in as a lecturer. */
  lemma AddLecturerScenario(name: string, address: string, phone: string)
    ensures var added := AddLecturer(Initial(), "bob", "pw1", name, address, phone);
            && added.outcome == Added
            && Login(added.stores, "bob", "pw1").outcome == Granted(Session("bob", Lecturer, "bob"))
  {
    NotBlankIfStartsWithText("bob");
    NotBlankIfStartsWithText("pw1");
    AddThenLogin(Initial(), LecturerStore, "bob", "pw1", LecturerProfile(name, address, phone));
  }

  /** Continuing: after renaming `bob` to `bobby`, `bob` is unknown and
      `bobby` logs in with `pw1`. */
  lemma RenameLecturerScenario(name: string, address: string, phone: string)
    ensures var added := AddLecturer(Initial(), "bob", "pw1", name, address, phone);
            var renamed := Rename(added.stores, LecturerStore, "bob", "bobby");
            && renamed.outcome == LoggedOut
            && Login(renamed.stores, "bob", "pw1").outcome == UnknownUser
            && Login(renamed.stores, "bobby", "pw1").outcome.Granted?
  {
    NotBlankIfStartsWithText("bob");
    NotBlankIfStartsWithText("pw1");
    NotBlankIfStartsWithText("bobby");
    var added := AddAccount(Initial(), LecturerStore, "bob", "pw1", LecturerProfile(name, address, phone));
    assert "bob" in added.stores.users && !added.stores.users["bob"].blocked;
    assert added.stores.lecturers["bob"].password == "pw1";
    RenameThenLogin(added.stores, LecturerStore, "bob", "bobby", "pw1");
  }
}
