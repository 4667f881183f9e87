/**
 The three username-keyed account stores and the merged view that login reads.

 `users` holds the security mirror of every account (password, role, failed
 attempts, blocked flag, display name); `lecturers` and `exam_personnel` hold
 the role records (password, role, profile). Each store is a finite map from
 username to record; reading and writing the JSON files is left out.
 */
module Directory {

  /** A value that may be absent: a username no store holds, or a record
      without a `name` key. */
  datatype Option<+T> = None | Some(value: T)

  datatype Role = Admin | Lecturer | ExamPersonnel

  /** The role-specific payload of a role record; authentication never reads it. */
  datatype Profile =
    | LecturerProfile(name: string, address: string, contactNumber: string)
    | PersonnelProfile(name: string, contactNumber: string)

  /** A record of the `users` store. */
  datatype Mirror = Mirror(password: string, role: Role, attempts: nat, blocked: bool, name: string)

  /** A record of the `lecturers` or `exam_personnel` store. It carries no
      top-level name: the name lives inside the profile. */
  datatype RoleRecord = RoleRecord(password: string, role: Role, profile: Profile)

  datatype Stores = Stores(
    users: map<string, Mirror>,
    lecturers: map<string, RoleRecord>,
    examPersonnel: map<string, RoleRecord>)

  /** Which of the two role stores an operation works on. */
  datatype StoreKind = LecturerStore | PersonnelStore

  /** Number of failed logins that blocks an account. */
  const MaxAttempts: nat := 3

  function Other(k: StoreKind): (o: StoreKind)
    ensures o != k
  {
    match k
    case LecturerStore => PersonnelStore
    case PersonnelStore => LecturerStore
  }

  /** The role every record of the store `k` is created with. */
  function RoleOf(k: StoreKind): Role {
    match k
    case LecturerStore => Lecturer
    case PersonnelStore => ExamPersonnel
  }

  function RoleStore(s: Stores, k: StoreKind): map<string, RoleRecord> {
    match k
    case LecturerStore => s.lecturers
    case PersonnelStore => s.examPersonnel
  }

  /** `s` with the role store `k` replaced by `m`. */
  function WithRoleStore(s: Stores, k: StoreKind, m: map<string, RoleRecord>): (r: Stores)
    ensures RoleStore(r, k) == m
    ensures RoleStore(r, Other(k)) == RoleStore(s, Other(k))
    ensures r.users == s.users
  {
    match k
    case LecturerStore => s.(lecturers := m)
    case PersonnelStore => s.(examPersonnel := m)
  }

  /** The stores on first start: only the built-in administrator. */
  function Initial(): (s: Stores)
    ensures s.users.Keys == {"admin"}
    ensures s.users["admin"] == Mirror("admin123", Admin, 0, false, "Administrator")
    ensures s.lecturers == map[] && s.examPersonnel == map[]
    ensures Wellformed(s)
  {
    Stores(map["admin" := Mirror("admin123", Admin, 0, false, "Administrator")], map[], map[])
  }

  /** An entry of the merged dictionary `{**users, **lecturers, **exam_personnel}`:
      the fields login reads, and the `name` key if the record has one. */
  datatype View = View(password: string, role: Role, name: Option<string>)

  function MirrorView(m: Mirror): View {
    View(m.password, m.role, Some(m.name))
  }

  function RecordView(rec: RoleRecord): View {
    View(rec.password, rec.role, None)
  }

  /** The name a session or mirror gets: the record's own name if it has one,
      otherwise the username. */
  function DisplayName(v: View, u: string): (n: string)
    ensures v.name.None? ==> n == u
    ensures v.name.Some? ==> n == v.name.value
  {
    match v.name
    case Some(n) => n
    case None => u
  }

  /** The store whose record wins the merge for a username. */
  datatype Origin = FromUsers | FromStore(kind: StoreKind)

  /** Later stores override earlier ones: exam personnel over lecturers over users. */
  function Owner(s: Stores, u: string): Option<Origin> {
    if u in s.examPersonnel then Some(FromStore(PersonnelStore))
    else if u in s.lecturers then Some(FromStore(LecturerStore))
    else if u in s.users then Some(FromUsers)
    else None
  }

  /** The view of `u` as held by the store `o`. */
  function ViewAt(s: Stores, u: string, o: Origin): View
    requires o.FromUsers? ==> u in s.users
    requires o.FromStore? ==> u in RoleStore(s, o.kind)
  {
    match o
    case FromUsers => MirrorView(s.users[u])
    case FromStore(k) => RecordView(RoleStore(s, k)[u])
  }

  /** The entry login finds for `u`: the record of the store that owns it. */
  function Resolve(s: Stores, u: string): (r: Option<View>)
    ensures r.None? <==> u !in s.users && u !in s.lecturers && u !in s.examPersonnel
  {
    match Owner(s, u)
    case None => None
    case Some(o) => Some(ViewAt(s, u, o))
  }

  /** The merged dictionary `{**users, **lecturers, **exam_personnel}`, built
      as the source builds it: a union in which later maps win. */
  function MergedView(s: Stores): map<string, View> {
    (map u | u in s.users :: MirrorView(s.users[u]))
    + (map u | u in s.lecturers :: RecordView(s.lecturers[u]))
    + (map u | u in s.examPersonnel :: RecordView(s.examPersonnel[u]))
  }

  /** Looking `u` up by store precedence finds what the merged dictionary holds. */
  lemma ResolveAgreesWithMerge(s: Stores, u: string)
    ensures u in MergedView(s) <==> Resolve(s, u).Some?
    ensures u in MergedView(s) ==> MergedView(s)[u] == Resolve(s, u).value
  {
  }

  /** The account state login acts on. */
  datatype Status = Active(failures: nat) | Blocked

  /** The lockout state machine: `Active(0..2)` and `Blocked`, and a mirror is
      blocked exactly when it has three failures. */
  predicate Consistent(m: Mirror) {
    m.attempts <= MaxAttempts && (m.blocked <==> m.attempts == MaxAttempts)
  }

  function StatusOf(m: Mirror): (st: Status)
    requires Consistent(m)
    ensures st.Active? ==> st.failures < MaxAttempts
  {
    if m.blocked then Blocked else Active(m.attempts)
  }

  /** Every mirror is in a state of the lockout machine. */
  predicate Wellformed(s: Stores) {
    forall u | u in s.users :: Consistent(s.users[u])
  }
}
