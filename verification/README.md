# Account directory and authentication engine of the exam management app

A Dafny model of the account core of `app.py`, a Streamlit app for managing
lecturers, exam personnel, subjects, question banks and exam papers.

The app keeps three username-keyed stores:

- `users` holds the security mirror of every account: password, role, failed
  attempts, blocked flag and display name.
- `lecturers` and `exam_personnel` hold the role records: password, role and
  profile.

The model keeps these as three finite maps in one `Stores` value. Each
operation is a pure step from stores and input to new stores and an outcome.

- `text.dfy` (`Text`): Python's `str.strip()` and the blank-field test of the
  forms, plus the `a or b` string fallback.
- `directory.dfy` (`Directory`): records, stores and the default stores. Also
  the merged dictionary `{**users, **lecturers, **exam_personnel}` that login
  reads, in which a role store overrides the mirror. Also the lockout
  invariant: a mirror has at most 3 failures and is blocked exactly when it
  has 3.
- `auth.dfy` (`Auth`): `try_login` and `reset_attempts`.
- `lockout.dfy` (`Lockout`): the lockout policy as a state machine
  (`Active(0..2)` and `Blocked`), and what sequences of login attempts do.
- `accounts.dfy` (`Accounts`): the account changes made from the dashboards.
  These are adding and deleting lecturers and exam personnel, the
  administrator's password change, an account holder's own password change,
  and an account holder's own rename.
- `papers.dfy` (`ExamPapers`): the capacity rule of exam-paper sections.
  Section A holds at most 5 questions and any other section at most 3.

Where the code's behaviour is surprising, the model follows the code:

- Login compares the password with the merged record, not with the mirror. A
  role store therefore overrides the mirror for the password, the session
  role and the session name. Only `blocked` and `attempts` come from the
  mirror (`app.py:142`, `app.py:160`, `app.py:164`).
- A role record has no top-level `name`. So the session of a lecturer or exam
  personnel account is named after its username, not after the profile name
  (`app.py:164`).
- Adding an account refuses a username only when the role store being added
  to already holds it ("Username already exists.", `app.py:255`). It does not
  look in `users`, so an existing mirror of that name is overwritten
  (`app.py:262`).
- A rename has no collision check and overwrites the target key
  (`app.py:575`, `app.py:579`). It moves the record only in the holder's own
  role store and in `users`, not in every store.
- An account holder's own password change writes the role store before the
  mirror and accepts an empty password. Only the administrator's path
  ignores an empty password (`app.py:223`, `app.py:555-564`).
- Deleting an account does not end a session of that account.

## Model

| member | source | states |
|---|---|---|
| Text.BlankIffAllSpace | app.py:253 | `s.strip() == ""` holds exactly when every character of `s` is Python whitespace, so the empty string is blank |
| Text.TrimStart | app.py:253 | `s.lstrip()`: the longest suffix of `s` not starting with whitespace; every character dropped is whitespace |
| Text.TrimEnd | app.py:253 | `s.rstrip()`: the longest prefix of `s` not ending with whitespace; every character dropped is whitespace |
| Text.Strip | app.py:253 | `s.strip()` as used by the forms at app.py:253, 302, 570 and 660: a contiguous slice of `s` with only whitespace dropped before and after it, starting and ending with a non-whitespace character unless empty |
| Text.OrElse | app.py:262 | `lname or lu` (and `ename or eu` at app.py:310): the first string when it is non-empty, the second when the first is empty, and empty exactly when both are |
| Directory.DisplayName | app.py:151 | `record.get("name", username)` (also app.py:164): the record's name when it has the key, the username otherwise |
| Directory.Initial | app.py:67-70 | The default stores hold only `admin`, whose mirror has password `admin123`, role admin, no failures, not blocked and name `Administrator`; the role stores are empty |
| Directory.Resolve | app.py:142-147 | A username resolves to nothing exactly when none of the three stores holds it |
| Directory.ResolveAgreesWithMerge | app.py:142 | Resolving by store precedence (exam personnel over lecturers over users) gives exactly the entry of the merged dictionary |
| Auth.FreshMirror | app.py:150-152 | The mirror made for a first-seen account copies the record's password and role, has 0 attempts, is not blocked, and is named after the username when the record has no name |
| Auth.Login | app.py:140-177 | An unknown user is rejected and nothing changes. A blocked mirror rejects every password and nothing changes. A first-seen role account gets a mirror. Access is granted exactly for an unblocked account and the merged record's password, and the session then has that username, role and name and the mirror is cleared. A wrong password adds one failure, blocks at the third and reports 3 − attempts left otherwise. Only the mirror of that username changes. The lockout invariant is kept |
| Auth.LoginKeepsResolve | app.py:148-176 | A login never changes what any username resolves to |
| Auth.ResetAttempts | app.py:133-138 | The mirror of the username gets 0 attempts and is unblocked, with password, role and name kept. No other entry changes, an unknown username changes nothing, and the lockout invariant is kept |
| Auth.ResetIdempotent | app.py:133-138 | Resetting twice gives the same stores as resetting once |
| Auth.ResetUnblocks | app.py:133-138 | After a reset the resolved password is accepted |
| Lockout.LoginFollowsPolicy | app.py:156-176 | Each login moves the account exactly as the lockout state machine does: blocked stays blocked, a success returns to 0 failures, and the third failure blocks |
| Lockout.LoginRun | app.py:140-177 | A run of login attempts on one username gives one outcome per attempt, changes no role store and no other mirror, keeps what the username resolves to, and keeps the lockout invariant |
| Lockout.WrongPasswordRun | app.py:168-177 | After k wrong passwords from a failures the account has min(a + k, 3) failures and is blocked exactly when a + k ≥ 3. Each attempt reports the attempts left, then the lockout, then that the account is blocked |
| Lockout.ThreeFailuresBlock | app.py:169-172 | Three wrong passwords from 0 failures block the account, reporting 2 left, 1 left, then the lockout |
| Lockout.BlockIsSticky | app.py:156-158 | A blocked account refuses every password, the right one included, and no store changes |
| Lockout.SuccessBeforeLockout | app.py:160-163 | After fewer than 3 failures the right password is accepted and clears the counter |
| Lockout.AdminLockoutScenario | app.py:68 | On the default stores `admin`/`admin123` is granted with the admin role and name Administrator. Three wrong passwords then block it even for `admin123`, and a reset lets `admin123` in again |
| Accounts.AddAccount | app.py:252-263 | A blank username or password is refused, a username already in that role store is refused, and a refusal changes nothing. Success writes the role record and a mirror with 0 attempts, not blocked, named after the profile name or the username. The other role store is untouched and the lockout invariant is kept |
| Accounts.AddLecturer | app.py:252-264 | A lecturer is added exactly when the username and password are not blank and the username is not a lecturer yet. It gets a lecturer record and a lecturer mirror named `lname or lu`; every other lecturer and mirror and the exam-personnel store are unchanged, and a refusal changes nothing |
| Accounts.AddExamPersonnel | app.py:301-312 | Exam personnel are added exactly when the username and password are not blank and the username is not exam personnel yet. They get an exam-personnel record and a mirror named `ename or eu`; every other entry and the lecturer store are unchanged, and a refusal changes nothing |
| Accounts.AddThenLogin | app.py:258-263 | Unless, for a lecturer, exam personnel already hold the username (their record wins the merge at app.py:142), a freshly added account logs in with its password, in its role, under a session named after its username |
| Accounts.DeleteAccount | app.py:272-284 | A username of the role store is removed from it and from `users`, and the other role store is untouched. Any other username is refused with nothing changed |
| Accounts.DeleteUndoesAdd | app.py:274-280 | Deleting an account just added under a fresh username restores the stores exactly |
| Accounts.DeleteThenLogin | app.py:321-327 | A deleted account that the other role store does not hold is unknown to login |
| Accounts.AdminSetPassword | app.py:222-235 | An empty password changes nothing. Otherwise every store holding the username gets the new password with its other fields kept, and nothing else changes |
| Accounts.AdminPasswordTakesEffect | app.py:223-235 | After the administrator sets a non-empty password on an account whose mirror is not blocked, the next login accepts it and refuses any other |
| Accounts.ChangeOwnPassword | app.py:555-564 | The holder's role store and mirror get the new password, with no emptiness check. The other role store and all other entries are untouched |
| Accounts.OwnPasswordTakesEffect | app.py:646-654 | When no overriding store holds the username, the next login accepts the new password and refuses any other |
| Accounts.MoveKey | app.py:575 | `m[to] = m.pop(from)` puts the old entry under the new key, drops the old key and keeps every other key |
| Accounts.Rename | app.py:568-582 | A blank new name is refused with nothing changed. Otherwise the record moves to the new key in the holder's role store and in `users`, the other role store is untouched, and the session ends |
| Accounts.RenameKeepsWellformed | app.py:575-579 | A rename moves a mirror without changing its counter or flag, so the lockout invariant is kept |
| Accounts.RenameThenLogin | app.py:659-671 | For an unblocked account, when the other role store holds neither the old name nor, for a lecturer, the new one, after a rename the old username is unknown to login and the new one logs in with the account's previous password |
| Accounts.RenameOverwritesTarget | app.py:579 | Renaming onto a username that has a mirror replaces that mirror with the renamed account's, leaving one mirror fewer |
| Accounts.RenameToSameName | app.py:664 | Renaming an account to its own name changes no store |
| Accounts.AddLecturerScenario | app.py:258-264 | On the default stores, adding lecturer `bob`/`pw1` succeeds, and `bob` then logs in as a lecturer named `bob` |
| Accounts.RenameLecturerScenario | app.py:569-582 | Continuing, renaming `bob` to `bobby` makes `bob` unknown and lets `bobby` log in with `pw1` |
| ExamPapers.InitialPapers | app.py:73 | The default papers are `Set 1` and `Set 2`, each with empty Sections A and B, within limits |
| ExamPapers.AddToSection | app.py:433-437 | A question is refused exactly when the section already holds its limit (5 for Section A, 3 otherwise). The refusal names that limit and keeps the section. Otherwise the question is appended, and a section within its limit stays within it |
| ExamPapers.AddQuestion | app.py:432-439 | The section rule applied to the chosen section of the chosen set: a refusal changes no paper, an acceptance appends the question to that section only, and limits are kept |
| ExamPapers.AddAll | app.py:608-615 | Any sequence of add requests keeps the sets and the sections of each set |
| ExamPapers.AddAllWithinLimits | app.py:609-615 | Papers within their limits stay within them under any sequence of add requests |
| ExamPapers.AddAllToSection | app.py:609-615 | Repeated adds to a section that starts within its limit never take it past its limit |
| ExamPapers.FillSection | app.py:436-437 | Questions added while the section has room are all kept, in order, after the existing ones |
| ExamPapers.FilledSectionIsFull | app.py:610-613 | An empty section filled to its limit holds exactly the added questions and refuses the next one, naming the limit |
| ExamPapers.SectionCapacities | app.py:433 | Section A takes five questions and Section B three |

## Left out

- Streamlit rendering, widgets, CSS, `st.rerun`/`st.stop`, `require_auth`, `navbar` and the role routing of `main`. These are user-interface code. The session is an output value: login returns it, and a rename reports that it ends.
- JSON persistence (`load_json`, `save_json`, `ensure_files` and the accessors). This is file I/O. Each store is an in-memory map. A file that fails to load falls back to the defaults, and that fallback is not modelled.
- Records missing fields. The source reads `attempts` and `blocked` with `.get` defaults. The model's records always have every field, because every record the app writes has them.
- Roles other than admin, lecturer and exam personnel. The app only writes these three, and `main` rejects any other as "Unknown role".
- Concurrent browser sessions and lost updates between unlocked read-modify-write cycles. The source has no locking, and a model of interleavings is beyond this sequential step model.
- Password hashing and a collision check on rename. Neither exists in the source.
- Subject and question-bank editing (`app.py:346-417`, `app.py:509-542`), and updating or deleting an exam-paper question. These are plain dictionary and list edits with no account or capacity rule.
- "Reset Demo Data" (`app.py:472-483`). It depends on aliasing of the mutable defaults object.
- Listing accounts. The dashboards only display the stores.
- ExamPapers.AddQuestion: requires that the chosen set and section exist. The form offers only existing sets, and a missing section makes the source raise an uncaught `KeyError`, which the model does not represent.
- Text.IsSpace: covers the characters for which Python's `str.isspace` is true, listed by code point. No Unicode database is consulted.
