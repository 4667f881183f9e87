/**
 The lockout policy as a state machine, and what sequences of login
 attempts do to one account: three failures block, a block is sticky until
 the administrator resets it, and a success before the third failure clears
 the counter.
 */
module Lockout {
  import opened Directory
  import opened Auth

  /** The policy on its own: `Active(0..2)` moves to `Blocked` on the third
      failure, a success returns to `Active(0)`, and `Blocked` never leaves. */
  function Next(st: Status, correct: bool): Status {
    match st
    case Blocked => Blocked
    case Active(n) =>
      if correct then Active(0)
      else if n + 1 >= MaxAttempts then Blocked
      else Active(n + 1)
  }

  /** One login moves the account's mirror exactly as the policy says. */
  lemma LoginFollowsPolicy(s: Stores, u: string, p: string)
    requires Resolve(s, u).Some? && Consistent(MirrorBefore(s, u))
    ensures u in Login(s, u, p).stores.users
    ensures Consistent(Login(s, u, p).stores.users[u])
    ensures StatusOf(Login(s, u, p).stores.users[u])
         == Next(StatusOf(MirrorBefore(s, u)), p == Resolve(s, u).value.password)
  {
  }

  /** `pws` tried one after another as passwords of `u`: the final stores and
      the outcome of every attempt. */
  function LoginRun(s: Stores, u: string, pws: seq<string>): (r: (Stores, seq<LoginOutcome>))
    ensures |r.1| == |pws|
    ensures r.0.lecturers == s.lecturers && r.0.examPersonnel == s.examPersonnel
    ensures r.0.users - {u} == s.users - {u}
    ensures Resolve(r.0, u) == Resolve(s, u)
    ensures Wellformed(s) ==> Wellformed(r.0)
    decreases |pws|
  {
    if |pws| == 0 then
      (s, [])
    else
      var step := Login(s, u, pws[0]);
      LoginKeepsResolve(s, u, pws[0], u);
      var rest := LoginRun(step.stores, u, pws[1..]);
      (rest.0, [step.outcome] + rest.1)
  }

  /** The outcome of a wrong password that is failure number `n` of the account. */
  function FailureOutcome(n: nat): LoginOutcome {
    if n < MaxAttempts then InvalidCredentials(MaxAttempts - n)
    else if n == MaxAttempts then LockedOut
    else AccountBlocked
  }

  function Min(a: nat, b: nat): nat {
    if a <= b then a else b
  }

  /** A run of wrong passwords: after `k` of them the account has
      `min(a + k, 3)` failures and is blocked exactly when `a + k >= 3`; the
      attempts report the attempts left, then the lockout, then the block. */
  lemma {:induction false} WrongPasswordRun(s: Stores, u: string, pws: seq<string>)
    requires Resolve(s, u).Some? && Consistent(MirrorBefore(s, u))
    requires forall i :: 0 <= i < |pws| ==> pws[i] != Resolve(s, u).value.password
    ensures var (s', outcomes) := LoginRun(s, u, pws);
            var a := MirrorBefore(s, u).attempts;
            && Resolve(s', u).Some?
            && MirrorBefore(s', u).attempts == Min(a + |pws|, MaxAttempts)
            && (MirrorBefore(s', u).blocked <==> a + |pws| >= MaxAttempts)
            && (forall i :: 0 <= i < |pws| ==> outcomes[i] == FailureOutcome(a + i + 1))
    decreases |pws|
  {
    if |pws| > 0 {
      var step := Login(s, u, pws[0]);
      LoginKeepsResolve(s, u, pws[0], u);
      LoginFollowsPolicy(s, u, pws[0]);
      WrongPasswordRun(step.stores, u, pws[1..]);
      var rest := LoginRun(step.stores, u, pws[1..]);
      var outcomes := LoginRun(s, u, pws).1;
      assert outcomes == [step.outcome] + rest.1;
      forall i | 0 <= i < |pws|
        ensures outcomes[i] == FailureOutcome(MirrorBefore(s, u).attempts + i + 1)
      {
        if i > 0 {
          assert outcomes[i] == rest.1[i - 1];
        }
      }
    }
  }

  /** Three wrong passwords in a row block an account that had no failures:
      two report the attempts left and the third locks the account out. */
  lemma ThreeFailuresBlock(s: Stores, u: string, pws: seq<string>)
    requires Resolve(s, u).Some? && MirrorBefore(s, u).attempts == 0 && !MirrorBefore(s, u).blocked
    requires |pws| == 3 && forall i :: 0 <= i < 3 ==> pws[i] != Resolve(s, u).value.password
    ensures var (s', outcomes) := LoginRun(s, u, pws);
            && u in s'.users && s'.users[u].blocked
            && outcomes == [InvalidCredentials(2), InvalidCredentials(1), LockedOut]
  {
    WrongPasswordRun(s, u, pws);
  }

  /** A blocked account rejects every password, the right one included, and
      no attempt changes any store. */
  lemma {:induction false} BlockIsSticky(s: Stores, u: string, pws: seq<string>)
    requires u in s.users && s.users[u].blocked
    ensures LoginRun(s, u, pws).0 == s
    ensures forall i :: 0 <= i < |pws| ==> LoginRun(s, u, pws).1[i] == AccountBlocked
    decreases |pws|
  {
    if |pws| > 0 {
      BlockIsSticky(s, u, pws[1..]);
      var outcomes := LoginRun(s, u, pws).1;
      forall i | 0 <= i < |pws|
        ensures outcomes[i] == AccountBlocked
      {
        if i > 0 {
          assert outcomes[i] == LoginRun(s, u, pws[1..]).1[i - 1];
        }
      }
    }
  }

  /** Fewer than three failures do not lock the account: the right password
      afterwards is accepted and clears the counter. */
  lemma SuccessBeforeLockout(s: Stores, u: string, pws: seq<string>)
    requires Resolve(s, u).Some? && MirrorBefore(s, u).attempts == 0 && !MirrorBefore(s, u).blocked
    requires |pws| < MaxAttempts
    requires forall i :: 0 <= i < |pws| ==> pws[i] != Resolve(s, u).value.password
    ensures var after := Login(LoginRun(s, u, pws).0, u, Resolve(s, u).value.password);
            && after.outcome.Granted?
            && after.stores.users[u].attempts == 0
            && !after.stores.users[u].blocked
  {
    WrongPasswordRun(s, u, pws);
  }

  /** The built-in administrator on a fresh install: `admin123` is accepted;
      three wrong passwords block it so that even `admin123` is refused; after
      a reset `admin123` is accepted again. */
  lemma AdminLockoutScenario(pws: seq<string>)
    requires |pws| == 3 && forall i :: 0 <= i < 3 ==> pws[i] != "admin123"
    ensures Login(Initial(), "admin", "admin123").outcome
         == Granted(Session("admin", Admin, "Administrator"))
    ensures var blocked := LoginRun(Initial(), "admin", pws).0;
            && Login(blocked, "admin", "admin123").outcome == AccountBlocked
            && Login(ResetAttempts(blocked, "admin"), "admin", "admin123").outcome.Granted?
  {
    var s := Initial();
    assert Resolve(s, "admin") == Some(View("admin123", Admin, Some("Administrator")));
    ThreeFailuresBlock(s, "admin", pws);
  }
}
