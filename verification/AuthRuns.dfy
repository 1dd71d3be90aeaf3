/**
 Runs of the phone handlers (admin-api/src/routes/auth.ts) that reach what the bounds of
 `Auth` leave room for: an eleventh code within a day, six codes alive, a password lockout.
 */
module AuthRuns {
  import opened Wrappers
  import opened RateLimiter
  import opened Auth

  function Text(n: nat): string {
    seq(n, _ => 'a')
  }

  // ── Eleven codes in one day, six of them alive ──

  /** A minute apart, each 600 milliseconds into its second: every expiry is rounded up. */
  function Time(midnight: nat, i: nat): nat {
    midnight + i * COOLDOWN + 600
  }

  function Sent(phone: string, midnight: nat, i: nat): Code {
    var second := midnight + i * COOLDOWN;
    Code(Text(i), phone, "", second, second + CODE_LIFETIME + 1000, false)
  }

  lemma TimeFacts(midnight: nat, i: nat)
    requires midnight % DAY == 0
    ensures Second(Time(midnight, i)) == midnight + i * COOLDOWN && Time(midnight, i) % 1000 == 600
  {
    var days := midnight / DAY;
    assert midnight + i * COOLDOWN == (days * 86400 + i * 60) * 1000;
    Remainder1000(days * 86400 + i * 60, 600);
  }

  function Codes(phone: string, midnight: nat, n: nat): seq<Code> {
    seq(n, i requires 0 <= i < n => Sent(phone, midnight, i))
  }

  function Addresses(midnight: nat, n: nat): map<string, SendRecord> {
    if n == 0 then map[] else Addresses(midnight, n - 1)[Text(n - 1) := SendRecord(1, Time(midnight, n - 1))]
  }

  /** After n codes, a minute apart, each asked for from an address of its own. */
  function After(phone: string, midnight: nat, n: nat): State {
    State(Codes(phone, midnight, n), [], map[], map[], Store(Addresses(midnight, n), map[]))
  }

  function Send(phone: string, midnight: nat, i: nat): Op {
    SendVerification(phone, Text(i), Time(midnight, i), Text(i), "")
  }

  /** The requests from the n-th to the eleventh. */
  function Sends(phone: string, midnight: nat, n: nat): seq<Op>
    decreases 11 - n as int
  {
    if n >= 11 then [] else [Send(phone, midnight, n)] + Sends(phone, midnight, n + 1)
  }

  lemma {:induction false} AddressIsNew(midnight: nat, n: nat, i: nat)
    requires n <= i
    ensures Text(i) !in Addresses(midnight, n)
  {
    if n > 0 {
      AddressIsNew(midnight, n - 1, i);
      assert |Text(i)| != |Text(n - 1)|;
    }
  }

  /** What the daily limit sees before the next code: all but the one of midnight. */
  lemma {:induction false} CountedSoFar(phone: string, midnight: nat, n: nat)
    ensures CountAfter(Codes(phone, midnight, n), phone, midnight) == if n == 0 then 0 else n - 1
  {
    if n > 0 {
      assert Codes(phone, midnight, n)[..n - 1] == Codes(phone, midnight, n - 1);
      CountedSoFar(phone, midnight, n - 1);
    }
  }

  lemma {:induction false} CountedInTheDay(phone: string, midnight: nat, n: nat)
    requires n <= 11
    ensures CountOfDay(Codes(phone, midnight, n), phone, midnight) == n
  {
    if n > 0 {
      assert Codes(phone, midnight, n)[..n - 1] == Codes(phone, midnight, n - 1);
      CountedInTheDay(phone, midnight, n - 1);
    }
  }

  lemma NotRecent(phone: string, midnight: nat, n: nat)
    requires midnight % DAY == 0
    ensures !Recent(Codes(phone, midnight, n), phone, Time(midnight, n))
  {
    TimeFacts(midnight, n);
    forall c | c in Codes(phone, midnight, n) ensures c.createdAt <= midnight + n * COOLDOWN - COOLDOWN {
      var i :| 0 <= i < n && Codes(phone, midnight, n)[i] == c;
      assert i * COOLDOWN <= (n - 1) * COOLDOWN;
    }
  }

  lemma NextIsAdmitted(phone: string, midnight: nat, n: nat)
    requires ValidPhone(phone) && midnight % DAY == 0 && n < 11
    ensures HttpStatus(After(phone, midnight, n), Send(phone, midnight, n)) == 200
  {
    AddressIsNew(midnight, n, n);
    CountedSoFar(phone, midnight, n);
    SameDay(Time(midnight, n), midnight);
    NotRecent(phone, midnight, n);
  }

  lemma NextIsSent(phone: string, midnight: nat, n: nat)
    requires ValidPhone(phone) && midnight % DAY == 0 && n < 11
    ensures Handle(After(phone, midnight, n), Send(phone, midnight, n)) == After(phone, midnight, n + 1)
  {
    var s, now := After(phone, midnight, n), Time(midnight, n);
    NextIsAdmitted(phone, midnight, n);
    AddressIsNew(midnight, n, n);
    RunSteps(s.limits, SendCode(Text(n), now), Cleanup(now));
    TimeFacts(midnight, n);
    NewCodeTimes(Text(n), phone, "", now);
    assert NewCode(Text(n), phone, "", now) == Sent(phone, midnight, n);
    assert s.codes + [Sent(phone, midnight, n)] == Codes(phone, midnight, n + 1);
  }

  lemma FreshId(phone: string, midnight: nat, n: nat)
    ensures forall c | c in Codes(phone, midnight, n) :: c.id != Text(n)
  {
    forall c | c in Codes(phone, midnight, n) ensures c.id != Text(n) {
      var i :| 0 <= i < n && Codes(phone, midnight, n)[i] == c;
      assert |c.id| == i;
    }
  }

  lemma {:induction false} SendsReach(phone: string, midnight: nat, n: nat, clock: nat)
    requires ValidPhone(phone) && midnight % DAY == 0 && n <= 11 && clock <= Time(midnight, n)
    ensures Possible(After(phone, midnight, n), clock, Sends(phone, midnight, n))
    ensures RunOps(After(phone, midnight, n), Sends(phone, midnight, n)) == After(phone, midnight, 11)
    ensures n < 11 ==> EndOf(clock, Sends(phone, midnight, n)) == Time(midnight, 10)
    decreases 11 - n
  {
    if n < 11 {
      var ops := Sends(phone, midnight, n);
      NextIsSent(phone, midnight, n);
      FreshId(phone, midnight, n);
      SendsReach(phone, midnight, n + 1, Time(midnight, n));
      assert ops[0] == Send(phone, midnight, n) && ops[1..] == Sends(phone, midnight, n + 1);
    }
  }

  lemma {:induction false} AliveSoFar(phone: string, midnight: nat, n: nat)
    requires midnight % DAY == 0 && n <= 11
    ensures |Alive(Codes(phone, midnight, n), phone, Time(midnight, 10))| == if n <= 5 then 0 else n - 5
  {
    if n > 0 {
      assert Codes(phone, midnight, n)[..n - 1] == Codes(phone, midnight, n - 1);
      AliveSoFar(phone, midnight, n - 1);
      TimeFacts(midnight, 10);
    }
  }

  /** Eleven in a day is reached, one code in the second of midnight and ten after it; then six of them are alive. */
  lemma ElevenInADay(phone: string, midnight: nat)
    requires ValidPhone(phone) && midnight % DAY == 0
    ensures exists ops ::
              && Possible(Start, 0, ops) && EndOf(0, ops) == Time(midnight, 10)
              && CountOfDay(RunOps(Start, ops).codes, phone, midnight) == 11
              && |Alive(RunOps(Start, ops).codes, phone, Time(midnight, 10))| == 6
  {
    assert After(phone, midnight, 0) == Start;
    SendsReach(phone, midnight, 0, 0);
    CountedInTheDay(phone, midnight, 11);
    AliveSoFar(phone, midnight, 11);
  }

  // ── A password lockout ──

  predicate Startable(s: State, clock: nat, op: Op) {
    clock <= op.now
    && (op.SendVerification? ==> forall c | c in s.codes :: c.id != op.id)
    && (op.Invite? ==> forall i | i in s.invitations :: i.id != op.id)
  }

  lemma FirstOp(s: State, s': State, clock: nat, op: Op, rest: seq<Op>)
    requires s' == Handle(s, op)
    ensures Possible(s, clock, [op] + rest) <==> Startable(s, clock, op) && Possible(s', op.now, rest)
    ensures RunOps(s, [op] + rest) == RunOps(s', rest)
  {
    assert ([op] + rest)[1..] == rest;
  }

  /** The state after n wrong passwords in a row. */
  function AfterWrong(s: State, phone: string, now: nat, n: nat): State {
    if n == 0 then s else Handle(AfterWrong(s, phone, now, n - 1), PasswordLogin(phone, false, now))
  }

  /** An account with a password, and what its phone's limiter entry is after n failures. */
  predicate Failed(s: State, phone: string, now: nat, n: nat) {
    phone in s.users && s.users[phone].hasPassword
    && Entry(s.limits.logins, phone)
       == if n == 0 then None else Some(AttemptRecord(n, if n < MAX_FAILURES then 0 else now + LOCKOUT))
  }

  lemma WrongOnce(s: State, phone: string, now: nat, n: nat)
    requires Failed(s, phone, now, n) && n < MAX_FAILURES
    ensures HttpStatus(s, PasswordLogin(phone, false, now)) == 401
    ensures Failed(Handle(s, PasswordLogin(phone, false, now)), phone, now, n + 1)
  {
    RunSteps(s.limits, CheckLogin(phone, now), RateLimiter.Failure(phone, now));
  }

  lemma {:induction false} WrongRuns(s: State, phone: string, now: nat, n: nat)
    requires Failed(s, phone, now, 0) && n <= MAX_FAILURES
    ensures Failed(AfterWrong(s, phone, now, n), phone, now, n)
    decreases n
  {
    if n > 0 {
      WrongRuns(s, phone, now, n - 1);
      WrongOnce(AfterWrong(s, phone, now, n - 1), phone, now, n - 1);
    }
  }

  /** A user registers by a code and sets a password. */
  function SignUp(phone: string, user: string, workspace: string): seq<Op> {
    [SendVerification(phone, "", 0, "", "")]
    + ([CodeLogin(phone, "", 0, user, workspace)] + ([SetPassword(user, true, MIN_PASSWORD, 0)] + []))
  }

  function WithCode(phone: string, used: bool): State {
    State([NewCode("", phone, "", 0).(used := used)], [], map[], map[], Store(map["" := SendRecord(1, 0)], map[]))
  }

  function WithUser(phone: string, user: string, workspace: string, hasPassword: bool): State {
    WithCode(phone, true).(users := map[phone := User(user, hasPassword)],
    members := map[(workspace, user) := "owner"])
  }

  lemma CodeIsSent(phone: string)
    requires ValidPhone(phone)
    ensures Handle(Start, SendVerification(phone, "", 0, "", "")) == WithCode(phone, false)
  {
    RunSteps(Empty, SendCode("", 0), Cleanup(0));
    assert Midnight(0) == 0 && CountAfter([], phone, 0) == 0;
  }

  lemma CodeIsAccepted(phone: string, user: string, workspace: string)
    ensures Handle(WithCode(phone, false), CodeLogin(phone, "", 0, user, workspace))
         == WithUser(phone, user, workspace, false)
  {
    var s := WithCode(phone, false);
    NewCodeTimes("", phone, "", 0);
    assert s.codes[..0] == [] && Newest([], phone, 0) == None;
    assert Redeems(s.codes, phone, "", 0) == Some(0);
    RunSteps(s.limits, CheckLogin(phone, 0), RateLimiter.Success(phone, 0));
  }

  lemma PasswordIsSet(phone: string, user: string, workspace: string)
    ensures Handle(WithUser(phone, user, workspace, false), SetPassword(user, true, MIN_PASSWORD, 0))
         == WithUser(phone, user, workspace, true)
  {
    var s := WithUser(phone, user, workspace, false);
    assert phone in s.users && s.users[phone].id == user;
    assert WithPassword(s.users, user) == map[phone := User(user, true)];
  }

  lemma SignUpWorks(phone: string, user: string, workspace: string)
    requires ValidPhone(phone)
    ensures Possible(Start, 0, SignUp(phone, user, workspace))
    ensures RunOps(Start, SignUp(phone, user, workspace)) == WithUser(phone, user, workspace, true)
  {
    var send, login := SendVerification(phone, "", 0, "", ""), CodeLogin(phone, "", 0, user, workspace);
    var password := SetPassword(user, true, MIN_PASSWORD, 0);
    var s1, s2, s3 := WithCode(phone, false), WithUser(phone, user, workspace, false),
                      WithUser(phone, user, workspace, true);
    CodeIsSent(phone);
    CodeIsAccepted(phone, user, workspace);
    PasswordIsSet(phone, user, workspace);
    FirstOp(s2, s3, 0, password, []);
    FirstOp(s1, s2, 0, login, [password] + []);
    FirstOp(Start, s1, 0, send, [login] + ([password] + []));
  }

  /**
   The password half of the lockout is live: after a sign-up each of five wrong passwords
   records a failure, and even the right password is then refused for 15 minutes.
   */
  lemma PasswordLockoutHappens(phone: string, user: string, workspace: string, later: nat)
    requires ValidPhone(phone) && later <= LOCKOUT
    ensures var s := RunOps(Start, SignUp(phone, user, workspace));
            && Possible(Start, 0, SignUp(phone, user, workspace))
            && (forall n: nat | n < 5 ::
                  RateLimiter.Failure(phone, 0)
                  in LimiterEvents(AfterWrong(s, phone, 0, n), PasswordLogin(phone, false, 0)))
            && HttpStatus(AfterWrong(s, phone, 0, 5), PasswordLogin(phone, true, later)) == 429
  {
    SignUpWorks(phone, user, workspace);
    var s := RunOps(Start, SignUp(phone, user, workspace));
    forall n: nat | n <= 5 ensures Failed(AfterWrong(s, phone, 0, n), phone, 0, n) { WrongRuns(s, phone, 0, n); }
    forall n: nat | n < 5
      ensures RateLimiter.Failure(phone, 0)
              in LimiterEvents(AfterWrong(s, phone, 0, n), PasswordLogin(phone, false, 0))
    {
      WrongEvents(AfterWrong(s, phone, 0, n), phone, 0, n);
    }
  }

  lemma WrongEvents(s: State, phone: string, now: nat, n: nat)
    requires Failed(s, phone, now, n) && n < MAX_FAILURES
    ensures LimiterEvents(s, PasswordLogin(phone, false, now))
         == [CheckLogin(phone, now)] + [RateLimiter.Failure(phone, now)]
  {
  }
}
