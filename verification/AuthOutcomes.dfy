/**
 The handlers of admin-api/src/routes/auth.ts and admin-api/src/routes/invitations.ts spelled out: when
 each one answers what, and what it leaves of every table.
 */
module AuthOutcomes {
  import opened Wrappers
  import opened RateLimiter
  import opened Auth

  // ── Users ──

  /** Whether a step logs somebody in by a code. */
  predicate LogsIn(s: State, op: Op) {
    (op.CodeLogin? || op.Accept?) && HttpStatus(s, op) == 200
  }

  /**
   Nobody's account is replaced: a known phone keeps its user id, a password is gained only by setting
   it and never lost, and a new phone appears only by a code login or an acceptance, as the
   fresh user without a password.
   */
  lemma UsersStep(s: State, op: Op, phone: string)
    ensures var after := Handle(s, op).users;
            && (phone in s.users ==>
                  && phone in after && after[phone].id == s.users[phone].id
                  && (after[phone].hasPassword <==>
                      || s.users[phone].hasPassword
                      || (op.SetPassword? && op.user == s.users[phone].id && HttpStatus(s, op) == 200)))
            && (phone !in s.users ==>
                  && (phone in after <==> LogsIn(s, op) && op.phone == phone)
                  && (phone in after ==> after[phone] == User(op.newUser, false)))
  {
    if op.SetPassword? && HttpStatus(s, op) == 200 { assert Handle(s, op).users == WithPassword(s.users, op.user); }
  }

  /** Over every run a known phone keeps its user id, and its password once it has one. */
  lemma {:induction false} UsersStay(s: State, ops: seq<Op>, phone: string)
    requires phone in s.users
    ensures var users := RunOps(s, ops).users;
            phone in users && users[phone].id == s.users[phone].id
            && (s.users[phone].hasPassword ==> users[phone].hasPassword)
    decreases |ops|
  {
    if ops != [] {
      UsersStep(s, ops[0], phone);
      UsersStay(Handle(s, ops[0]), ops[1..], phone);
    }
  }

  // ── Members ──

  /**
   A membership keeps its role; a new one is a registered user's own workspace, as owner, or the
   redeemed invitation's, with its role.
   */
  lemma MembersKeepRoles(s: State, op: Op, workspace: string, user: string)
    ensures var m, after := (workspace, user), Handle(s, op).members;
            && (m in s.members ==> m in after && after[m] == s.members[m])
            && (m !in s.members && m in after ==>
                  && LogsIn(s, op)
                  && (|| (op.phone !in s.users && m == (op.newWorkspace, op.newUser) && after[m] == "owner")
                      || (op.Accept? && user == Handle(s, op).users[op.phone].id
                          && exists k | 0 <= k < |s.invitations| ::
                            s.invitations[k].code == op.code && s.invitations[k].workspace == workspace
                            && s.invitations[k].role == after[m])))
  {
    if op.Accept? && HttpStatus(s, op) == 200 {
      var k := Target(s, op).value;
      assert s.invitations[k].code == op.code;
    }
  }

  /** Whoever registers gets a workspace, and whoever accepts is a member of the invitation's workspace. */
  lemma MembersAreEnrolled(s: State, op: Op)
    requires LogsIn(s, op)
    ensures op.phone !in s.users ==> (op.newWorkspace, op.newUser) in Handle(s, op).members
    ensures op.Accept? ==>
              exists k | 0 <= k < |s.invitations| ::
                && s.invitations[k].code == op.code && s.invitations[k].status == Active
                && Handle(s, op).invitations[k].useCount == s.invitations[k].useCount + 1
                && (s.invitations[k].workspace, Handle(s, op).users[op.phone].id) in Handle(s, op).members
  {
    if op.Accept? {
      var k := Target(s, op).value;
      assert s.invitations[k].code == op.code;
    }
  }

  // ── Verification codes ──

  lemma {:induction false} CountIsSize(codes: seq<Code>, phone: string, since: int)
    ensures CountAfter(codes, phone, since)
         == |set i | 0 <= i < |codes| && codes[i].phone == phone && codes[i].createdAt > since|
  {
    var now := set i | 0 <= i < |codes| && codes[i].phone == phone && codes[i].createdAt > since;
    if codes == [] {
      assert now == {};
    } else {
      var n := |codes| - 1;
      var rest := codes[..n];
      var before := set i | 0 <= i < n && rest[i].phone == phone && rest[i].createdAt > since;
      CountIsSize(rest, phone, since);
      assert forall i | 0 <= i < n :: rest[i] == codes[i];
      if codes[n].phone == phone && codes[n].createdAt > since {
        assert now == before + {n};
      } else {
        assert now == before;
      }
    }
  }

  /**
   A code is sent to a phone of 7 to 15 digits if the IP is within its limit, a minute has passed since
   the phone's last code, and fewer than ten were created since midnight; it is refused with
   400 for the phone alone, and with 429 otherwise.
   */
  lemma SendOutcome(s: State, op: Op)
    requires op.SendVerification?
    ensures HttpStatus(s, op) == 400 <==> |op.phone| < 7 || |op.phone| > 15
    ensures HttpStatus(s, op) == 200 <==>
            && 7 <= |op.phone| <= 15
            && Reply(s.limits, SendCode(op.ip, op.now)) == Some(Allowed)
            && (forall i | 0 <= i < |s.codes| && s.codes[i].phone == op.phone ::
                  s.codes[i].createdAt + 60000 <= op.now - op.now % 1000)
            && |set i | 0 <= i < |s.codes| && s.codes[i].phone == op.phone
                        && s.codes[i].createdAt > op.now - op.now % 86400000| < 10
    ensures HttpStatus(s, op) in [200, 400, 429]
  {
    CountIsSize(s.codes, op.phone, op.now - op.now % 86400000);
    if i :| 0 <= i < |s.codes| && s.codes[i].phone == op.phone
            && s.codes[i].createdAt + 60000 > op.now - op.now % 1000 {
      assert s.codes[i] in s.codes;
    }
  }

  /** A sent code is new, unused, dated to the second, and expires five minutes on, to the nearest second. */
  lemma CodeIsAppended(s: State, op: Op)
    requires op.SendVerification? && HttpStatus(s, op) == 200
    ensures var after := Handle(s, op).codes;
            && |after| == |s.codes| + 1 && after[..|s.codes|] == s.codes
            && var c := after[|s.codes|];
            && c.id == op.id && c.phone == op.phone && c.text == op.text && !c.used
            && c.createdAt <= op.now < c.createdAt + 1000 && c.createdAt % 1000 == 0
            && c.expiresAt % 1000 == 0 && op.now + 300000 - 500 < c.expiresAt <= op.now + 300000 + 500
  {
  }

  /** The phone's newest unexpired, unused code, written out. */
  ghost predicate Live(codes: seq<Code>, i: int, phone: string, now: nat) {
    0 <= i < |codes| && codes[i].phone == phone && codes[i].used == false && codes[i].expiresAt > now - now % 1000
  }

  ghost predicate Matches(codes: seq<Code>, i: int, phone: string, text: string, now: nat) {
    Live(codes, i, phone, now) && codes[i].text == text
    && forall j | 0 <= j < |codes| && j != i && Live(codes, j, phone, now) :: codes[j].createdAt < codes[i].createdAt
  }

  lemma RedeemsIff(codes: seq<Code>, clock: nat, phone: string, text: string, now: nat)
    requires CodesOk(codes, clock)
    ensures var r := Redeems(codes, phone, text, now);
            && (r.Some? ==> Matches(codes, r.value, phone, text, now))
            && (r.None? ==> forall i | 0 <= i < |codes| :: !Matches(codes, i, phone, text, now))
  {
    var n := Newest(codes, phone, now);
    if n.Some? {
      assert Live(codes, n.value, phone, now);
      forall i | Matches(codes, i, phone, text, now) ensures i == n.value { assert Usable(codes[i], phone, now); }
      forall j | 0 <= j < |codes| && j != n.value && Live(codes, j, phone, now)
        ensures codes[j].createdAt < codes[n.value].createdAt
      {
        assert Usable(codes[j], phone, now);
      }
    } else {
      forall i | 0 <= i < |codes| ensures !Live(codes, i, phone, now) { assert !Usable(codes[i], phone, now); }
    }
  }

  /**
   A code login succeeds exactly when the phone is not locked and the text is that of its newest
   unused, unexpired code; a locked phone is told to wait, and everybody else refused.
   */
  lemma CodeLoginOutcome(s: State, clock: nat, op: Op)
    requires op.CodeLogin? && CodesOk(s.codes, clock)
    ensures var allowed := Reply(s.limits, CheckLogin(op.phone, op.now)) == Some(Allowed);
            && (HttpStatus(s, op) == 200 <==> allowed && exists i :: Matches(s.codes, i, op.phone, op.text, op.now))
            && (HttpStatus(s, op) == 429 <==> !allowed) && HttpStatus(s, op) in [200, 401, 429]
  {
    RedeemsIff(s.codes, clock, op.phone, op.text, op.now);
  }

  /** A login by a code uses that code up and changes nothing else in the table; no other step uses one. */
  lemma CodesAreUsed(s: State, clock: nat, op: Op)
    requires CodesOk(s.codes, clock) && !op.SendVerification?
    ensures var after := Handle(s, op).codes;
            && |after| == |s.codes|
            && forall i | 0 <= i < |s.codes| ::
                 after[i] == s.codes[i].(used := s.codes[i].used
                                                 || (LogsIn(s, op) && Matches(s.codes, i, op.phone, op.text, op.now)))
  {
    HandleCodes(s, op);
    if LogsIn(s, op) {
      RedeemsIff(s.codes, clock, op.phone, op.text, op.now);
      var k := Redeems(s.codes, op.phone, op.text, op.now).value;
      forall i | Matches(s.codes, i, op.phone, op.text, op.now) ensures i == k {
        assert Live(s.codes, i, op.phone, op.now) && Live(s.codes, k, op.phone, op.now);
      }
    }
  }

  // ── Passwords ──

  lemma PasswordOutcome(s: State, op: Op)
    requires op.PasswordLogin?
    ensures var allowed := Reply(s.limits, CheckLogin(op.phone, op.now)) == Some(Allowed);
            && (HttpStatus(s, op) == 429 <==> !allowed) && HttpStatus(s, op) in [200, 401, 429]
            && (HttpStatus(s, op) == 200 <==>
                allowed && op.phone in s.users && s.users[op.phone].hasPassword && op.valid)
  {
  }

  lemma SetPasswordOutcome(s: State, op: Op)
    requires op.SetPassword?
    ensures HttpStatus(s, op) == 200 <==>
            && op.signedIn && op.length >= 6
            && (exists phone | phone in s.users :: s.users[phone].id == op.user)
            && (forall phone | phone in s.users && s.users[phone].id == op.user :: !s.users[phone].hasPassword)
  {
    if HttpStatus(s, op) == 200 {
      forall phone | phone in s.users && s.users[phone].id == op.user ensures !s.users[phone].hasPassword {
        assert !HasPassword(s.users, op.user);
      }
    }
  }

  // ── Invitations ──

  ghost predicate CodesDiffer(invitations: seq<Invitation>) {
    forall i, j | 0 <= i < j < |invitations| :: invitations[i].code != invitations[j].code
  }

  lemma CodesAreKept(s: State, op: Op)
    requires !op.Invite?
    ensures var after := Handle(s, op).invitations;
            |after| == |s.invitations| && forall i | 0 <= i < |after| :: after[i].code == s.invitations[i].code
  {
    HandleInvitations(s, op);
  }

  /** The unique invitation code, over every step. */
  lemma CodesStayDifferent(s: State, op: Op)
    requires CodesDiffer(s.invitations)
    ensures CodesDiffer(Handle(s, op).invitations)
  {
    if op.Invite? { InviteOutcome(s, op); } else { CodesAreKept(s, op); }
  }

  lemma InviteOutcome(s: State, op: Op)
    requires op.Invite?
    ensures HttpStatus(s, op) == 403 <==> !op.manager
    ensures HttpStatus(s, op) == 201 <==>
            op.manager && forall i | 0 <= i < |s.invitations| :: s.invitations[i].code != op.code
    ensures HttpStatus(s, op) != 201 ==> Handle(s, op).invitations == s.invitations
    ensures HttpStatus(s, op) == 201 ==>
              var after := Handle(s, op).invitations;
              && |after| == |s.invitations| + 1 && after[..|s.invitations|] == s.invitations
              && var i := after[|s.invitations|];
              && i.id == op.id && i.workspace == op.workspace && i.code == op.code && i.role == op.role
              && i.expiresAt == op.expiresAt && i.maxUses == op.maxUses && i.useCount == 0
              && i.status == Active && i.acceptedBy == None
  {
    if i :| 0 <= i < |s.invitations| && s.invitations[i].code == op.code { assert s.invitations[i] in s.invitations; }
  }

  lemma RevokeOutcome(s: State, op: Op)
    requires op.Revoke?
    ensures HttpStatus(s, op) == 200 <==>
            exists k | 0 <= k < |s.invitations| :: ActiveOf(s.invitations[k], op.id, op.workspace)
    ensures var after := Handle(s, op).invitations;
            && |after| == |s.invitations|
            && forall k | 0 <= k < |s.invitations| ::
                 after[k] == if ActiveOf(s.invitations[k], op.id, op.workspace)
                 then s.invitations[k].(status := Revoked) else s.invitations[k]
  {
    forall i ensures Revocable(i, op.id, op.workspace) <==> ActiveOf(i, op.id, op.workspace) {}
    if k :| 0 <= k < |s.invitations| && ActiveOf(s.invitations[k], op.id, op.workspace) {
      assert s.invitations[k] in s.invitations;
    }
  }

  predicate ActiveOf(i: Invitation, id: string, workspace: string) {
    i.id == id && i.workspace == workspace && i.status == Active
  }

  /** An invitation that the query finds. */
  predicate OpenAt(invitations: seq<Invitation>, k: int, code: string, now: nat) {
    0 <= k < |invitations| && invitations[k].code == code && invitations[k].status == Active
    && invitations[k].expiresAt > now - now % 1000
  }

  lemma OpenIs(invitations: seq<Invitation>, k: int, code: string, now: nat)
    requires CodesDiffer(invitations) && OpenAt(invitations, k, code, now)
    ensures Open(invitations, code, now) == Some(k)
  {
    var f := Open(invitations, code, now);
    assert f.Some?;
  }

  /**
   An acceptance succeeds exactly when the phone is not locked, the invitation is active, unexpired and
   not used up, and the submitted text is that of the phone's newest live code.
   */
  lemma AcceptOutcome(s: State, clock: nat, op: Op)
    requires op.Accept? && CodesOk(s.codes, clock) && CodesDiffer(s.invitations)
    ensures var allowed := Reply(s.limits, CheckLogin(op.phone, op.now)) == Some(Allowed);
            var open := exists k :: OpenAt(s.invitations, k, op.code, op.now);
            var room := exists k :: OpenAt(s.invitations, k, op.code, op.now)
                                    && s.invitations[k].useCount < s.invitations[k].maxUses;
            && (HttpStatus(s, op) == 429 <==> !allowed)
            && (HttpStatus(s, op) == 404 <==> allowed && !open)
            && (HttpStatus(s, op) == 400 <==> allowed && open && !room)
            && (HttpStatus(s, op) == 200 <==>
                allowed && room && exists i :: Matches(s.codes, i, op.phone, op.text, op.now))
            && HttpStatus(s, op) in [200, 400, 401, 404, 429]
  {
    RedeemsIff(s.codes, clock, op.phone, op.text, op.now);
    var f := Open(s.invitations, op.code, op.now);
    if f.Some? { assert OpenAt(s.invitations, f.value, op.code, op.now); }
    if k :| OpenAt(s.invitations, k, op.code, op.now) { OpenIs(s.invitations, k, op.code, op.now); }
    forall k | OpenAt(s.invitations, k, op.code, op.now) ensures f == Some(k) {
      OpenIs(s.invitations, k, op.code, op.now);
    }
  }

  /** An acceptance counts on its invitation alone, names the user, and closes it at its maximum. */
  lemma AcceptCounts(s: State, op: Op)
    requires op.Accept? && CodesDiffer(s.invitations)
    ensures var after := Handle(s, op).invitations;
            && |after| == |s.invitations|
            && forall k | 0 <= k < |s.invitations| ::
                 if HttpStatus(s, op) == 200 && OpenAt(s.invitations, k, op.code, op.now) then
                   var count := s.invitations[k].useCount + 1;
                   && after[k] == s.invitations[k].(useCount := count, acceptedBy := after[k].acceptedBy,
                                  status := after[k].status)
                   && after[k].acceptedBy == Some(Handle(s, op).users[op.phone].id)
                   && after[k].status == if count >= s.invitations[k].maxUses then Accepted else Active
                 else after[k] == s.invitations[k]
  {
    var after := Handle(s, op).invitations;
    if HttpStatus(s, op) == 200 {
      var t := Target(s, op).value;
      forall k | OpenAt(s.invitations, k, op.code, op.now) ensures k == t { OpenIs(s.invitations, k, op.code, op.now); }
      assert OpenAt(s.invitations, t, op.code, op.now);
    }
  }

  // ── What the handlers tell the limiter ──

  function Counted(l: Store, phone: string): nat {
    if phone in l.logins then l.logins[phone].count else 0
  }

  /** A login that succeeds, by code, password or invitation, forgives the phone its failures. */
  lemma SuccessIsForgiven(s: State, op: Op)
    requires LogsIn(s, op) || (op.PasswordLogin? && HttpStatus(s, op) == 200)
    ensures op.phone !in Handle(s, op).limits.logins
  {
    RunSteps(s.limits, CheckLogin(op.phone, op.now), RateLimiter.Success(op.phone, op.now));
  }

  /** A wrong code, or a wrong password of an account that has one, counts as a failure of the phone. */
  lemma FailureIsCounted(s: State, op: Op)
    requires (op.CodeLogin? || op.Accept? || op.PasswordLogin?) && HttpStatus(s, op) == 401
    requires op.PasswordLogin? ==> op.phone in s.users && s.users[op.phone].hasPassword
    ensures Counted(Handle(s, op).limits, op.phone)
         == 1 + Counted(RateLimiter.Apply(s.limits, CheckLogin(op.phone, op.now)), op.phone)
  {
    RunSteps(s.limits, CheckLogin(op.phone, op.now), RateLimiter.Failure(op.phone, op.now));
  }

  /** Nothing else is counted: no account without a password, no invitation that is not open, no locked phone. */
  lemma NothingElseIsCounted(s: State, op: Op)
    requires || (op.PasswordLogin? && (op.phone !in s.users || !s.users[op.phone].hasPassword))
             || ((op.CodeLogin? || op.Accept? || op.PasswordLogin?) && HttpStatus(s, op) in [400, 404, 429])
    ensures Handle(s, op).limits == RateLimiter.Apply(s.limits, CheckLogin(op.phone, op.now))
  {
    RunSteps(s.limits, CheckLogin(op.phone, op.now), RateLimiter.Failure(op.phone, op.now));
  }

  /** The remaining handlers do not touch the limiter, but for the periodic sweep, which cleans up. */
  lemma OthersLeaveTheLimiter(s: State, op: Op)
    ensures op.SetPassword? || op.Invite? || op.Revoke? ==> Handle(s, op).limits == s.limits
    ensures op.Sweep? ==> Handle(s, op) == s.(limits := RateLimiter.Apply(s.limits, Cleanup(op.now)))
  {
    RunSteps(s.limits, Cleanup(op.now), Cleanup(op.now));
  }

  /** Every request for a code from a valid phone counts against its IP, sent or not. */
  lemma SendsAreCounted(s: State, op: Op)
    requires op.SendVerification?
    ensures Handle(s, op).limits
         == if 7 <= |op.phone| <= 15 then RateLimiter.Apply(s.limits, SendCode(op.ip, op.now)) else s.limits
  {
    RunSteps(s.limits, SendCode(op.ip, op.now), Cleanup(op.now));
  }

  // ── The lockout, from the handlers' point of view ──

  lemma {:induction false} RunAfter(l: Store, a: seq<Event>, b: seq<Event>)
    ensures RateLimiter.Run(l, a + b) == RateLimiter.Run(RateLimiter.Run(l, a), b)
    decreases |a|
  {
    if a == [] {
      assert a + b == b;
    } else {
      assert (a + b)[1..] == a[1..] + b;
      RunAfter(RateLimiter.Apply(l, a[0]), a[1..], b);
    }
  }

  /** The limiter's state is what the events of the handlers make of it. */
  lemma {:induction false} LimitsAreRun(s: State, ops: seq<Op>)
    ensures RunOps(s, ops).limits == RateLimiter.Run(s.limits, AllEvents(s, ops))
    decreases |ops|
  {
    if ops != [] {
      var s' := Handle(s, ops[0]);
      LimitsAreRun(s', ops[1..]);
      RunAfter(s.limits, LimiterEvents(s, ops[0]), AllEvents(s', ops[1..]));
    }
  }

  lemma {:induction false} LastEvent(clock: nat, es: seq<Event>, now: nat)
    requires Clocked(clock, es) && forall i | 0 <= i < |es| :: es[i].now <= now
    ensures es != [] ==> es[|es| - 1].now <= now
  {
  }

  lemma {:induction false} EventsUpTo(s: State, clock: nat, ops: seq<Op>, now: nat)
    requires Possible(s, clock, ops) && EndOf(clock, ops) <= now
    ensures forall i | 0 <= i < |AllEvents(s, ops)| :: AllEvents(s, ops)[i].now <= now
    decreases |ops|
  {
    if ops != [] {
      var s', es := Handle(s, ops[0]), LimiterEvents(s, ops[0]);
      HandlerShape(s, ops[0]);
      OpsAscend(s', ops[0].now, ops[1..]);
      EventsUpTo(s', ops[0].now, ops[1..], now);
      forall i | 0 <= i < |es| ensures es[i].now <= now { assert es[i] in es; }
    }
  }

  lemma {:induction false} OpsAscend(s: State, clock: nat, ops: seq<Op>)
    requires Possible(s, clock, ops)
    ensures clock <= EndOf(clock, ops)
    decreases |ops|
  {
    if ops != [] { OpsAscend(Handle(s, ops[0]), ops[0].now, ops[1..]); }
  }

  lemma LockedStatus(s: State, op: Op)
    requires op.CodeLogin? || op.PasswordLogin? || op.Accept?
    ensures HttpStatus(s, op) == 429 <==> Reply(s.limits, CheckLogin(op.phone, op.now)) != Some(Allowed)
  {
  }

  lemma ApiReply(ops: seq<Op>, phone: string, now: nat)
    requires Possible(Start, 0, ops) && EndOf(0, ops) <= now
    ensures var strikes := Strikes([], AllEvents(Start, ops), phone);
            Reply(RunOps(Start, ops).limits, CheckLogin(phone, now)) != Some(Allowed)
            <==> |strikes| >= 5 && now <= strikes[|strikes| - 1] + 900000
  {
    var es := AllEvents(Start, ops);
    HandlersAreDisciplined(Start, map[], 0, ops);
    LimitsAreRun(Start, ops);
    EventsUpTo(Start, 0, ops, now);
    LastEvent(0, es, now);
    LockoutExactly(true, es, phone, now);
  }

  /**
   In every run of the handlers a login of any kind is told to wait exactly when its phone has failed five
   times or more since its last success or outwaited lock, and the last time at most fifteen
   minutes ago.
   */
  lemma ApiLockoutExactly(ops: seq<Op>, op: Op)
    requires Possible(Start, 0, ops) && EndOf(0, ops) <= op.now && (op.CodeLogin? || op.PasswordLogin? || op.Accept?)
    ensures var strikes := Strikes([], AllEvents(Start, ops), op.phone);
            HttpStatus(RunOps(Start, ops), op) == 429
            <==> |strikes| >= 5 && op.now <= strikes[|strikes| - 1] + 900000
  {
    LockedStatus(RunOps(Start, ops), op);
    ApiReply(ops, op.phone, op.now);
  }
}
