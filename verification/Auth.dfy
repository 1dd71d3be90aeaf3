/**
 Phone authentication and workspace invitations (admin-api/src/routes/auth.ts and
 admin-api/src/routes/invitations.ts) on top of the rate limiter.  Each handler is one
 atomic step; application and database share one non-decreasing clock in milliseconds, but
 the database keeps and compares whole seconds.
 */
module Auth {
  import opened Wrappers
  import opened RateLimiter

  const COOLDOWN: nat := 60 * 1000
  const CODE_LIFETIME: nat := 5 * 60 * 1000
  const DAY: nat := 24 * 60 * 60 * 1000
  const CODES_PER_DAY: nat := 10

  /** NOW(), and CURRENT_TIMESTAMP in a TIMESTAMP column: whole seconds. */
  function Second(now: nat): nat {
    now - now % 1000
  }

  /** A time with milliseconds stored in a TIMESTAMP column is rounded to whole seconds. */
  function Rounded(time: nat): nat {
    Second(time + 500)
  }

  datatype Code = Code(id: string, phone: string, text: string, createdAt: nat, expiresAt: nat, used: bool)

  datatype Status = Active | Accepted | Revoked
  datatype Invitation = Invitation(
    id: string, workspace: string, code: string, role: string, expiresAt: nat, maxUses: int, useCount: int,
    status: Status, acceptedBy: Option<string>)

  datatype User = User(id: string, hasPassword: bool)

  /** The role of each member, by workspace and user. */
  type Members = map<(string, string), string>

  datatype State = State(
    codes: seq<Code>, invitations: seq<Invitation>, users: map<string, User>, members: Members,
    limits: Store)

  datatype Op =
    | SendVerification(phone: string, ip: string, now: nat, id: string, text: string)
    | CodeLogin(phone: string, text: string, now: nat, newUser: string, newWorkspace: string)
    | PasswordLogin(phone: string, valid: bool, now: nat)   // valid: what the password comparison says
    | SetPassword(user: string, signedIn: bool, length: nat, now: nat)   // signedIn: a valid token for the user
    | Invite(id: string, workspace: string, code: string, role: string, expiresAt: nat, maxUses: int, manager: bool,
             now: nat)
    | Revoke(id: string, workspace: string, now: nat)
    | Accept(code: string, phone: string, text: string, now: nat, newUser: string, newWorkspace: string)
    | Sweep(now: nat)

  // ── Verification codes ──

  function NewCode(id: string, phone: string, text: string, now: nat): Code {
    Code(id, phone, text, Second(now), Rounded(now + CODE_LIFETIME), false)
  }

  predicate Usable(c: Code, phone: string, now: nat) {
    c.phone == phone && !c.used && c.expiresAt > Second(now)
  }

  /** `ORDER BY created_at DESC LIMIT 1` over the usable codes of a phone. */
  function Newest(codes: seq<Code>, phone: string, now: nat): (r: Option<nat>)
    ensures r.Some? ==> r.value < |codes| && Usable(codes[r.value], phone, now)
    ensures r.Some? ==> forall j | 0 <= j < |codes| && Usable(codes[j], phone, now) ::
                codes[j].createdAt <= codes[r.value].createdAt
    ensures r.None? ==> forall j | 0 <= j < |codes| :: !Usable(codes[j], phone, now)
  {
    if codes == [] then None
    else
      var n := |codes| - 1;
      var r := Newest(codes[..n], phone, now);
      if Usable(codes[n], phone, now) && (r.None? || codes[r.value].createdAt <= codes[n].createdAt) then Some(n) else r
  }

  /** The code a submitted text redeems, if any. */
  function Redeems(codes: seq<Code>, phone: string, text: string, now: nat): (r: Option<nat>)
    ensures r.Some? ==> r.value < |codes|
  {
    var n := Newest(codes, phone, now);
    if n.Some? && codes[n.value].text == text then n else None
  }

  function Use(codes: seq<Code>, i: nat): seq<Code>
    requires i < |codes|
  {
    codes[i := codes[i].(used := true)]
  }

  predicate Recent(codes: seq<Code>, phone: string, now: nat) {
    exists c | c in codes :: c.phone == phone && c.createdAt > Second(now) - COOLDOWN
  }

  function CountAfter(codes: seq<Code>, phone: string, since: int): nat {
    if codes == [] then 0
    else
      var n := |codes| - 1;
      CountAfter(codes[..n], phone, since) + if codes[n].phone == phone && codes[n].createdAt > since then 1 else 0
  }

  function Midnight(now: nat): nat {
    now - now % DAY
  }

  const MIN_PASSWORD: nat := 6

  predicate HasUser(users: map<string, User>, id: string) {
    exists phone | phone in users :: users[phone].id == id
  }

  predicate HasPassword(users: map<string, User>, id: string) {
    exists phone | phone in users :: users[phone].id == id && users[phone].hasPassword
  }

  function WithPassword(users: map<string, User>, id: string): map<string, User> {
    map phone | phone in users ::
      if users[phone].id == id then users[phone].(hasPassword := true) else users[phone]
  }

  predicate ValidPhone(phone: string) {
    7 <= |phone| <= 15
  }

  // ── Invitations ──

  function Open(invitations: seq<Invitation>, code: string, now: nat): (r: Option<nat>)
    ensures r.Some? ==> r.value < |invitations| && invitations[r.value].code == code
    ensures r.Some? ==> invitations[r.value].status == Active && invitations[r.value].expiresAt > Second(now)
    ensures r.None? ==> forall i | 0 <= i < |invitations| ::
                !(invitations[i].code == code && invitations[i].status == Active
                  && invitations[i].expiresAt > Second(now))
  {
    if invitations == [] then None
    else if invitations[0].code == code && invitations[0].status == Active && invitations[0].expiresAt > Second(now)
    then Some(0)
    else
      var r := Open(invitations[1..], code, now);
      if r.Some? then Some(r.value + 1) else None
  }

  function Redeemed(i: Invitation, user: string): Invitation {
    var count := i.useCount + 1;
    i.(useCount := count, acceptedBy := Some(user), status := if count >= i.maxUses then Accepted else Active)
  }

  predicate Revocable(i: Invitation, id: string, workspace: string) {
    i.id == id && i.workspace == workspace && i.status == Active
  }

  function RevokeIn(invitations: seq<Invitation>, id: string, workspace: string): (r: seq<Invitation>)
    ensures |r| == |invitations|
    ensures forall k | 0 <= k < |r| ::
              r[k] == if Revocable(invitations[k], id, workspace) then invitations[k].(status := Revoked)
              else invitations[k]
  {
    if invitations == [] then []
    else [if Revocable(invitations[0], id, workspace) then invitations[0].(status := Revoked) else invitations[0]]
         + RevokeIn(invitations[1..], id, workspace)
  }

  // ── Handlers as one step each ──

  predicate Locked(s: State, phone: string, now: nat) {
    Reply(s.limits, CheckLogin(phone, now)) != Some(Allowed)
  }

  /** The invitation an acceptance would redeem, before the SMS code is looked at. */
  function Target(s: State, op: Op): Option<nat>
    requires op.Accept?
  {
    var i := Open(s.invitations, op.code, op.now);
    if i.Some? && s.invitations[i.value].useCount < s.invitations[i.value].maxUses then i else None
  }

  /** What the handler asks of the limiter, in order. */
  function LimiterEvents(s: State, op: Op): seq<Event> {
    match op
    case SendVerification(phone, ip, now, _, _) => if ValidPhone(phone) then [SendCode(ip, now)] else []
    case CodeLogin(phone, text, now, _, _) =>
      [CheckLogin(phone, now)]
      + if Locked(s, phone, now) then []
      else if Redeems(s.codes, phone, text, now).Some? then [Success(phone, now)] else [Failure(phone, now)]
    case PasswordLogin(phone, valid, now) =>
      [CheckLogin(phone, now)]
      + if Locked(s, phone, now) || phone !in s.users || !s.users[phone].hasPassword then []
      else if valid then [Success(phone, now)] else [Failure(phone, now)]
    case Accept(_, phone, text, now, _, _) =>
      [CheckLogin(phone, now)]
      + if Locked(s, phone, now) || Target(s, op).None? then []
      else if Redeems(s.codes, phone, text, now).Some? then [Success(phone, now)] else [Failure(phone, now)]
    case Sweep(now) => [Cleanup(now)]
    case _ => []
  }

  function HttpStatus(s: State, op: Op): nat {
    match op
    case SendVerification(phone, ip, now, _, _) =>
      if !ValidPhone(phone) then 400
      else if Reply(s.limits, SendCode(ip, now)) != Some(Allowed) then 429
      else if Recent(s.codes, phone, now) then 429
      else if CountAfter(s.codes, phone, Midnight(now)) >= CODES_PER_DAY then 429
      else 200
    case CodeLogin(phone, text, now, _, _) =>
      if Locked(s, phone, now) then 429 else if Redeems(s.codes, phone, text, now).None? then 401 else 200
    case PasswordLogin(phone, valid, now) =>
      if Locked(s, phone, now) then 429
      else if phone !in s.users || !s.users[phone].hasPassword || !valid then 401
      else 200
    case SetPassword(user, signedIn, length, _) =>
      if !signedIn then 401
      else if length < MIN_PASSWORD then 400
      else if !HasUser(s.users, user) then 404
      else if HasPassword(s.users, user) then 400
      else 200
    case Invite(_, _, code, _, _, _, manager, _) =>
      if !manager then 403 else if exists i | i in s.invitations :: i.code == code then 500 else 201
    case Revoke(id, workspace, _) =>
      if exists i | i in s.invitations :: Revocable(i, id, workspace) then 200 else 404
    case Accept(code, phone, text, now, _, _) =>
      if Locked(s, phone, now) then 429
      else if Open(s.invitations, code, now).None? then 404
      else if Target(s, op).None? then 400
      else if Redeems(s.codes, phone, text, now).None? then 401
      else 200
    case Sweep(_) => 200
  }

  /** An insert into the membership table: a duplicate is refused, and the old row stays. */
  function Enrol(members: Members, who: (string, string), role: string): Members {
    if who in members then members else members[who := role]
  }

  /** Find or register the user of a phone, with a workspace of their own. */
  function Registered(s: State, phone: string, newUser: string, newWorkspace: string): State {
    if phone in s.users then s
    else s.(users := s.users[phone := User(newUser, false)],
         members := Enrol(s.members, (newWorkspace, newUser), "owner"))
  }

  function Handle(s: State, op: Op): State {
    var t := s.(limits := RateLimiter.Run(s.limits, LimiterEvents(s, op)));
    if HttpStatus(s, op) >= 400 then t else
    match op
    case SendVerification(phone, _, now, id, text) =>
      t.(codes := s.codes + [NewCode(id, phone, text, now)])
    case CodeLogin(phone, text, now, newUser, newWorkspace) =>
      Registered(t.(codes := Use(s.codes, Redeems(s.codes, phone, text, now).value)), phone, newUser, newWorkspace)
    case PasswordLogin(_, _, _) => t
    case SetPassword(user, _, _, _) => t.(users := WithPassword(s.users, user))
    case Invite(id, workspace, code, role, expiresAt, maxUses, _, _) =>
      t.(invitations := s.invitations + [Invitation(id, workspace, code, role, expiresAt, maxUses, 0, Active, None)])
    case Revoke(id, workspace, _) => t.(invitations := RevokeIn(s.invitations, id, workspace))
    case Accept(_, phone, text, now, newUser, newWorkspace) =>
      var i := Target(s, op).value;
      var r := Registered(t.(codes := Use(s.codes, Redeems(s.codes, phone, text, now).value)), phone, newUser,
                          newWorkspace);
      var user := r.users[phone].id;
      r.(members := Enrol(r.members, (s.invitations[i].workspace, user), s.invitations[i].role),
      invitations := s.invitations[i := Redeemed(s.invitations[i], user)])
    case Sweep(_) => t
  }

  lemma RunSteps(l: Store, a: Event, b: Event)
    ensures RateLimiter.Run(l, [a]) == RateLimiter.Apply(l, a)
    ensures RateLimiter.Run(l, [a] + []) == RateLimiter.Apply(l, a)
    ensures RateLimiter.Run(l, [a] + [b]) == RateLimiter.Apply(RateLimiter.Apply(l, a), b)
  {
    assert [a] + [] == [a] && [a][1..] == [] && [b][1..] == [];
    var both := [a] + [b];
    assert both[0] == a && both[1..] == [b];
    var m := RateLimiter.Apply(l, a);
    assert RateLimiter.Run(m, []) == m;
    assert RateLimiter.Run(m, [b]) == RateLimiter.Run(RateLimiter.Apply(m, b), []) == RateLimiter.Apply(m, b);
    assert RateLimiter.Run(l, both) == RateLimiter.Run(m, [b]);
  }

  // ── The handlers over their tables ──

  class AuthService {
    var codes: seq<Code>
    var invitations: seq<Invitation>
    var users: map<string, User>
    var members: Members
    const limiter: Limiter

    constructor ()
      ensures fresh(limiter) && View() == Start
    {
      codes, invitations, users, members := [], [], map[], map[];
      limiter := new Limiter();
    }

    ghost function View(): State
      reads this, limiter
    {
      State(codes, invitations, users, members, limiter.View())
    }

    method SendVerificationCode(op: Op) returns (status: nat)
      requires op.SendVerification?
      modifies this, limiter
      ensures status == HttpStatus(old(View()), op) && View() == Handle(old(View()), op)
    {
      if !ValidPhone(op.phone) { return 400; }
      var ipCheck := limiter.CheckSendCodeLimit(op.ip, op.now);
      RunSteps(old(limiter.View()), SendCode(op.ip, op.now), Cleanup(op.now));
      if !ipCheck.Allowed? { return 429; }
      if Recent(codes, op.phone, op.now) { return 429; }
      if CountAfter(codes, op.phone, Midnight(op.now)) >= CODES_PER_DAY { return 429; }
      codes := codes + [NewCode(op.id, op.phone, op.text, op.now)];
      return 200;
    }

    method Register(phone: string, newUser: string, newWorkspace: string)
      modifies this`users, this`members
      ensures View() == Registered(old(View()), phone, newUser, newWorkspace)
    {
      if phone !in users {
        users := users[phone := User(newUser, false)];
        members := Enrol(members, (newWorkspace, newUser), "owner");
      }
    }

    method LoginWithCode(op: Op) returns (status: nat)
      requires op.CodeLogin?
      modifies this, limiter
      ensures status == HttpStatus(old(View()), op) && View() == Handle(old(View()), op)
    {
      var lockout := limiter.CheckLoginLockout(op.phone, op.now);
      RunSteps(old(limiter.View()), CheckLogin(op.phone, op.now), Failure(op.phone, op.now));
      RunSteps(old(limiter.View()), CheckLogin(op.phone, op.now), Success(op.phone, op.now));
      if !lockout.Allowed? { return 429; }
      var newest := Newest(codes, op.phone, op.now);
      if newest.None? {
        limiter.RecordLoginFailure(op.phone, op.now);
        return 401;
      }
      if codes[newest.value].text != op.text {
        limiter.RecordLoginFailure(op.phone, op.now);
        return 401;
      }
      codes := Use(codes, newest.value);
      limiter.ResetLoginFailures(op.phone, op.now);
      Register(op.phone, op.newUser, op.newWorkspace);
      return 200;
    }

    method LoginWithPassword(op: Op) returns (status: nat)
      requires op.PasswordLogin?
      modifies this, limiter
      ensures status == HttpStatus(old(View()), op) && View() == Handle(old(View()), op)
    {
      var lockout := limiter.CheckLoginLockout(op.phone, op.now);
      RunSteps(old(limiter.View()), CheckLogin(op.phone, op.now), Failure(op.phone, op.now));
      RunSteps(old(limiter.View()), CheckLogin(op.phone, op.now), Success(op.phone, op.now));
      if !lockout.Allowed? { return 429; }
      if op.phone !in users || !users[op.phone].hasPassword { return 401; }
      if !op.valid {
        limiter.RecordLoginFailure(op.phone, op.now);
        return 401;
      }
      limiter.ResetLoginFailures(op.phone, op.now);
      return 200;
    }

    method SetNewPassword(op: Op) returns (status: nat)
      requires op.SetPassword?
      modifies this
      ensures status == HttpStatus(old(View()), op) && View() == Handle(old(View()), op)
    {
      if !op.signedIn { return 401; }
      if op.length < MIN_PASSWORD { return 400; }
      if !HasUser(users, op.user) { return 404; }
      if HasPassword(users, op.user) { return 400; }
      users := WithPassword(users, op.user);
      return 200;
    }

    method CreateInvitation(op: Op) returns (status: nat)
      requires op.Invite?
      modifies this
      ensures status == HttpStatus(old(View()), op) && View() == Handle(old(View()), op)
    {
      if !op.manager { return 403; }
      if exists i | i in invitations :: i.code == op.code { return 500; }
      invitations := invitations
      + [Invitation(op.id, op.workspace, op.code, op.role, op.expiresAt, op.maxUses, 0, Active, None)];
      return 201;
    }

    method RevokeInvitation(op: Op) returns (status: nat)
      requires op.Revoke?
      modifies this
      ensures status == HttpStatus(old(View()), op) && View() == Handle(old(View()), op)
    {
      if !exists i | i in invitations :: Revocable(i, op.id, op.workspace) { return 404; }
      invitations := RevokeIn(invitations, op.id, op.workspace);
      return 200;
    }

    method AcceptInvitation(op: Op) returns (status: nat)
      requires op.Accept?
      modifies this, limiter
      ensures status == HttpStatus(old(View()), op) && View() == Handle(old(View()), op)
    {
      var lockout := limiter.CheckLoginLockout(op.phone, op.now);
      RunSteps(old(limiter.View()), CheckLogin(op.phone, op.now), Failure(op.phone, op.now));
      RunSteps(old(limiter.View()), CheckLogin(op.phone, op.now), Success(op.phone, op.now));
      if !lockout.Allowed? { return 429; }
      var found := Open(invitations, op.code, op.now);
      if found.None? { return 404; }
      var invitation := invitations[found.value];
      if invitation.useCount >= invitation.maxUses { return 400; }
      var newest := Newest(codes, op.phone, op.now);
      if newest.None? {
        limiter.RecordLoginFailure(op.phone, op.now);
        return 401;
      }
      if codes[newest.value].text != op.text {
        limiter.RecordLoginFailure(op.phone, op.now);
        return 401;
      }
      codes := Use(codes, newest.value);
      limiter.ResetLoginFailures(op.phone, op.now);
      Register(op.phone, op.newUser, op.newWorkspace);
      var user := users[op.phone].id;
      members := Enrol(members, (invitation.workspace, user), invitation.role);
      invitations := invitations[found.value := Redeemed(invitation, user)];
      return 200;
    }
  }

  const Start := State([], [], map[], map[], Empty)

  // ── Runs ──

  /** Clock order, and ids fresh for their tables. */
  predicate Possible(s: State, clock: nat, ops: seq<Op>)
    decreases |ops|
  {
    ops == []
    || (clock <= ops[0].now
        && (ops[0].SendVerification? ==> forall c | c in s.codes :: c.id != ops[0].id)
        && (ops[0].Invite? ==> forall i | i in s.invitations :: i.id != ops[0].id)
        && Possible(Handle(s, ops[0]), ops[0].now, ops[1..]))
  }

  function RunOps(s: State, ops: seq<Op>): State
    decreases |ops|
  {
    if ops == [] then s else RunOps(Handle(s, ops[0]), ops[1..])
  }

  // ── Codes: spacing, and at most five alive ──

  /** Whole seconds; the expiry five minutes later, or a second more when it was rounded up. */
  predicate TimesOk(c: Code) {
    c.createdAt % 1000 == 0
    && (c.expiresAt == c.createdAt + CODE_LIFETIME || c.expiresAt == c.createdAt + CODE_LIFETIME + 1000)
  }

  lemma SecondFacts(now: nat)
    ensures Second(now) % 1000 == 0 && Second(now) <= now < Second(now) + 1000
    ensures forall time: nat | time % 1000 == 0 && time <= now :: time <= Second(now)
  {
  }

  lemma NewCodeTimes(id: string, phone: string, text: string, now: nat)
    ensures TimesOk(NewCode(id, phone, text, now))
    ensures NewCode(id, phone, text, now).expiresAt
         == Second(now) + CODE_LIFETIME + if now % 1000 >= 500 then 1000 else 0
  {
    var r, q := now % 1000, now / 1000;
    assert now + CODE_LIFETIME + 500 == (q + 300) * 1000 + r + 500;
    Remainder1000(q + 300, r + 500);
  }

  lemma Remainder1000(q: nat, r: nat)
    ensures (q * 1000 + r) % 1000 == r % 1000
  {
  }

  ghost predicate CodesOk(codes: seq<Code>, clock: nat) {
    (forall i | 0 <= i < |codes| :: codes[i].createdAt <= clock && TimesOk(codes[i]))
    && (forall i, j | 0 <= i < j < |codes| :: codes[i].id != codes[j].id)
    && (forall i, j | 0 <= i < j < |codes| && codes[i].phone == codes[j].phone ::
          codes[i].createdAt + COOLDOWN <= codes[j].createdAt)
  }

  /** The unexpired codes of a phone, used or not. */
  function Alive(codes: seq<Code>, phone: string, now: nat): seq<Code> {
    if codes == [] then []
    else
      var n := |codes| - 1;
      Alive(codes[..n], phone, now)
      + if codes[n].phone == phone && codes[n].expiresAt > Second(now) then [codes[n]] else []
  }

  ghost predicate Spaced(codes: seq<Code>) {
    forall i, j | 0 <= i < j < |codes| :: codes[i].createdAt + (j - i) * COOLDOWN <= codes[j].createdAt
  }

  lemma {:induction false} AliveFacts(codes: seq<Code>, phone: string, now: nat)
    ensures forall c | c in Alive(codes, phone, now) :: c in codes && c.phone == phone && c.expiresAt > Second(now)
  {
    if codes != [] { AliveFacts(codes[..|codes| - 1], phone, now); }
  }

  lemma {:induction false} AliveSpaced(codes: seq<Code>, clock: nat, phone: string, now: nat)
    requires CodesOk(codes, clock)
    ensures Spaced(Alive(codes, phone, now))
  {
    if codes != [] {
      var n := |codes| - 1;
      AliveSpaced(codes[..n], clock, phone, now);
      AliveFacts(codes[..n], phone, now);
      var a := Alive(codes[..n], phone, now);
      if codes[n].phone == phone && codes[n].expiresAt > Second(now) && a != [] {
        var last := a[|a| - 1];
        var k :| 0 <= k < n && codes[..n][k] == last;
        assert codes[k].createdAt + COOLDOWN <= codes[n].createdAt;
        AppendSpaced(a, codes[n]);
      }
    }
  }

  lemma AppendSpaced(a: seq<Code>, c: Code)
    requires Spaced(a) && a != [] && a[|a| - 1].createdAt + COOLDOWN <= c.createdAt
    ensures Spaced(a + [c])
  {
    var n := |a|;
    forall i | 0 <= i < n ensures (a + [c])[i].createdAt + (n - i) * COOLDOWN <= c.createdAt {
      assert a[i].createdAt + (n - 1 - i) * COOLDOWN <= a[n - 1].createdAt;
      assert (n - i) * COOLDOWN == (n - 1 - i) * COOLDOWN + COOLDOWN;
    }
  }

  lemma UseCodesOk(codes: seq<Code>, clock: nat, i: nat)
    requires CodesOk(codes, clock) && i < |codes|
    ensures CodesOk(Use(codes, i), clock)
  {
  }

  /** The cooldown check is what keeps the codes of a phone apart. */
  lemma AppendCodesOk(codes: seq<Code>, clock: nat, c: Code, now: nat)
    requires CodesOk(codes, clock) && clock <= now && c.createdAt == Second(now) && TimesOk(c)
    requires (forall o | o in codes :: o.id != c.id) && !Recent(codes, c.phone, now)
    ensures CodesOk(codes + [c], now)
  {
    SecondFacts(now);
    forall i | 0 <= i < |codes|
      ensures codes[i].id != c.id && (codes[i].phone == c.phone ==> codes[i].createdAt + COOLDOWN <= c.createdAt)
    {
      assert codes[i] in codes;
    }
  }

  /** What a handler does to the code table. */
  lemma HandleCodes(s: State, op: Op)
    ensures var codes := Handle(s, op).codes;
            if op.SendVerification? && HttpStatus(s, op) == 200 then
              codes == s.codes + [NewCode(op.id, op.phone, op.text, op.now)]
            else if (op.CodeLogin? || op.Accept?) && HttpStatus(s, op) == 200 then
              codes == Use(s.codes, Redeems(s.codes, op.phone, op.text, op.now).value)
            else codes == s.codes
  {
  }

  lemma HandleCodesOk(s: State, clock: nat, op: Op)
    requires CodesOk(s.codes, clock) && clock <= op.now
    requires op.SendVerification? ==> forall c | c in s.codes :: c.id != op.id
    ensures CodesOk(Handle(s, op).codes, op.now)
  {
    HandleCodes(s, op);
    if op.SendVerification? && HttpStatus(s, op) == 200 {
      NewCodeTimes(op.id, op.phone, op.text, op.now);
      AppendCodesOk(s.codes, clock, NewCode(op.id, op.phone, op.text, op.now), op.now);
    } else if (op.CodeLogin? || op.Accept?) && HttpStatus(s, op) == 200 {
      UseCodesOk(s.codes, clock, Redeems(s.codes, op.phone, op.text, op.now).value);
    }
  }

  function EndOf(clock: nat, ops: seq<Op>): nat {
    if ops == [] then clock else ops[|ops| - 1].now
  }

  lemma {:induction false} RunCodesOk(s: State, clock: nat, ops: seq<Op>)
    requires CodesOk(s.codes, clock) && Possible(s, clock, ops)
    ensures CodesOk(RunOps(s, ops).codes, EndOf(clock, ops))
    decreases |ops|
  {
    if ops != [] {
      HandleCodesOk(s, clock, ops[0]);
      RunCodesOk(Handle(s, ops[0]), ops[0].now, ops[1..]);
    }
  }

  /**
   In every reachable state a phone has at most five unexpired codes, but for one second: a sixth
   is still there when its rounded-up expiry outlasts its five minutes.
   */
  lemma AtMostFiveAlive(ops: seq<Op>, phone: string, now: nat)
    requires Possible(Start, 0, ops) && EndOf(0, ops) <= now
    ensures var alive := Alive(RunOps(Start, ops).codes, phone, now);
            && |alive| <= 6
            && (|alive| == 6 ==>
                  alive[0].createdAt + CODE_LIFETIME == Second(now) && alive[0].expiresAt == Second(now) + 1000)
  {
    RunCodesOk(Start, 0, ops);
    var codes := RunOps(Start, ops).codes;
    var a := Alive(codes, phone, now);
    AliveSpaced(codes, EndOf(0, ops), phone, now);
    AliveFacts(codes, phone, now);
    SecondFacts(now);
    forall i | 0 <= i < |a| ensures TimesOk(a[i]) && a[i].expiresAt > Second(now) && a[i].createdAt <= Second(now) {
      assert a[i] in codes;
    }
    SpacedLength(a, Second(now));
  }

  lemma SpacedLength(a: seq<Code>, second: nat)
    requires Spaced(a) && second % 1000 == 0
    requires forall i | 0 <= i < |a| :: TimesOk(a[i]) && a[i].expiresAt > second && a[i].createdAt <= second
    ensures |a| <= 6
    ensures |a| == 6 ==> a[0].createdAt + CODE_LIFETIME == second && a[0].expiresAt == second + 1000
  {
    if |a| > 5 { Apart(a, 5); }
    if |a| > 6 { Apart(a, 6); }
  }

  lemma Apart(a: seq<Code>, j: nat)
    requires Spaced(a) && 0 < j < |a|
    ensures a[0].createdAt + j * COOLDOWN <= a[j].createdAt
  {
    assert a[0].createdAt + (j - 0) * COOLDOWN <= a[j].createdAt;
  }

  // ── Codes per day ──

  function CountBetween(codes: seq<Code>, phone: string, from: int, to: int): nat {
    if codes == [] then 0
    else
      var n := |codes| - 1;
      CountBetween(codes[..n], phone, from, to)
      + if codes[n].phone == phone && from < codes[n].createdAt < to then 1 else 0
  }

  /** The codes of the day that begins at midnight, its first second included. */
  function CountOfDay(codes: seq<Code>, phone: string, midnight: nat): nat {
    CountBetween(codes, phone, midnight - 1, midnight + DAY)
  }

  /** What the limit counts: the first second of the day is left out. */
  function CountAfterMidnight(codes: seq<Code>, phone: string, midnight: nat): nat {
    CountBetween(codes, phone, midnight, midnight + DAY)
  }

  ghost predicate DayLimitOk(codes: seq<Code>) {
    forall phone, midnight: nat :: midnight % DAY == 0 ==> CountAfterMidnight(codes, phone, midnight) <= CODES_PER_DAY
  }

  lemma {:induction false} CountTodayIsBetween(codes: seq<Code>, phone: string, from: int, to: int)
    requires forall i | 0 <= i < |codes| :: codes[i].createdAt < to
    ensures CountBetween(codes, phone, from, to) == CountAfter(codes, phone, from)
  {
    if codes != [] { CountTodayIsBetween(codes[..|codes| - 1], phone, from, to); }
  }

  lemma {:induction false} UseKeepsCount(codes: seq<Code>, i: nat, phone: string, from: int, to: int)
    requires i < |codes|
    ensures CountBetween(Use(codes, i), phone, from, to) == CountBetween(codes, phone, from, to)
  {
    var n := |codes| - 1;
    if i < n {
      assert Use(codes, i)[..n] == Use(codes[..n], i);
      UseKeepsCount(codes[..n], i, phone, from, to);
    } else {
      assert Use(codes, i)[..n] == codes[..n];
    }
  }

  lemma SameDay(now: nat, midnight: nat)
    requires midnight % DAY == 0 && midnight < now < midnight + DAY
    ensures Midnight(now) == midnight
  {
    assert now == midnight + (now - midnight);
    assert now % DAY == now - midnight by {
      var q := midnight / DAY;
      assert midnight == q * DAY;
      Remainder(q, now - midnight);
    }
  }

  lemma Remainder(q: nat, r: nat)
    requires r < DAY
    ensures (q * DAY + r) % DAY == r
  {
  }

  /** A whole second belongs to the day of its milliseconds. */
  lemma MidnightOfSecond(now: nat)
    ensures Midnight(Second(now)) == Midnight(now)
  {
    var day, rest := now / DAY, now % DAY;
    assert now == day * DAY + rest && day * DAY == (day * 86400) * 1000;
    Remainder1000(day * 86400, rest);
    assert Second(now) == day * DAY + Second(rest);
    Remainder(day, Second(rest));
  }

  lemma AppendDayLimit(codes: seq<Code>, clock: nat, c: Code, now: nat)
    requires CodesOk(codes, clock) && DayLimitOk(codes) && clock <= now && c.createdAt == Second(now)
    requires CountAfter(codes, c.phone, Midnight(now)) < CODES_PER_DAY
    ensures DayLimitOk(codes + [c])
  {
    assert (codes + [c])[..|codes|] == codes;
    forall phone, midnight: nat | midnight % DAY == 0
      ensures CountAfterMidnight(codes + [c], phone, midnight) <= CODES_PER_DAY {
      assert CountAfterMidnight(codes, phone, midnight) <= CODES_PER_DAY;
      if phone == c.phone && midnight < c.createdAt < midnight + DAY {
        SameDay(c.createdAt, midnight);
        MidnightOfSecond(now);
        NoneTomorrow(codes, clock, now);
        CountTodayIsBetween(codes, phone, midnight, midnight + DAY);
      }
    }
  }

  lemma NoneTomorrow(codes: seq<Code>, clock: nat, now: nat)
    requires CodesOk(codes, clock) && clock <= now
    ensures forall i | 0 <= i < |codes| :: codes[i].createdAt < Midnight(now) + DAY
  {
  }

  lemma UseDayLimit(codes: seq<Code>, i: nat)
    requires DayLimitOk(codes) && i < |codes|
    ensures DayLimitOk(Use(codes, i))
  {
    forall phone, midnight: nat | midnight % DAY == 0
      ensures CountAfterMidnight(Use(codes, i), phone, midnight) <= CODES_PER_DAY {
      assert CountAfterMidnight(codes, phone, midnight) <= CODES_PER_DAY;
      UseKeepsCount(codes, i, phone, midnight, midnight + DAY);
    }
  }

  lemma HandleDayLimit(s: State, clock: nat, op: Op)
    requires CodesOk(s.codes, clock) && DayLimitOk(s.codes) && clock <= op.now
    ensures DayLimitOk(Handle(s, op).codes)
  {
    HandleCodes(s, op);
    if op.SendVerification? && HttpStatus(s, op) == 200 {
      AppendDayLimit(s.codes, clock, NewCode(op.id, op.phone, op.text, op.now), op.now);
    } else if (op.CodeLogin? || op.Accept?) && HttpStatus(s, op) == 200 {
      UseDayLimit(s.codes, Redeems(s.codes, op.phone, op.text, op.now).value);
    }
  }

  lemma {:induction false} RunDayLimit(s: State, clock: nat, ops: seq<Op>)
    requires CodesOk(s.codes, clock) && DayLimitOk(s.codes) && Possible(s, clock, ops)
    ensures DayLimitOk(RunOps(s, ops).codes)
    decreases |ops|
  {
    if ops != [] {
      HandleCodesOk(s, clock, ops[0]);
      HandleDayLimit(s, clock, ops[0]);
      RunDayLimit(Handle(s, ops[0]), ops[0].now, ops[1..]);
    }
  }

  lemma {:induction false} CountSplits(codes: seq<Code>, phone: string, from: int, at: int, to: int)
    requires from < at < to
    ensures CountBetween(codes, phone, from, to)
         == CountBetween(codes, phone, from, at + 1) + CountBetween(codes, phone, at, to)
  {
    if codes != [] { CountSplits(codes[..|codes| - 1], phone, from, at, to); }
  }

  lemma {:induction false} NoneBetween(codes: seq<Code>, phone: string, from: int, to: int)
    requires forall i | 0 <= i < |codes| && codes[i].phone == phone :: !(from < codes[i].createdAt < to)
    ensures CountBetween(codes, phone, from, to) == 0
  {
    if codes != [] { NoneBetween(codes[..|codes| - 1], phone, from, to); }
  }

  /** The cooldown leaves room for one code within any minute. */
  lemma {:induction false} OneAMinute(codes: seq<Code>, clock: nat, phone: string, from: int, to: int)
    requires CodesOk(codes, clock) && to - from <= COOLDOWN
    ensures CountBetween(codes, phone, from, to) <= 1
  {
    if codes != [] {
      var n := |codes| - 1;
      if codes[n].phone == phone && from < codes[n].createdAt < to {
        NoneBetween(codes[..n], phone, from, to);
      } else {
        OneAMinute(codes[..n], clock, phone, from, to);
      }
    }
  }

  /**
   Over every run a phone gets at most eleven codes within a day, and at most ten unless one
   of them was created in the second of midnight.
   */
  lemma AtMostTenADay(ops: seq<Op>, phone: string, midnight: nat)
    requires Possible(Start, 0, ops) && midnight % DAY == 0
    ensures var codes := RunOps(Start, ops).codes;
            && CountOfDay(codes, phone, midnight) <= 11
            && (CountOfDay(codes, phone, midnight) == 11 ==>
                  exists c :: c in codes && c.phone == phone && c.createdAt == midnight)
  {
    RunDayLimit(Start, 0, ops);
    RunCodesOk(Start, 0, ops);
    MidnightAddsOne(RunOps(Start, ops).codes, EndOf(0, ops), phone, midnight);
  }

  lemma MidnightAddsOne(codes: seq<Code>, clock: nat, phone: string, midnight: nat)
    requires CodesOk(codes, clock)
    ensures CountOfDay(codes, phone, midnight) <= CountAfterMidnight(codes, phone, midnight) + 1
    ensures CountOfDay(codes, phone, midnight) > CountAfterMidnight(codes, phone, midnight) ==>
              exists c :: c in codes && c.phone == phone && c.createdAt == midnight
  {
    CountSplits(codes, phone, midnight - 1, midnight, midnight + DAY);
    OneAMinute(codes, clock, phone, midnight - 1, midnight + 1);
    if !exists c :: c in codes && c.phone == phone && c.createdAt == midnight {
      forall i | 0 <= i < |codes| && codes[i].phone == phone ensures codes[i].createdAt != midnight {
        assert codes[i] in codes;
      }
      NoneBetween(codes, phone, midnight - 1, midnight + 1);
    }
  }

  // ── Codes are redeemed once, newest first ──

  /** The id of the code a step accepts. */
  function AcceptedCode(s: State, op: Op): Option<string> {
    if (op.CodeLogin? || op.Accept?) && HttpStatus(s, op) == 200
    then Some(s.codes[Redeems(s.codes, op.phone, op.text, op.now).value].id) else None
  }

  function AcceptedCodes(s: State, ops: seq<Op>): seq<string>
    decreases |ops|
  {
    if ops == [] then []
    else (if AcceptedCode(s, ops[0]).Some? then [AcceptedCode(s, ops[0]).value] else [])
         + AcceptedCodes(Handle(s, ops[0]), ops[1..])
  }

  /** An accepted code is the phone's newest unused, unexpired one, strictly newer than the others. */
  lemma AcceptedIsNewest(s: State, clock: nat, op: Op)
    requires CodesOk(s.codes, clock) && AcceptedCode(s, op).Some?
    ensures exists i | 0 <= i < |s.codes| ::
              s.codes[i].id == AcceptedCode(s, op).value && s.codes[i].text == op.text
              && Usable(s.codes[i], op.phone, op.now)
              && forall j | 0 <= j < |s.codes| && j != i && Usable(s.codes[j], op.phone, op.now) ::
                s.codes[j].createdAt < s.codes[i].createdAt
  {
    var i := Redeems(s.codes, op.phone, op.text, op.now).value;
    assert Usable(s.codes[i], op.phone, op.now);
  }

  ghost predicate UsedUp(codes: seq<Code>, id: string) {
    exists i | 0 <= i < |codes| :: codes[i].id == id && codes[i].used
  }

  /** A used code stays used and is not what the step accepts. */
  lemma StaysUsed(s: State, clock: nat, op: Op, id: string)
    requires CodesOk(s.codes, clock) && UsedUp(s.codes, id)
    ensures UsedUp(Handle(s, op).codes, id) && AcceptedCode(s, op) != Some(id)
  {
    HandleCodes(s, op);
    var i :| 0 <= i < |s.codes| && s.codes[i].id == id && s.codes[i].used;
    var after := Handle(s, op).codes;
    assert after[i].id == id && after[i].used;
    if AcceptedCode(s, op).Some? {
      var k := Redeems(s.codes, op.phone, op.text, op.now).value;
      assert s.codes[k].id != id;
    }
  }

  lemma {:induction false} UsedNeverAccepted(s: State, clock: nat, ops: seq<Op>, id: string)
    requires CodesOk(s.codes, clock) && Possible(s, clock, ops) && UsedUp(s.codes, id)
    ensures id !in AcceptedCodes(s, ops)
    decreases |ops|
  {
    if ops != [] {
      StaysUsed(s, clock, ops[0], id);
      HandleCodesOk(s, clock, ops[0]);
      UsedNeverAccepted(Handle(s, ops[0]), ops[0].now, ops[1..], id);
    }
  }

  /** Over any run no code is accepted twice, whether by logins or by invitations. */
  lemma {:induction false} CodesAreSingleUse(s: State, clock: nat, ops: seq<Op>)
    requires CodesOk(s.codes, clock) && Possible(s, clock, ops)
    ensures forall i, j | 0 <= i < j < |AcceptedCodes(s, ops)| :: AcceptedCodes(s, ops)[i] != AcceptedCodes(s, ops)[j]
    decreases |ops|
  {
    if ops != [] {
      var s' := Handle(s, ops[0]);
      HandleCodes(s, ops[0]);
      HandleCodesOk(s, clock, ops[0]);
      CodesAreSingleUse(s', ops[0].now, ops[1..]);
      if AcceptedCode(s, ops[0]).Some? {
        var k := Redeems(s.codes, ops[0].phone, ops[0].text, ops[0].now).value;
        assert s'.codes[k].id == AcceptedCode(s, ops[0]).value && s'.codes[k].used;
        UsedNeverAccepted(s', ops[0].now, ops[1..], AcceptedCode(s, ops[0]).value);
      }
    }
  }

  // ── Invitations ──

  function FindInvitation(invitations: seq<Invitation>, id: string): (r: Option<Invitation>)
    ensures r.Some? ==> r.value in invitations && r.value.id == id
    ensures r.None? ==> forall i | i in invitations :: i.id != id
  {
    if invitations == [] then None
    else if invitations[0].id == id then Some(invitations[0]) else FindInvitation(invitations[1..], id)
  }

  ghost predicate UniqueInvitations(invitations: seq<Invitation>) {
    forall i, j | 0 <= i < j < |invitations| :: invitations[i].id != invitations[j].id
  }

  /** Uses never pass the maximum, and `Accepted` means the maximum is reached. */
  predicate InvitationOk(i: Invitation) {
    if i.maxUses >= 1 then
      0 <= i.useCount <= i.maxUses
      && (i.status == Active ==> i.useCount < i.maxUses) && (i.status == Accepted ==> i.useCount == i.maxUses)
    else i.useCount == 0 && i.status != Accepted
  }

  /** The id of the invitation a step redeems. */
  function RedeemedId(s: State, op: Op): Option<string> {
    if op.Accept? && HttpStatus(s, op) == 200 then Some(s.invitations[Target(s, op).value].id) else None
  }

  function Acceptances(s: State, ops: seq<Op>, id: string): nat
    decreases |ops|
  {
    if ops == [] then 0
    else (if RedeemedId(s, ops[0]) == Some(id) then 1 else 0) + Acceptances(Handle(s, ops[0]), ops[1..], id)
  }

  lemma {:induction false} FindAt(invitations: seq<Invitation>, k: nat)
    requires UniqueInvitations(invitations) && k < |invitations|
    ensures FindInvitation(invitations, invitations[k].id) == Some(invitations[k])
  {
    if k > 0 {
      assert invitations[0].id != invitations[k].id;
      FindAt(invitations[1..], k - 1);
    }
  }

  /** What a handler does to the invitation table. */
  lemma HandleInvitations(s: State, op: Op)
    ensures var after := Handle(s, op).invitations;
            if op.Invite? && HttpStatus(s, op) == 201 then
              after == s.invitations
              + [Invitation(op.id, op.workspace, op.code, op.role, op.expiresAt, op.maxUses, 0, Active, None)]
            else if op.Revoke? && HttpStatus(s, op) == 200 then after == RevokeIn(s.invitations, op.id, op.workspace)
            else if RedeemedId(s, op).Some? then
              exists user ::
                after == s.invitations[Target(s, op).value := Redeemed(s.invitations[Target(s, op).value], user)]
            else after == s.invitations
  {
  }

  ghost predicate InvitationsOk(invitations: seq<Invitation>) {
    UniqueInvitations(invitations) && forall k | 0 <= k < |invitations| :: InvitationOk(invitations[k])
  }

  lemma AppendInvitationsOk(invitations: seq<Invitation>, i: Invitation)
    requires InvitationsOk(invitations) && InvitationOk(i) && forall o | o in invitations :: o.id != i.id
    ensures InvitationsOk(invitations + [i])
  {
    forall k | 0 <= k < |invitations| ensures invitations[k].id != i.id { assert invitations[k] in invitations; }
  }

  lemma RevokeInvitationsOk(invitations: seq<Invitation>, id: string, workspace: string)
    requires InvitationsOk(invitations)
    ensures InvitationsOk(RevokeIn(invitations, id, workspace))
  {
  }

  lemma RedeemInvitationsOk(invitations: seq<Invitation>, k: nat, user: string)
    requires InvitationsOk(invitations) && k < |invitations|
    requires invitations[k].status == Active && invitations[k].useCount < invitations[k].maxUses
    ensures InvitationsOk(invitations[k := Redeemed(invitations[k], user)])
  {
  }

  lemma HandleInvitationsOk(s: State, op: Op)
    requires InvitationsOk(s.invitations)
    requires op.Invite? ==> forall i | i in s.invitations :: i.id != op.id
    ensures InvitationsOk(Handle(s, op).invitations)
  {
    HandleInvitations(s, op);
    var after := Handle(s, op).invitations;
    if op.Invite? {
      AppendInvitationsOk(s.invitations,
                          Invitation(op.id, op.workspace, op.code, op.role, op.expiresAt, op.maxUses, 0, Active, None));
    } else if op.Revoke? {
      RevokeInvitationsOk(s.invitations, op.id, op.workspace);
    } else if RedeemedId(s, op).Some? {
      var k := Target(s, op).value;
      var user :| after == s.invitations[k := Redeemed(s.invitations[k], user)];
      RedeemInvitationsOk(s.invitations, k, user);
    }
  }

  function Uses(invitations: seq<Invitation>, id: string): int {
    var i := FindInvitation(invitations, id);
    if i.Some? then i.value.useCount else 0
  }

  predicate Closed(invitations: seq<Invitation>, id: string) {
    var i := FindInvitation(invitations, id);
    i.Some? && i.value.status != Active
  }

  /** An existing invitation keeps its place; its uses move by the step's acceptance, and a closed one stays closed. */
  lemma RowStep(s: State, op: Op, k: nat)
    requires InvitationsOk(s.invitations) && k < |s.invitations|
    ensures var after := Handle(s, op).invitations;
            && k < |after| && after[k].id == s.invitations[k].id
            && after[k].useCount == s.invitations[k].useCount
                                    + (if RedeemedId(s, op) == Some(s.invitations[k].id) then 1 else 0)
            && (s.invitations[k].status != Active
                ==> after[k].status != Active && RedeemedId(s, op) != Some(s.invitations[k].id))
  {
    HandleInvitations(s, op);
    if RedeemedId(s, op).Some? {
      var t := Target(s, op).value;
      if t != k { assert s.invitations[t].id != s.invitations[k].id; }
    }
  }

  lemma IndexOf(invitations: seq<Invitation>, id: string) returns (k: nat)
    requires FindInvitation(invitations, id).Some?
    ensures k < |invitations| && invitations[k] == FindInvitation(invitations, id).value
  {
    k :| 0 <= k < |invitations| && invitations[k] == FindInvitation(invitations, id).value;
  }

  /** An invitation not there yet is not redeemed, and if it appears it is unused. */
  lemma AbsentStep(s: State, op: Op, id: string)
    requires InvitationsOk(s.invitations) && FindInvitation(s.invitations, id).None?
    ensures Uses(Handle(s, op).invitations, id) == 0 && RedeemedId(s, op) != Some(id)
  {
    var after := Handle(s, op).invitations;
    HandleInvitations(s, op);
    if RedeemedId(s, op).Some? { assert s.invitations[Target(s, op).value] in s.invitations; }
    if FindInvitation(after, id).Some? {
      var k := IndexOf(after, id);
      if k < |s.invitations| {
        assert s.invitations[k] in s.invitations;
        RowStep(s, op, k);
      }
    }
  }

  lemma UsesStep(s: State, op: Op, id: string)
    requires InvitationsOk(s.invitations)
    requires op.Invite? ==> forall i | i in s.invitations :: i.id != op.id
    ensures Uses(Handle(s, op).invitations, id) == Uses(s.invitations, id)
                                                   + (if RedeemedId(s, op) == Some(id) then 1 else 0)
    ensures Closed(s.invitations, id) ==> Closed(Handle(s, op).invitations, id) && RedeemedId(s, op) != Some(id)
  {
    var after := Handle(s, op).invitations;
    if FindInvitation(s.invitations, id).Some? {
      HandleInvitationsOk(s, op);
      var k := IndexOf(s.invitations, id);
      RowStep(s, op, k);
      FindAt(after, k);
    } else {
      AbsentStep(s, op, id);
    }
  }

  lemma {:induction false} UsesCountAcceptances(s: State, clock: nat, ops: seq<Op>, id: string)
    requires InvitationsOk(s.invitations) && Possible(s, clock, ops)
    ensures InvitationsOk(RunOps(s, ops).invitations)
    ensures Uses(RunOps(s, ops).invitations, id) == Uses(s.invitations, id) + Acceptances(s, ops, id)
    decreases |ops|
  {
    if ops != [] {
      HandleInvitationsOk(s, ops[0]);
      UsesStep(s, ops[0], id);
      UsesCountAcceptances(Handle(s, ops[0]), ops[0].now, ops[1..], id);
    }
  }

  /**
   Over every run, an invitation's use count is the number of its successful acceptances,
   never above the maximum; unless revoked it is `Accepted` exactly when the maximum is reached.
   */
  lemma InvitationCounts(ops: seq<Op>, k: nat)
    requires Possible(Start, 0, ops) && k < |RunOps(Start, ops).invitations|
    ensures var i := RunOps(Start, ops).invitations[k];
            && i.useCount == Acceptances(Start, ops, i.id)
            && (i.useCount == 0 || i.useCount <= i.maxUses)
            && (i.maxUses >= 1 && i.status != Revoked ==> (i.status == Accepted <==> i.useCount == i.maxUses))
  {
    var end := RunOps(Start, ops).invitations;
    UsesCountAcceptances(Start, 0, ops, end[k].id);
    FindAt(end, k);
  }

  /** Nothing is accepted on an invitation once it is revoked or exhausted. */
  lemma {:induction false} ClosedStaysClosed(s: State, clock: nat, ops: seq<Op>, id: string)
    requires InvitationsOk(s.invitations) && Possible(s, clock, ops) && Closed(s.invitations, id)
    ensures Acceptances(s, ops, id) == 0 && Closed(RunOps(s, ops).invitations, id)
    decreases |ops|
  {
    if ops != [] {
      HandleInvitationsOk(s, ops[0]);
      UsesStep(s, ops[0], id);
      ClosedStaysClosed(Handle(s, ops[0]), ops[0].now, ops[1..], id);
    }
  }

  // ── Members of a workspace ──

  function MembersOf(members: Members, workspace: string): set<(string, string)> {
    set m | m in members && m.0 == workspace
  }

  /** The uses of all invitations to a workspace. */
  function UsesInto(invitations: seq<Invitation>, workspace: string): int {
    if invitations == [] then 0
    else
      var n := |invitations| - 1;
      UsesInto(invitations[..n], workspace)
      + if invitations[n].workspace == workspace then invitations[n].useCount else 0
  }

  predicate JoinsBy(s: State, op: Op, workspace: string) {
    RedeemedId(s, op).Some? && s.invitations[Target(s, op).value].workspace == workspace
  }

  /** Whether a step registers a user whose own workspace this is. */
  predicate Registers(s: State, op: Op, workspace: string) {
    (op.CodeLogin? || op.Accept?) && HttpStatus(s, op) == 200 && op.phone !in s.users && op.newWorkspace == workspace
  }

  function Registrations(s: State, ops: seq<Op>, workspace: string): nat
    decreases |ops|
  {
    if ops == [] then 0
    else (if Registers(s, ops[0], workspace) then 1 else 0) + Registrations(Handle(s, ops[0]), ops[1..], workspace)
  }

  /** The rows a step inserts for one workspace: its registered owner, its invited member. */
  function NewMembers(s: State, op: Op, workspace: string): set<(string, string)> {
    (if Registers(s, op, workspace) then {(workspace, op.newUser)} else {})
    + (if JoinsBy(s, op, workspace) then {(workspace, Handle(s, op).users[op.phone].id)} else {})
  }

  /** What a handler does to the membership table. */
  lemma HandleMembers(s: State, op: Op, workspace: string)
    ensures MembersOf(Handle(s, op).members, workspace)
         == MembersOf(s.members, workspace) + NewMembers(s, op, workspace)
  {
  }

  lemma UnionSize<T>(a: set<T>, b: set<T>, n: nat)
    requires |b| <= n
    ensures |a + b| <= |a| + n
  {
    assert |a + b| + |a * b| == |a| + |b|;
  }

  lemma MembersStep(s: State, op: Op, workspace: string)
    ensures |MembersOf(Handle(s, op).members, workspace)|
         <= |MembersOf(s.members, workspace)| + (if Registers(s, op, workspace) then 1 else 0)
            + (if JoinsBy(s, op, workspace) then 1 else 0)
  {
    HandleMembers(s, op, workspace);
    UnionSize(MembersOf(s.members, workspace), NewMembers(s, op, workspace),
              (if Registers(s, op, workspace) then 1 else 0) + (if JoinsBy(s, op, workspace) then 1 else 0));
  }

  lemma UsesIntoAppend(invitations: seq<Invitation>, i: Invitation, workspace: string)
    ensures UsesInto(invitations + [i], workspace)
         == UsesInto(invitations, workspace) + if i.workspace == workspace then i.useCount else 0
  {
    assert (invitations + [i])[..|invitations|] == invitations;
  }

  lemma {:induction false} UsesIntoSame(a: seq<Invitation>, b: seq<Invitation>, workspace: string)
    requires |a| == |b|
    requires forall k | 0 <= k < |a| :: a[k].workspace == b[k].workspace && a[k].useCount == b[k].useCount
    ensures UsesInto(a, workspace) == UsesInto(b, workspace)
  {
    if a != [] { UsesIntoSame(a[..|a| - 1], b[..|b| - 1], workspace); }
  }

  lemma {:induction false} UsesIntoRedeem(invitations: seq<Invitation>, k: nat, user: string, workspace: string)
    requires k < |invitations|
    ensures UsesInto(invitations[k := Redeemed(invitations[k], user)], workspace)
         == UsesInto(invitations, workspace) + if invitations[k].workspace == workspace then 1 else 0
  {
    var n := |invitations| - 1;
    var after := invitations[k := Redeemed(invitations[k], user)];
    if k < n {
      assert after[..n] == invitations[..n][k := Redeemed(invitations[k], user)];
      UsesIntoRedeem(invitations[..n], k, user, workspace);
    } else {
      assert after[..n] == invitations[..n];
    }
  }

  lemma UsesIntoStep(s: State, op: Op, workspace: string)
    ensures UsesInto(Handle(s, op).invitations, workspace)
         == UsesInto(s.invitations, workspace) + if JoinsBy(s, op, workspace) then 1 else 0
  {
    HandleInvitations(s, op);
    var after := Handle(s, op).invitations;
    if op.Invite? && HttpStatus(s, op) == 201 {
      UsesIntoAppend(s.invitations, after[|s.invitations|], workspace);
    } else if op.Revoke? && HttpStatus(s, op) == 200 {
      UsesIntoSame(after, s.invitations, workspace);
    } else if RedeemedId(s, op).Some? {
      var k := Target(s, op).value;
      var user :| after == s.invitations[k := Redeemed(s.invitations[k], user)];
      UsesIntoRedeem(s.invitations, k, user, workspace);
    }
  }

  /**
   Over any run a workspace gains at most as many members as its invitations gain uses,
   its owner's registration aside: duplicates are tolerated, nobody else gets in.
   */
  lemma {:induction false} MembersWithinUses(s: State, ops: seq<Op>, workspace: string)
    ensures var end := RunOps(s, ops);
            |MembersOf(end.members, workspace)| + UsesInto(s.invitations, workspace)
            <= |MembersOf(s.members, workspace)| + UsesInto(end.invitations, workspace)
            + Registrations(s, ops, workspace)
    decreases |ops|
  {
    if ops != [] {
      MembersStep(s, ops[0], workspace);
      UsesIntoStep(s, ops[0], workspace);
      MembersWithinUses(Handle(s, ops[0]), ops[1..], workspace);
    }
  }

  // ── The limiter behind the handlers ──

  /** Everything a run of handlers asks of the limiter. */
  function AllEvents(s: State, ops: seq<Op>): seq<Event>
    decreases |ops|
  {
    if ops == [] then [] else LimiterEvents(s, ops[0]) + AllEvents(Handle(s, ops[0]), ops[1..])
  }

  /** Every handler checks before it records: at most one more event, for the phone just allowed. */
  lemma HandlerShape(s: State, op: Op)
    ensures var es := LimiterEvents(s, op);
            && |es| <= 2 && (forall e | e in es :: e.now == op.now)
            && (|es| >= 1 ==> !es[0].Failure? && !es[0].Success?)
            && (|es| == 2 ==> es[0].CheckLogin? && Reply(s.limits, es[0]) == Some(Allowed)
                              && (es[1].Failure? || es[1].Success?) && es[1].phone == es[0].phone)
  {
  }

  lemma Peel(e: Event, rest: seq<Event>)
    ensures ([e] + rest)[0] == e && ([e] + rest)[1..] == rest
  {
  }

  function NoteAll(checks: map<string, Check>, l: Store, es: seq<Event>): map<string, Check>
    decreases |es|
  {
    if es == [] then checks else NoteAll(Note(checks, l, es[0]), RateLimiter.Apply(l, es[0]), es[1..])
  }

  /** One event in front of a disciplined run: a failure needs a clean check. */
  lemma DisciplinedCons(l: Store, checks: map<string, Check>, e: Event, rest: seq<Event>)
    requires e.Failure? ==> e.phone in checks && checks[e.phone].clean
    requires Disciplined(true, RateLimiter.Apply(l, e), Note(checks, l, e), rest)
    ensures Disciplined(true, l, checks, [e] + rest)
  {
    Peel(e, rest);
  }

  lemma NoteSteps(checks: map<string, Check>, l: Store, a: Event, b: Event)
    ensures NoteAll(checks, l, [a]) == Note(checks, l, a)
    ensures NoteAll(checks, l, [a] + [b]) == Note(Note(checks, l, a), RateLimiter.Apply(l, a), b)
  {
    var both := [a] + [b];
    assert both[0] == a && both[1..] == [b] && [a][1..] == [] && [b][1..] == [];
    var m, c := RateLimiter.Apply(l, a), Note(checks, l, a);
    assert NoteAll(c, m, []) == c;
    assert NoteAll(c, m, [b]) == NoteAll(Note(c, m, b), RateLimiter.Apply(m, b), []) == Note(c, m, b);
    assert NoteAll(checks, l, both) == NoteAll(c, m, [b]);
  }

  lemma DisciplinedPrefix(l: Store, checks: map<string, Check>, es: seq<Event>, rest: seq<Event>)
    requires |es| <= 2 && (|es| >= 1 ==> !es[0].Failure?)
    requires |es| == 2 ==> es[0].CheckLogin? && Reply(l, es[0]) == Some(Allowed)
                           && (es[1].Failure? || es[1].Success?) && es[1].phone == es[0].phone
    requires Disciplined(true, RateLimiter.Run(l, es), NoteAll(checks, l, es), rest)
    ensures Disciplined(true, l, checks, es + rest)
  {
    if es == [] {
      assert es + rest == rest;
    } else if |es| == 1 {
      assert es == [es[0]];
      RunSteps(l, es[0], es[0]);
      NoteSteps(checks, l, es[0], es[0]);
      DisciplinedCons(l, checks, es[0], rest);
    } else {
      var a, b := es[0], es[1];
      assert es == [a] + [b];
      RunSteps(l, a, b);
      NoteSteps(checks, l, a, b);
      DisciplinedCons(RateLimiter.Apply(l, a), Note(checks, l, a), b, rest);
      DisciplinedCons(l, checks, a, [b] + rest);
      assert es + rest == [a] + ([b] + rest);
    }
  }

  lemma ClockedPrefix(clock: nat, es: seq<Event>, now: nat, rest: seq<Event>)
    requires clock <= now && Clocked(now, rest) && |es| <= 2 && forall e | e in es :: e.now == now
    ensures Clocked(clock, es + rest)
  {
    if es == [] {
      assert es + rest == rest;
      ClockedEarlier(clock, now, rest);
    } else {
      assert es[0] in es;
      if |es| == 1 {
        assert es + rest == [es[0]] + rest;
        Peel(es[0], rest);
      } else {
        assert es[1] in es && es + rest == [es[0]] + ([es[1]] + rest);
        Peel(es[1], rest);
        Peel(es[0], [es[1]] + rest);
      }
    }
  }

  /** One handler in front of a disciplined run. */
  lemma HandlerFirst(s: State, checks: map<string, Check>, clock: nat, op: Op, rest: seq<Event>)
    requires clock <= op.now && Clocked(op.now, rest)
    requires var es := LimiterEvents(s, op);
             Disciplined(true, RateLimiter.Run(s.limits, es), NoteAll(checks, s.limits, es), rest)
    ensures Clocked(clock, LimiterEvents(s, op) + rest)
    ensures Disciplined(true, s.limits, checks, LimiterEvents(s, op) + rest)
  {
    HandlerShape(s, op);
    ClockedPrefix(clock, LimiterEvents(s, op), op.now, rest);
    DisciplinedPrefix(s.limits, checks, LimiterEvents(s, op), rest);
  }

  lemma {:induction false} HandlersAreDisciplined(s: State, checks: map<string, Check>, clock: nat, ops: seq<Op>)
    requires Possible(s, clock, ops)
    ensures Clocked(clock, AllEvents(s, ops)) && Disciplined(true, s.limits, checks, AllEvents(s, ops))
    decreases |ops|
  {
    if ops != [] {
      var op, s' := ops[0], Handle(s, ops[0]);
      HandlersAreDisciplined(s', NoteAll(checks, s.limits, LimiterEvents(s, op)), op.now, ops[1..]);
      HandlerFirst(s, checks, clock, op, AllEvents(s', ops[1..]));
    }
  }

  lemma ClockedEarlier(a: nat, b: nat, es: seq<Event>)
    requires a <= b && Clocked(b, es)
    ensures Clocked(a, es)
  {
  }

  function Fold<S, O>(step: (S, O) -> S, s: S, ops: seq<O>): S
    decreases |ops|
  {
    if ops == [] then s else Fold(step, step(s, ops[0]), ops[1..])
  }

  /** What the steps of a run emit, one after the other. */
  function Trace<S, O, E>(step: (S, O) -> S, emit: (S, O) -> seq<E>, s: S, ops: seq<O>): seq<E>
    decreases |ops|
  {
    if ops == [] then [] else emit(s, ops[0]) + Trace(step, emit, step(s, ops[0]), ops[1..])
  }

  lemma {:induction false} TraceConcat<S, O, E>(
    step: (S, O) -> S, emit: (S, O) -> seq<E>, s: S, before: seq<O>, ops: seq<O>)
    ensures Trace(step, emit, s, before + ops)
         == Trace(step, emit, s, before) + Trace(step, emit, Fold(step, s, before), ops)
    decreases |before|
  {
    if before == [] {
      assert before + ops == ops;
    } else {
      assert (before + ops)[1..] == before[1..] + ops;
      TraceConcat(step, emit, step(s, before[0]), before[1..], ops);
    }
  }

  lemma {:induction false} RunIsFold(s: State, ops: seq<Op>)
    ensures RunOps(s, ops) == Fold(Handle, s, ops)
    decreases |ops|
  {
    if ops != [] { RunIsFold(Handle(s, ops[0]), ops[1..]); }
  }

  lemma {:induction false} EventsAreTrace(s: State, ops: seq<Op>)
    ensures AllEvents(s, ops) == Trace(Handle, LimiterEvents, s, ops)
    decreases |ops|
  {
    if ops != [] { EventsAreTrace(Handle(s, ops[0]), ops[1..]); }
  }

  lemma AllEventsConcat(s: State, before: seq<Op>, ops: seq<Op>)
    ensures AllEvents(s, before + ops) == AllEvents(s, before) + AllEvents(RunOps(s, before), ops)
  {
    EventsAreTrace(s, before + ops);
    EventsAreTrace(s, before);
    EventsAreTrace(RunOps(s, before), ops);
    RunIsFold(s, before);
    TraceConcat(Handle, LimiterEvents, s, before, ops);
  }

  /**
   The lockout as the API delivers it: in any stretch of any run of handlers in which a phone
   has no success, n of its failures span floor((n - 1) / 5) lockouts, and no closed
   lockout interval holds more than five.
   */
  lemma ApiLockoutRate(before: seq<Op>, ops: seq<Op>, phone: string, n: nat, a: nat)
    requires Possible(Start, 0, before + ops)
    requires var es := AllEvents(RunOps(Start, before), ops);
             NoSuccess(es, phone) && 0 < n <= |FailureTimes(es, phone)|
    ensures var times := FailureTimes(AllEvents(RunOps(Start, before), ops), phone);
            times[n - 1] - times[0] >= (n - 1) / 5 * (LOCKOUT + 1) && CountWithin(times, a, a + LOCKOUT) <= 5
  {
    HandlersAreDisciplined(Start, map[], 0, before + ops);
    AllEventsConcat(Start, before, ops);
    LockoutRate(AllEvents(Start, before), AllEvents(RunOps(Start, before), ops), phone, n, a);
  }

  // ── Sweeps are invisible to the API ──

  function WithoutSweeps(ops: seq<Op>): seq<Op> {
    if ops == [] then [] else if ops[0].Sweep? then WithoutSweeps(ops[1..]) else [ops[0]] + WithoutSweeps(ops[1..])
  }

  /** The statuses a run answers, sweeps aside. */
  function Statuses(s: State, ops: seq<Op>): seq<nat>
    decreases |ops|
  {
    if ops == [] then []
    else (if ops[0].Sweep? then [] else [HttpStatus(s, ops[0])]) + Statuses(Handle(s, ops[0]), ops[1..])
  }

  ghost predicate SameButSwept(s: State, t: State, clock: nat) {
    t == s.(limits := t.limits) && Trimmed(s.limits, t.limits, clock)
  }

  lemma StepAgrees(s: State, t: State, clock: nat, op: Op)
    requires SameButSwept(s, t, clock) && clock <= op.now && !op.Sweep?
    ensures LimiterEvents(s, op) == LimiterEvents(t, op) && HttpStatus(s, op) == HttpStatus(t, op)
  {
    if op.SendVerification? {
      TrimmedSend(s.limits, t.limits, clock, SendCode(op.ip, op.now));
    } else if op.CodeLogin? || op.PasswordLogin? || op.Accept? {
      TrimmedLogin(s.limits, t.limits, map[], clock, CheckLogin(op.phone, op.now));
    }
  }

  lemma LimitsAgree(l: Store, m: Store, clock: nat, es: seq<Event>, now: nat)
    requires Trimmed(l, m, clock) && clock <= now && |es| <= 2 && forall e | e in es :: e.now == now && !e.Cleanup?
    requires |es| >= 1 ==> !es[0].Failure?
    requires |es| == 2 ==> es[0].CheckLogin? && Reply(l, es[0]) == Some(Allowed)
                           && (es[1].Failure? || es[1].Success?) && es[1].phone == es[0].phone
    ensures Trimmed(RateLimiter.Run(l, es), RateLimiter.Run(m, es), now)
  {
    if es == [] {
      TrimmedLater(l, m, clock, now);
    } else {
      var e := es[0];
      assert e in es;
      if e.SendCode? { TrimmedSend(l, m, clock, e); } else { TrimmedLogin(l, m, map[], clock, e); }
      if |es| == 1 {
        assert es == [e];
        RunSteps(l, e, e);
        RunSteps(m, e, e);
      } else {
        assert es == [e] + [es[1]] && es[1] in es;
        RunSteps(l, e, es[1]);
        RunSteps(m, e, es[1]);
        CoveredStep(l, map[], clock, e);
        TrimmedLogin(RateLimiter.Apply(l, e), RateLimiter.Apply(m, e), Note(map[], l, e), now, es[1]);
      }
    }
  }

  lemma HandleAgrees(s: State, t: State, clock: nat, op: Op)
    requires SameButSwept(s, t, clock) && clock <= op.now && !op.Sweep?
    ensures SameButSwept(Handle(s, op), Handle(t, op), op.now)
  {
    StepAgrees(s, t, clock, op);
    HandlerShape(s, op);
    LimitsAgree(s.limits, t.limits, clock, LimiterEvents(s, op), op.now);
  }

  lemma {:induction false} SweptRunsAgree(s: State, t: State, clock: nat, ops: seq<Op>)
    requires SameButSwept(s, t, clock) && Possible(t, clock, ops)
    ensures Statuses(t, ops) == Statuses(s, WithoutSweeps(ops))
    decreases |ops|
  {
    if ops != [] {
      var op := ops[0];
      if op.Sweep? {
        RunSteps(t.limits, Cleanup(op.now), Cleanup(op.now));
        TrimmedByCleanup(s.limits, t.limits, clock, op.now);
        SweptRunsAgree(s, Handle(t, op), op.now, ops[1..]);
      } else {
        StepAgrees(s, t, clock, op);
        HandleAgrees(s, t, clock, op);
        SweptRunsAgree(Handle(s, op), Handle(t, op), op.now, ops[1..]);
        assert WithoutSweeps(ops)[1..] == WithoutSweeps(ops[1..]);
      }
    }
  }

  /** The periodic cleanup, whenever it runs, changes no response of the API. */
  lemma SweepsAreInvisible(ops: seq<Op>)
    requires Possible(Start, 0, ops)
    ensures Statuses(Start, ops) == Statuses(Start, WithoutSweeps(ops))
  {
    SweptRunsAgree(Start, Start, 0, ops);
  }
}
