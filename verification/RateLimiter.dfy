/**
 The in-memory rate limiter (admin-api/src/services/rate-limiter.ts): a fixed-window
 limit on verification-code requests per IP, a lockout after repeated login failures per
 phone, and a periodic cleanup of both maps.  Times are epoch milliseconds and the clock
 never runs backwards.
 */
module RateLimiter {
  import opened Wrappers

  const SEND_WINDOW: nat := 60 * 60 * 1000
  const MAX_SENDS: nat := 5
  const LOCKOUT: nat := 15 * 60 * 1000
  const MAX_FAILURES: nat := 5

  datatype SendRecord = SendRecord(count: nat, windowStart: nat)
  datatype AttemptRecord = AttemptRecord(count: nat, lockedUntil: nat)   // lockedUntil 0: not locked
  datatype Answer = Allowed | Refused(retryAfterSec: int)

  function CeilSeconds(ms: int): int {
    -((-ms) / 1000)
  }

  // ── One entry at a time ──

  predicate SendExpired(r: SendRecord, now: nat) {
    now - r.windowStart > SEND_WINDOW
  }

  predicate LockExpired(r: AttemptRecord, now: nat) {
    r.lockedUntil > 0 && now > r.lockedUntil
  }

  function AnswerSend(r: Option<SendRecord>, now: nat): Answer {
    if r.None? || SendExpired(r.value, now) || r.value.count < MAX_SENDS then Allowed
    else Refused(CeilSeconds(r.value.windowStart + SEND_WINDOW - now))
  }

  function AfterSend(r: Option<SendRecord>, now: nat): SendRecord {
    if r.None? || SendExpired(r.value, now) then SendRecord(1, now)
    else if r.value.count >= MAX_SENDS then r.value
    else SendRecord(r.value.count + 1, r.value.windowStart)
  }

  function AnswerLogin(r: Option<AttemptRecord>, now: nat): Answer {
    if r.None? || r.value.lockedUntil == 0 || LockExpired(r.value, now) then Allowed
    else Refused(CeilSeconds(r.value.lockedUntil - now))
  }

  function AfterFailure(r: Option<AttemptRecord>, now: nat): AttemptRecord {
    if r.None? then AttemptRecord(1, 0)
    else
      var count := r.value.count + 1;
      AttemptRecord(count, if count >= MAX_FAILURES then now + LOCKOUT else r.value.lockedUntil)
  }

  // ── The whole store, event by event ──

  datatype Store = Store(sends: map<string, SendRecord>, logins: map<string, AttemptRecord>)

  const Empty := Store(map[], map[])

  datatype Event =
    | SendCode(ip: string, now: nat)
    | CheckLogin(phone: string, now: nat)
    | Failure(phone: string, now: nat)
    | Success(phone: string, now: nat)
    | Cleanup(now: nat)

  function Entry<V>(m: map<string, V>, key: string): Option<V> {
    if key in m then Some(m[key]) else None
  }

  function SweptSends(m: map<string, SendRecord>, now: nat): map<string, SendRecord> {
    map k | k in m && !SendExpired(m[k], now) :: m[k]
  }

  function SweptLogins(m: map<string, AttemptRecord>, now: nat): map<string, AttemptRecord> {
    map k | k in m && !LockExpired(m[k], now) :: m[k]
  }

  function Apply(s: Store, e: Event): Store {
    match e
    case SendCode(ip, now) => s.(sends := s.sends[ip := AfterSend(Entry(s.sends, ip), now)])
    case CheckLogin(phone, now) =>
      if phone in s.logins && LockExpired(s.logins[phone], now) then s.(logins := s.logins - {phone}) else s
    case Failure(phone, now) => s.(logins := s.logins[phone := AfterFailure(Entry(s.logins, phone), now)])
    case Success(phone, _) => s.(logins := s.logins - {phone})
    case Cleanup(now) => Store(SweptSends(s.sends, now), SweptLogins(s.logins, now))
  }

  function Reply(s: Store, e: Event): Option<Answer> {
    match e
    case SendCode(ip, now) => Some(AnswerSend(Entry(s.sends, ip), now))
    case CheckLogin(phone, now) => Some(AnswerLogin(Entry(s.logins, phone), now))
    case _ => None
  }

  function Run(s: Store, es: seq<Event>): Store
    decreases |es|
  {
    if es == [] then s else Run(Apply(s, es[0]), es[1..])
  }

  /** Events in clock order, none before `clock`. */
  predicate Clocked(clock: nat, es: seq<Event>)
    decreases |es|
  {
    es == [] || (clock <= es[0].now && Clocked(es[0].now, es[1..]))
  }

  // ── The module's state and its exported functions ──

  class Limiter {
    var ipSendMap: map<string, SendRecord>
    var phoneLoginMap: map<string, AttemptRecord>

    ghost function View(): Store
      reads this
    {
      Store(ipSendMap, phoneLoginMap)
    }

    constructor ()
      ensures View() == Empty
    {
      ipSendMap, phoneLoginMap := map[], map[];
    }

    method CheckSendCodeLimit(ip: string, now: nat) returns (answer: Answer)
      modifies this
      ensures View() == Apply(old(View()), SendCode(ip, now))
      ensures Some(answer) == Reply(old(View()), SendCode(ip, now))
    {
      if ip !in ipSendMap || now - ipSendMap[ip].windowStart > SEND_WINDOW {
        ipSendMap := ipSendMap[ip := SendRecord(1, now)];
        return Allowed;
      }
      var record := ipSendMap[ip];
      if record.count >= MAX_SENDS {
        assert ipSendMap[ip := record] == ipSendMap;
        return Refused(CeilSeconds(record.windowStart + SEND_WINDOW - now));
      }
      ipSendMap := ipSendMap[ip := record.(count := record.count + 1)];
      return Allowed;
    }

    method CheckLoginLockout(phone: string, now: nat) returns (answer: Answer)
      modifies this
      ensures View() == Apply(old(View()), CheckLogin(phone, now))
      ensures Some(answer) == Reply(old(View()), CheckLogin(phone, now))
    {
      if phone !in phoneLoginMap { return Allowed; }
      var record := phoneLoginMap[phone];
      if record.lockedUntil > 0 {
        if now > record.lockedUntil {
          phoneLoginMap := phoneLoginMap - {phone};
          return Allowed;
        }
        return Refused(CeilSeconds(record.lockedUntil - now));
      }
      return Allowed;
    }

    method RecordLoginFailure(phone: string, now: nat)
      modifies this
      ensures View() == Apply(old(View()), Failure(phone, now))
    {
      if phone !in phoneLoginMap {
        phoneLoginMap := phoneLoginMap[phone := AttemptRecord(1, 0)];
        return;
      }
      var record := phoneLoginMap[phone];
      record := record.(count := record.count + 1);
      if record.count >= MAX_FAILURES {
        record := record.(lockedUntil := now + LOCKOUT);
      }
      phoneLoginMap := phoneLoginMap[phone := record];
    }

    method ResetLoginFailures(phone: string, now: nat)
      modifies this
      ensures View() == Apply(old(View()), Success(phone, now))
    {
      phoneLoginMap := phoneLoginMap - {phone};
    }

    method RunCleanup(now: nat)
      modifies this
      ensures View() == Apply(old(View()), Cleanup(now))
    {
      var ips := ipSendMap.Keys;
      while ips != {}
        invariant ips <= ipSendMap.Keys && phoneLoginMap == old(phoneLoginMap)
        invariant forall k ::
                    k in ipSendMap <==> k in old(ipSendMap) && (k in ips || !SendExpired(old(ipSendMap)[k], now))
        invariant forall k | k in ipSendMap :: ipSendMap[k] == old(ipSendMap)[k]
      {
        var ip :| ip in ips;
        ips := ips - {ip};
        if now - ipSendMap[ip].windowStart > SEND_WINDOW {
          ipSendMap := ipSendMap - {ip};
        }
      }
      assert ipSendMap == SweptSends(old(ipSendMap), now);
      var phones := phoneLoginMap.Keys;
      while phones != {}
        invariant phones <= phoneLoginMap.Keys && ipSendMap == SweptSends(old(ipSendMap), now)
        invariant forall k :: k in phoneLoginMap <==>
                              (k in old(phoneLoginMap) && (k in phones || !LockExpired(old(phoneLoginMap)[k], now)))
        invariant forall k | k in phoneLoginMap :: phoneLoginMap[k] == old(phoneLoginMap)[k]
      {
        var phone :| phone in phones;
        phones := phones - {phone};
        if phoneLoginMap[phone].lockedUntil > 0 && now > phoneLoginMap[phone].lockedUntil {
          phoneLoginMap := phoneLoginMap - {phone};
        }
      }
      assert phoneLoginMap == SweptLogins(old(phoneLoginMap), now);
    }
  }

  // ── What every run keeps ──

  /** A window admits 1 to 5 sends; a phone is locked exactly from its fifth failure on. */
  ghost predicate WellFormed(s: Store, clock: nat) {
    (forall ip | ip in s.sends :: 1 <= s.sends[ip].count <= MAX_SENDS && s.sends[ip].windowStart <= clock)
    && (forall p | p in s.logins ::
          1 <= s.logins[p].count && (s.logins[p].lockedUntil == 0 <==> s.logins[p].count < MAX_FAILURES))
  }

  lemma ApplyWellFormed(s: Store, clock: nat, e: Event)
    requires WellFormed(s, clock) && clock <= e.now
    ensures WellFormed(Apply(s, e), e.now)
  {
  }

  // ── The send limiter over any run ──

  /** Sends of one IP admitted within the closed hour from `a`. */
  function Admitted(s: Store, es: seq<Event>, ip: string, a: nat): nat
    decreases |es|
  {
    if es == [] then 0 else
    (if es[0].SendCode? && es[0].ip == ip && a <= es[0].now <= a + SEND_WINDOW && Reply(s, es[0]) == Some(Allowed)
     then 1 else 0)
    + Admitted(Apply(s, es[0]), es[1..], ip, a)
  }

  /** An entry whose window still counts. */
  predicate Running(r: Option<SendRecord>, clock: nat) {
    r.Some? && !SendExpired(r.value, clock)
  }

  /** How many sends an entry leaves room for in the closed hour from `a`, from the clock on. */
  function Room(r: Option<SendRecord>, clock: nat, a: nat): int {
    if !Running(r, clock) then
      if clock > a + SEND_WINDOW then 0 else if clock >= a then MAX_SENDS else 2 * MAX_SENDS - 1
    else
      var w := r.value;
      if clock > a + SEND_WINDOW then 0
      else if w.windowStart >= a then MAX_SENDS - w.count
      else if w.windowStart + SEND_WINDOW >= a then 2 * MAX_SENDS - w.count
      else if w.windowStart + SEND_WINDOW + 1 == a then MAX_SENDS
      else 2 * MAX_SENDS - 1
  }

  lemma {:induction false} AdmittedWithinRoom(s: Store, clock: nat, es: seq<Event>, ip: string, a: nat)
    requires WellFormed(s, clock) && Clocked(clock, es)
    ensures Admitted(s, es, ip, a) <= Room(Entry(s.sends, ip), clock, a)
    decreases |es|
  {
    if es != [] {
      ApplyWellFormed(s, clock, es[0]);
      AdmittedWithinRoom(Apply(s, es[0]), es[0].now, es[1..], ip, a);
    }
  }

  /** In any run, cleanups and other callers included, one IP gets at most 9 codes in any closed hour. */
  lemma SendSlidingWindow(es: seq<Event>, ip: string, a: nat)
    requires Clocked(0, es)
    ensures Admitted(Empty, es, ip, a) <= 9
  {
    AdmittedWithinRoom(Empty, 0, es, ip, a);
  }

  function Burst(ip: string, t: nat, n: nat, rest: seq<Event>): seq<Event> {
    if n == 0 then rest else [SendCode(ip, t)] + Burst(ip, t, n - 1, rest)
  }

  function WithSends(s: Store, ip: string, r: SendRecord): Store {
    s.(sends := s.sends[ip := r])
  }

  lemma {:induction false} BurstAdmitted(s: Store, ip: string, t: nat, n: nat, rest: seq<Event>, a: nat)
    requires ip in s.sends && !SendExpired(s.sends[ip], t) && s.sends[ip].count + n <= MAX_SENDS
    requires a <= t <= a + SEND_WINDOW && Clocked(t, rest)
    ensures Clocked(t, Burst(ip, t, n, rest))
    ensures var r := s.sends[ip];
            Admitted(s, Burst(ip, t, n, rest), ip, a)
            == n + Admitted(WithSends(s, ip, r.(count := r.count + n)), rest, ip, a)
    decreases n
  {
    var r := s.sends[ip];
    if n == 0 {
      assert s.sends == s.sends[ip := r];
    } else {
      var s' := Apply(s, SendCode(ip, t));
      BurstAdmitted(s', ip, t, n - 1, rest, a);
      assert s'.sends[ip := r.(count := r.count + n)] == s.sends[ip := r.(count := r.count + n)];
    }
  }

  /** A request that opens a window. */
  lemma Opens(s: Store, ip: string, t: nat, rest: seq<Event>, a: nat)
    requires !Running(Entry(s.sends, ip), t) && Clocked(t, rest)
    ensures Clocked(t, [SendCode(ip, t)] + rest)
    ensures Admitted(s, [SendCode(ip, t)] + rest, ip, a)
         == (if a <= t <= a + SEND_WINDOW then 1 else 0) + Admitted(WithSends(s, ip, SendRecord(1, t)), rest, ip, a)
  {
    var es := [SendCode(ip, t)] + rest;
    assert es[1..] == rest && Apply(s, es[0]) == WithSends(s, ip, SendRecord(1, t));
  }

  function FullWindow(ip: string, t: nat, rest: seq<Event>): seq<Event> {
    [SendCode(ip, t)] + Burst(ip, t, MAX_SENDS - 1, rest)
  }

  /** A whole window at one instant of the hour. */
  lemma FullWindowAdmitted(s: Store, ip: string, t: nat, rest: seq<Event>, a: nat)
    requires !Running(Entry(s.sends, ip), t) && a <= t <= a + SEND_WINDOW && Clocked(t, rest)
    ensures Clocked(t, FullWindow(ip, t, rest))
    ensures Admitted(s, FullWindow(ip, t, rest), ip, a)
         == MAX_SENDS + Admitted(WithSends(s, ip, SendRecord(MAX_SENDS, t)), rest, ip, a)
  {
    var s' := WithSends(s, ip, SendRecord(1, t));
    BurstAdmitted(s', ip, t, MAX_SENDS - 1, rest, a);
    Opens(s, ip, t, Burst(ip, t, MAX_SENDS - 1, rest), a);
    assert WithSends(s', ip, SendRecord(MAX_SENDS, t)) == WithSends(s, ip, SendRecord(MAX_SENDS, t));
  }

  lemma ClockedFrom(a: nat, b: nat, es: seq<Event>)
    requires a <= b && Clocked(b, es)
    ensures Clocked(a, es)
  {
  }

  /** The rest of one window and the whole of the next, which starts later in the hour. */
  lemma TwoWindows(s: Store, ip: string, t: nat, end: nat, a: nat)
    requires ip in s.sends && !SendExpired(s.sends[ip], t) && s.sends[ip].count <= MAX_SENDS
    requires SendExpired(s.sends[ip], end) && a <= t <= end <= a + SEND_WINDOW
    ensures var es := Burst(ip, t, MAX_SENDS - s.sends[ip].count, FullWindow(ip, end, []));
            Clocked(t, es) && Admitted(s, es, ip, a) == 2 * MAX_SENDS - s.sends[ip].count
  {
    var r := s.sends[ip];
    FullWindowAdmitted(WithSends(s, ip, r.(count := MAX_SENDS)), ip, end, [], a);
    ClockedFrom(t, end, FullWindow(ip, end, []));
    BurstAdmitted(s, ip, t, MAX_SENDS - r.count, FullWindow(ip, end, []), a);
  }

  /** Just before the hour a window opens; the rest of it and a whole second window fall inside. */
  lemma Straddle(s: Store, clock: nat, ip: string, a: nat) returns (es: seq<Event>)
    requires clock < a && !Running(Entry(s.sends, ip), a - 1)
    ensures Clocked(clock, es) && Admitted(s, es, ip, a) == 2 * MAX_SENDS - 1
  {
    var rest := Burst(ip, a, MAX_SENDS - 1, FullWindow(ip, a + SEND_WINDOW, []));
    TwoWindows(WithSends(s, ip, SendRecord(1, a - 1)), ip, a, a + SEND_WINDOW, a);
    ClockedFrom(a - 1, a, rest);
    Opens(s, ip, a - 1, rest, a);
    es := [SendCode(ip, a - 1)] + rest;
    ClockedFrom(clock, a - 1, es);
  }

  /** What is left of the running window, and then a whole one. */
  lemma RestAndMore(s: Store, clock: nat, ip: string, a: nat) returns (es: seq<Event>)
    requires WellFormed(s, clock) && Running(Entry(s.sends, ip), clock)
    requires s.sends[ip].windowStart < a <= s.sends[ip].windowStart + SEND_WINDOW
    ensures Clocked(clock, es) && Admitted(s, es, ip, a) == 2 * MAX_SENDS - s.sends[ip].count
  {
    var r := s.sends[ip];
    var end, first := r.windowStart + SEND_WINDOW + 1, if clock < a then a else clock;
    TwoWindows(s, ip, first, end, a);
    es := Burst(ip, first, MAX_SENDS - r.count, FullWindow(ip, end, []));
    ClockedFrom(clock, first, es);
  }

  /** The room of an entry is reached, whatever the state of the limiter. */
  lemma RoomIsReached(s: Store, clock: nat, ip: string, a: nat)
    requires WellFormed(s, clock)
    ensures exists es :: Clocked(clock, es) && Admitted(s, es, ip, a) == Room(Entry(s.sends, ip), clock, a)
  {
    var r := Entry(s.sends, ip);
    if clock > a + SEND_WINDOW {
      assert Clocked(clock, []) && Admitted(s, [], ip, a) == 0;
    } else if !Running(r, clock) {
      if clock >= a { FullWindowAdmitted(s, ip, clock, [], a); } else { var es := Straddle(s, clock, ip, a); }
    } else if r.value.windowStart >= a {
      BurstAdmitted(s, ip, clock, MAX_SENDS - r.value.count, [], a);
    } else if r.value.windowStart + SEND_WINDOW >= a {
      var es := RestAndMore(s, clock, ip, a);
    } else if r.value.windowStart + SEND_WINDOW + 1 == a {
      FullWindowAdmitted(s, ip, a, [], a);
      ClockedFrom(clock, a, FullWindow(ip, a, []));
    } else {
      var es := Straddle(s, clock, ip, a);
    }
  }

  /** Nine is reached from the start: four sends as one window ends, five as the next begins. */
  lemma NineIsReached(ip: string)
    ensures exists es, a :: Clocked(0, es) && Admitted(Empty, es, ip, a) == 9
  {
    RoomIsReached(Empty, 0, ip, 1);
  }

  /**
   The five an hour that the limit names hold for the closed hour from `a`, whatever comes, exactly when
   the hour begins no later than the running window, or that window is used up and reaches into the
   hour or just up to it, or, with no window running, the hour has begun.
   */
  lemma FivePerHourIff(s: Store, clock: nat, ip: string, a: nat)
    requires WellFormed(s, clock)
    ensures (forall es | Clocked(clock, es) :: Admitted(s, es, ip, a) <= 5)
       <==> clock > a + SEND_WINDOW
            || if Running(Entry(s.sends, ip), clock) then
              var w := s.sends[ip];
              || a <= w.windowStart
              || (w.count == MAX_SENDS && a <= w.windowStart + SEND_WINDOW)
              || a == w.windowStart + SEND_WINDOW + 1
            else a <= clock
  {
    RoomIsReached(s, clock, ip, a);
    forall es | Clocked(clock, es) ensures Admitted(s, es, ip, a) <= Room(Entry(s.sends, ip), clock, a) {
      AdmittedWithinRoom(s, clock, es, ip, a);
    }
  }

  predicate Silent(es: seq<Event>, ip: string) {
    forall e | e in es :: !(e.SendCode? && e.ip == ip)
  }

  /** Without a request from the IP its entry stays, or goes because its window is over. */
  lemma {:induction false} SilentEntry(s: Store, clock: nat, es: seq<Event>, ip: string, later: nat)
    requires Clocked(clock, es) && Silent(es, ip) && (es != [] ==> es[|es| - 1].now <= later)
    ensures var r, r' := Entry(s.sends, ip), Entry(Run(s, es).sends, ip);
            r' == r || (r'.None? && r.Some? && SendExpired(r.value, later))
    decreases |es|
  {
    if es != [] {
      LastIsLatest(clock, es);
      SilentEntry(Apply(s, es[0]), es[0].now, es[1..], ip, later);
    }
  }

  lemma {:induction false} LastIsLatest(clock: nat, es: seq<Event>)
    requires Clocked(clock, es) && es != []
    ensures es[0].now <= es[|es| - 1].now
    decreases |es|
  {
    if |es| > 1 { LastIsLatest(es[0].now, es[1..]); }
  }

  /**
   A refused caller who waits the advertised seconds and one millisecond more is admitted,
   if nobody else asks from that IP.  Waiting exactly the advertised seconds is enough if
   and only if the time left was not a whole number of seconds.
   */
  lemma WaitingIsRewarded(s: Store, ip: string, now: nat, es: seq<Event>, later: nat)
    requires WellFormed(s, now) && Reply(s, SendCode(ip, now)).value.Refused?
    requires Clocked(now, es) && Silent(es, ip) && (es != [] ==> es[|es| - 1].now <= later)
    ensures var wait := 1000 * Reply(s, SendCode(ip, now)).value.retryAfterSec;
            var s' := Run(Apply(s, SendCode(ip, now)), es);
            && (later >= now + wait + 1 ==> Reply(s', SendCode(ip, later)) == Some(Allowed))
            && (later == now + wait ==>
                  (Reply(s', SendCode(ip, later)) == Some(Allowed)
                   <==> (s.sends[ip].windowStart + SEND_WINDOW - now) % 1000 != 0))
  {
    SilentEntry(Apply(s, SendCode(ip, now)), now, es, ip, later);
  }

  // ── Cleanup is invisible ──

  function Strip(es: seq<Event>): seq<Event> {
    if es == [] then []
    else if es[0].Cleanup? then Strip(es[1..])
    else [es[0]] + Strip(es[1..])
  }

  /** The answers a run gives, cleanups aside. */
  function Replies(s: Store, es: seq<Event>): seq<Option<Answer>>
    decreases |es|
  {
    if es == [] then []
    else if es[0].Cleanup? then Replies(Apply(s, es[0]), es[1..])
    else [Reply(s, es[0])] + Replies(Apply(s, es[0]), es[1..])
  }

  /** The latest allowed check of a phone; clean until a failure is recorded. */
  datatype Check = Check(at: nat, clean: bool)

  function Note(checks: map<string, Check>, s: Store, e: Event): map<string, Check> {
    if e.CheckLogin? && Reply(s, e) == Some(Allowed) then checks[e.phone := Check(e.now, true)]
    else if e.Failure? && e.phone in checks then checks[e.phone := checks[e.phone].(clean := false)]
    else checks
  }

  /**
   Check before record.  Strict: every failure follows an allowed check for its phone with
   no other failure in between.  Otherwise requests for one phone may overlap, as long as
   a failure comes no more than the lockout time after an allowed check.
   */
  predicate Disciplined(strict: bool, s: Store, checks: map<string, Check>, es: seq<Event>)
    decreases |es|
  {
    es == []
    || ((es[0].Failure? ==>
           es[0].phone in checks
           && (checks[es[0].phone].clean || (!strict && es[0].now <= checks[es[0].phone].at + LOCKOUT)))
        && Disciplined(strict, Apply(s, es[0]), Note(checks, s, es[0]), es[1..]))
  }

  /** A phone with a clean check is not locked; otherwise its lock outlives the check by the lockout time. */
  ghost predicate Covered(s: Store, checks: map<string, Check>, clock: nat) {
    forall p | p in checks ::
      checks[p].at <= clock
      && (p in s.logins && s.logins[p].lockedUntil > 0
          ==> !checks[p].clean && s.logins[p].lockedUntil >= checks[p].at + LOCKOUT)
  }

  /** `b` is `a` with some entries gone whose window is over. */
  ghost predicate TrimmedSends(a: map<string, SendRecord>, b: map<string, SendRecord>, clock: nat) {
    forall k {:trigger k in a} {:trigger k in b} ::
      Entry(a, k) == Entry(b, k) || (k !in b && k in a && SendExpired(a[k], clock))
  }

  /** `b` is `a` with some entries gone whose lock is over. */
  ghost predicate TrimmedLogins(a: map<string, AttemptRecord>, b: map<string, AttemptRecord>, clock: nat) {
    forall k {:trigger k in a} {:trigger k in b} ::
      Entry(a, k) == Entry(b, k) || (k !in b && k in a && LockExpired(a[k], clock))
  }

  ghost predicate Trimmed(s: Store, t: Store, clock: nat) {
    TrimmedSends(s.sends, t.sends, clock) && TrimmedLogins(s.logins, t.logins, clock)
  }

  lemma CoveredStep(s: Store, checks: map<string, Check>, clock: nat, e: Event)
    requires Covered(s, checks, clock) && clock <= e.now
    requires e.Failure? ==> e.phone in checks
    ensures Covered(Apply(s, e), Note(checks, s, e), e.now)
  {
  }

  lemma TrimmedSend(s: Store, t: Store, clock: nat, e: Event)
    requires Trimmed(s, t, clock) && clock <= e.now && e.SendCode?
    ensures Reply(s, e) == Reply(t, e) && Trimmed(Apply(s, e), Apply(t, e), e.now)
  {
    assert e.ip in s.sends || e.ip !in s.sends;
    TrimmedLater(s, t, clock, e.now);
    assert AfterSend(Entry(s.sends, e.ip), e.now) == AfterSend(Entry(t.sends, e.ip), e.now);
  }

  lemma TrimmedLater(a: Store, b: Store, clock: nat, later: nat)
    requires Trimmed(a, b, clock) && clock <= later
    ensures Trimmed(a, b, later)
  {
  }

  lemma TrimmedWith(a: map<string, AttemptRecord>, b: map<string, AttemptRecord>, clock: nat, phone: string,
                    r: AttemptRecord)
    requires TrimmedLogins(a, b, clock)
    ensures TrimmedLogins(a[phone := r], b[phone := r], clock)
  {
    forall k ensures Entry(a[phone := r], k) == (if k == phone then Some(r) else Entry(a, k)) {}
  }

  lemma TrimmedWithout(a: map<string, AttemptRecord>, b: map<string, AttemptRecord>, clock: nat, phone: string)
    requires TrimmedLogins(a, b, clock)
    ensures TrimmedLogins(a - {phone}, b - {phone}, clock)
  {
  }

  lemma TrimmedLogin(s: Store, t: Store, checks: map<string, Check>, clock: nat, e: Event)
    requires Trimmed(s, t, clock) && clock <= e.now && Covered(s, checks, clock)
    requires e.CheckLogin? || e.Success? || e.Failure?
    requires e.Failure? ==> e.phone in checks && (checks[e.phone].clean || e.now <= checks[e.phone].at + LOCKOUT)
    ensures Reply(s, e) == Reply(t, e) && Trimmed(Apply(s, e), Apply(t, e), e.now)
  {
    TrimmedLater(s, t, clock, e.now);
    assert e.phone in s.logins || e.phone !in s.logins;
    match e {
      case Failure(phone, now) =>
        assert Entry(s.logins, phone) == Entry(t.logins, phone);
        TrimmedWith(s.logins, t.logins, now, phone, AfterFailure(Entry(s.logins, phone), now));
      case Success(phone, now) => TrimmedWithout(s.logins, t.logins, now, phone);
      case CheckLogin(phone, now) =>
        TrimmedWithout(s.logins, t.logins, now, phone);
        if phone !in t.logins { assert t.logins - {phone} == t.logins; }
    }
  }

  lemma TrimmedByCleanup(s: Store, t: Store, clock: nat, now: nat)
    requires Trimmed(s, t, clock) && clock <= now
    ensures Trimmed(s, Apply(t, Cleanup(now)), now)
  {
  }

  lemma {:induction false} TrimmedRunsAgree(strict: bool, s: Store, t: Store, checks: map<string, Check>, clock: nat,
                                            es: seq<Event>)
    requires Trimmed(s, t, clock) && Clocked(clock, es)
    requires Covered(s, checks, clock) && Disciplined(strict, t, checks, es)
    ensures Replies(t, es) == Replies(s, Strip(es))
    decreases |es|
  {
    if es != [] {
      var e := es[0];
      if e.Cleanup? {
        TrimmedByCleanup(s, t, clock, e.now);
        TrimmedRunsAgree(strict, s, Apply(t, e), checks, e.now, es[1..]);
      } else {
        if e.SendCode? { TrimmedSend(s, t, clock, e); } else { TrimmedLogin(s, t, checks, clock, e); }
        CoveredStep(s, checks, clock, e);
        assert Note(checks, s, e) == Note(checks, t, e);
        TrimmedRunsAgree(strict, Apply(s, e), Apply(t, e), Note(checks, s, e), e.now, es[1..]);
        assert Strip(es)[1..] == Strip(es[1..]);
      }
    }
  }

  /** Cleanups anywhere in a disciplined run change no answer, waiting times included. */
  lemma CleanupIsInvisible(strict: bool, es: seq<Event>)
    requires Clocked(0, es) && Disciplined(strict, Empty, map[], es)
    ensures Replies(Empty, es) == Replies(Empty, Strip(es))
  {
    TrimmedRunsAgree(strict, Empty, Empty, map[], 0, es);
  }

  /** The answers to the requests for codes alone. */
  function SendReplies(s: Store, es: seq<Event>): seq<Option<Answer>>
    decreases |es|
  {
    if es == [] then []
    else (if es[0].SendCode? then [Reply(s, es[0])] else []) + SendReplies(Apply(s, es[0]), es[1..])
  }

  /** Every event keeps the send entries the same but for expired ones, and answers a request for a code alike. */
  lemma SendsStep(s: Store, t: Store, clock: nat, e: Event)
    requires TrimmedSends(s.sends, t.sends, clock) && clock <= e.now
    ensures TrimmedSends(Apply(s, e).sends, Apply(t, e).sends, e.now)
    ensures e.SendCode? ==> Reply(s, e) == Reply(t, e)
  {
    var a, b := Store(s.sends, map[]), Store(t.sends, map[]);
    TrimmedLater(a, b, clock, e.now);
    if e.SendCode? { TrimmedSend(a, b, clock, e); }
  }

  lemma {:induction false} SendRunsAgree(s: Store, t: Store, clock: nat, es: seq<Event>)
    requires TrimmedSends(s.sends, t.sends, clock) && Clocked(clock, es)
    ensures SendReplies(t, es) == SendReplies(s, Strip(es))
    decreases |es|
  {
    if es != [] {
      var e := es[0];
      if e.Cleanup? {
        TrimmedByCleanup(Store(s.sends, map[]), Store(t.sends, map[]), clock, e.now);
        SendRunsAgree(s, Apply(t, e), e.now, es[1..]);
      } else {
        SendsStep(s, t, clock, e);
        SendRunsAgree(Apply(s, e), Apply(t, e), e.now, es[1..]);
        assert Strip(es)[1..] == Strip(es[1..]);
      }
    }
  }

  /** The send limiter needs no discipline: in any run, login events of any kind included, cleanups change no answer. */
  lemma CleanupIsInvisibleToSenders(s: Store, clock: nat, es: seq<Event>)
    requires Clocked(clock, es)
    ensures SendReplies(s, es) == SendReplies(s, Strip(es))
  {
    SendRunsAgree(s, s, clock, es);
  }

  function Failing(phone: string, t: nat, n: nat, rest: seq<Event>): seq<Event> {
    if n == 0 then rest else [Failure(phone, t)] + Failing(phone, t, n - 1, rest)
  }

  function Failed(s: Store, phone: string, t: nat, n: nat): Store
    decreases n
  {
    if n == 0 then s else Failed(Apply(s, Failure(phone, t)), phone, t, n - 1)
  }

  lemma {:induction false} FailingReplies(s: Store, phone: string, t: nat, n: nat, rest: seq<Event>)
    requires Clocked(t, rest)
    ensures Clocked(t, Failing(phone, t, n, rest))
    ensures Strip(Failing(phone, t, n, rest)) == Failing(phone, t, n, Strip(rest))
    ensures Replies(s, Failing(phone, t, n, rest)) == seq(n, _ => None) + Replies(Failed(s, phone, t, n), rest)
    decreases n
  {
    if n > 0 {
      FailingReplies(Apply(s, Failure(phone, t)), phone, t, n - 1, rest);
      var none: seq<Option<Answer>> := seq(n, _ => None);
      assert none == [None] + seq(n - 1, _ => None);
    }
  }

  lemma FailedFive(phone: string)
    ensures Failed(Empty, phone, 1, 5) == Store(map[], map[phone := AttemptRecord(5, 1 + LOCKOUT)])
  {
    var s2 := Apply(Apply(Empty, Failure(phone, 1)), Failure(phone, 1));
    var s4 := Apply(Apply(s2, Failure(phone, 1)), Failure(phone, 1));
    assert s4 == Store(map[], map[phone := AttemptRecord(4, 0)]);
    assert Failed(Empty, phone, 1, 5) == Failed(s2, phone, 1, 3) == Failed(s4, phone, 1, 1);
  }

  /** A failure and then a check. */
  function FailThenCheck(phone: string, now: nat): seq<Event> {
    [Failure(phone, now), CheckLogin(phone, now)]
  }

  lemma FailThenCheckReplies(s: Store, phone: string, now: nat)
    ensures Replies(s, FailThenCheck(phone, now))
         == [None, Reply(Apply(s, Failure(phone, now)), CheckLogin(phone, now))]
    ensures Strip(FailThenCheck(phone, now)) == FailThenCheck(phone, now) && Clocked(now, FailThenCheck(phone, now))
  {
    var es, last := FailThenCheck(phone, now), [CheckLogin(phone, now)];
    assert es[1..] == last && last[1..] == [];
    assert Strip(last) == last && Strip(es) == [es[0]] + Strip(last);
    assert Clocked(now, last);
    var s' := Apply(s, es[0]);
    assert Replies(s', last) == [Reply(s', last[0])];
    assert Replies(s, es) == [None] + Replies(s', last);
  }

  /** Without the discipline a cleanup shows: it forgives the five failures a late sixth would build on. */
  lemma CleanupShowsWithoutDiscipline(phone: string)
    ensures exists es :: Clocked(0, es) && Replies(Empty, es) != Replies(Empty, Strip(es))
  {
    var late := LOCKOUT + 3;
    var tail := FailThenCheck(phone, late);
    var swept := [Cleanup(late)] + tail;
    assert swept[1..] == tail;
    var locked := Failed(Empty, phone, 1, 5);
    FailedFive(phone);
    FailThenCheckReplies(locked, phone, late);
    FailThenCheckReplies(Empty, phone, late);
    assert Apply(locked, Cleanup(late)) == Empty;
    assert Replies(locked, swept) == Replies(Empty, tail) && Strip(swept) == tail;
    assert Clocked(1, swept) && Clocked(1, tail);
    FailingReplies(Empty, phone, 1, 5, swept);
    FailingReplies(Empty, phone, 1, 5, tail);
    var es := Failing(phone, 1, 5, swept);
    assert Clocked(0, es) && Strip(es) == Failing(phone, 1, 5, tail);
    assert Replies(Empty, tail)[1] == Some(Allowed) && Replies(locked, tail)[1] == Some(Refused(900));
    var none: seq<Option<Answer>> := seq(5, _ => None);
    assert (none + Replies(locked, swept))[6] == Some(Allowed);
    assert (none + Replies(locked, tail))[6] == Some(Refused(900));
  }

  lemma SweptStep(s: Store, t: Store, clock: nat, e: Event)
    requires TrimmedSends(s.sends, t.sends, clock) && s.logins == t.logins && clock <= e.now
    ensures Reply(s, e) == Reply(t, e)
    ensures TrimmedSends(Apply(s, e).sends, Apply(t, e).sends, e.now) && Apply(s, e).logins == Apply(t, e).logins
  {
    SendsStep(s, t, clock, e);
  }

  lemma {:induction false} SweptSendsAgree(s: Store, t: Store, clock: nat, es: seq<Event>)
    requires TrimmedSends(s.sends, t.sends, clock) && s.logins == t.logins && Clocked(clock, es)
    ensures Replies(s, es) == Replies(t, es)
    decreases |es|
  {
    if es != [] {
      SweptStep(s, t, clock, es[0]);
      SweptSendsAgree(Apply(s, es[0]), Apply(t, es[0]), es[0].now, es[1..]);
    }
  }

  /** A check right after a failure tells a forgotten expired lock from a remembered one. */
  lemma ExpiredLockShows(s: Store, clock: nat, now: nat, phone: string)
    requires WellFormed(s, clock) && phone in s.logins && LockExpired(s.logins[phone], now)
    ensures Clocked(now, FailThenCheck(phone, now))
    ensures Replies(Apply(s, Cleanup(now)), FailThenCheck(phone, now)) != Replies(s, FailThenCheck(phone, now))
  {
    var swept := Apply(s, Cleanup(now));
    FailThenCheckReplies(s, phone, now);
    FailThenCheckReplies(swept, phone, now);
    assert Reply(Apply(s, Failure(phone, now)), CheckLogin(phone, now)) != Some(Allowed);
    assert Reply(Apply(swept, Failure(phone, now)), CheckLogin(phone, now)) == Some(Allowed);
    assert Replies(s, FailThenCheck(phone, now))[1] != Replies(swept, FailThenCheck(phone, now))[1];
  }

  /**
   Without any discipline: a cleanup is invisible to every continuation exactly when it finds
   no expired lock.  What it does to the send limiter never shows.
   */
  lemma CleanupInvisibleIff(s: Store, clock: nat, now: nat)
    requires WellFormed(s, clock) && clock <= now
    ensures (forall es | Clocked(now, es) :: Replies(Apply(s, Cleanup(now)), es) == Replies(s, es))
       <==> forall p | p in s.logins :: !LockExpired(s.logins[p], now)
  {
    if p :| p in s.logins && LockExpired(s.logins[p], now) {
      ExpiredLockShows(s, clock, now, p);
    } else {
      assert SweptLogins(s.logins, now) == s.logins;
      forall es | Clocked(now, es) ensures Replies(Apply(s, Cleanup(now)), es) == Replies(s, es) {
        SweptSendsAgree(s, Apply(s, Cleanup(now)), now, es);
      }
    }
  }

  /** A cleanup removes exactly the windows that are over and the locks that are outwaited. */
  lemma CleanupOutcome(s: Store, now: nat, key: string)
    ensures var after := Apply(s, Cleanup(now));
            && (key in after.sends <==> key in s.sends && now <= s.sends[key].windowStart + 3600000)
            && (key in after.sends ==> after.sends[key] == s.sends[key])
            && (key in after.logins <==>
                key in s.logins && (s.logins[key].lockedUntil == 0 || now <= s.logins[key].lockedUntil))
            && (key in after.logins ==> after.logins[key] == s.logins[key])
  {
  }

  // ── The lockout rate ──

  /** The times at which failures of one phone are recorded. */
  function FailureTimes(es: seq<Event>, phone: string): seq<nat> {
    if es == [] then []
    else if es[0].Failure? && es[0].phone == phone then [es[0].now] + FailureTimes(es[1..], phone)
    else FailureTimes(es[1..], phone)
  }

  function CountWithin(times: seq<nat>, a: nat, b: nat): nat {
    if times == [] then 0 else (if a <= times[0] <= b then 1 else 0) + CountWithin(times[1..], a, b)
  }

  predicate NoSuccess(es: seq<Event>, phone: string) {
    forall e | e in es :: !(e.Success? && e.phone == phone)
  }

  /** How many failures in the closed lockout interval from `a` an entry leaves room for. */
  function FailureRoom(r: Option<AttemptRecord>, clock: nat, a: nat): int {
    if r.Some? && r.value.lockedUntil > 0 then
      if r.value.lockedUntil >= a + LOCKOUT then 0 else MAX_FAILURES
    else if clock > a + LOCKOUT then 0
    else if r.Some? && clock >= a then MAX_FAILURES - r.value.count
    else MAX_FAILURES
  }

  lemma {:induction false} FailuresWithinRoom(s: Store, checks: map<string, Check>, clock: nat, es: seq<Event>,
                                              phone: string, a: nat)
    requires WellFormed(s, clock) && Clocked(clock, es) && NoSuccess(es, phone)
    requires Covered(s, checks, clock) && Disciplined(true, s, checks, es)
    ensures CountWithin(FailureTimes(es, phone), a, a + LOCKOUT) <= FailureRoom(Entry(s.logins, phone), clock, a)
    decreases |es|
  {
    if es != [] {
      var e := es[0];
      assert e in es;
      ApplyWellFormed(s, clock, e);
      CoveredStep(s, checks, clock, e);
      FailuresWithinRoom(Apply(s, e), Note(checks, s, e), e.now, es[1..], phone, a);
    }
  }

  lemma {:induction false} WindowCount(times: seq<nat>, n: nat, a: nat, b: nat)
    requires n <= |times| && forall i | 0 <= i < n :: a <= times[i] <= b
    ensures CountWithin(times, a, b) >= n
  {
    if n > 0 { WindowCount(times[1..], n - 1, a, b); }
  }

  lemma {:induction false} CountOfTail(times: seq<nat>, i: nat, a: nat, b: nat)
    requires i <= |times|
    ensures CountWithin(times, a, b) >= CountWithin(times[i..], a, b)
  {
    if i > 0 {
      CountOfTail(times[1..], i - 1, a, b);
      assert times[1..][i - 1..] == times[i..];
    }
  }

  lemma {:induction false} FailureTimesAscend(es: seq<Event>, clock: nat, phone: string)
    requires Clocked(clock, es)
    ensures forall i | 0 <= i < |FailureTimes(es, phone)| :: clock <= FailureTimes(es, phone)[i]
    ensures forall i, j | 0 <= i <= j < |FailureTimes(es, phone)| ::
              FailureTimes(es, phone)[i] <= FailureTimes(es, phone)[j]
    decreases |es|
  {
    if es != [] { FailureTimesAscend(es[1..], es[0].now, phone); }
  }

  /** No closed lockout interval holds more than five failures of a phone that has had no success. */
  lemma FailuresPerLockout(s: Store, checks: map<string, Check>, clock: nat, es: seq<Event>, phone: string, a: nat)
    requires WellFormed(s, clock) && Clocked(clock, es) && NoSuccess(es, phone)
    requires Covered(s, checks, clock) && Disciplined(true, s, checks, es)
    ensures CountWithin(FailureTimes(es, phone), a, a + LOCKOUT) <= 5
  {
    FailuresWithinRoom(s, checks, clock, es, phone, a);
  }

  lemma SixthFailureWaits(s: Store, checks: map<string, Check>, clock: nat, es: seq<Event>, phone: string, i: nat)
    requires WellFormed(s, clock) && Clocked(clock, es) && NoSuccess(es, phone)
    requires Covered(s, checks, clock) && Disciplined(true, s, checks, es)
    requires i + 5 < |FailureTimes(es, phone)|
    ensures FailureTimes(es, phone)[i + 5] > FailureTimes(es, phone)[i] + LOCKOUT
  {
    var times := FailureTimes(es, phone);
    FailureTimesAscend(es, clock, phone);
    FailuresPerLockout(s, checks, clock, es, phone, times[i]);
    CountOfTail(times, i, times[i], times[i] + LOCKOUT);
    if times[i + 5] <= times[i] + LOCKOUT {
      WindowCount(times[i..], 6, times[i], times[i] + LOCKOUT);
    }
  }

  /** n failures without a success span at least floor((n - 1) / 5) lockouts, each outwaited by a millisecond. */
  lemma {:induction false} FailuresSpanLockouts(s: Store, checks: map<string, Check>, clock: nat, es: seq<Event>,
                                                phone: string, n: nat)
    requires WellFormed(s, clock) && Clocked(clock, es) && NoSuccess(es, phone)
    requires Covered(s, checks, clock) && Disciplined(true, s, checks, es)
    requires 0 < n <= |FailureTimes(es, phone)|
    ensures FailureTimes(es, phone)[n - 1] - FailureTimes(es, phone)[0] >= (n - 1) / 5 * (LOCKOUT + 1)
    decreases n
  {
    FailureTimesAscend(es, clock, phone);
    if n > 5 {
      SixthFailureWaits(s, checks, clock, es, phone, n - 6);
      FailuresSpanLockouts(s, checks, clock, es, phone, n - 5);
    }
  }

  /** The two hypotheses on a starting point hold of every point a disciplined run reaches. */
  lemma {:induction false} DisciplineCarries(s: Store, checks: map<string, Check>, clock: nat, es: seq<Event>,
                                             rest: seq<Event>)
    requires WellFormed(s, clock) && Covered(s, checks, clock)
    requires Clocked(clock, es + rest) && Disciplined(true, s, checks, es + rest)
    ensures exists checks', clock' ::
              WellFormed(Run(s, es), clock') && Covered(Run(s, es), checks', clock')
              && Clocked(clock', rest) && Disciplined(true, Run(s, es), checks', rest)
    decreases |es|
  {
    if es == [] {
      assert es + rest == rest;
      assert Covered(Run(s, es), checks, clock) && Disciplined(true, Run(s, es), checks, rest) && Clocked(clock, rest);
    } else {
      assert (es + rest)[1..] == es[1..] + rest && (es + rest)[0] == es[0];
      ApplyWellFormed(s, clock, es[0]);
      CoveredStep(s, checks, clock, es[0]);
      DisciplineCarries(Apply(s, es[0]), Note(checks, s, es[0]), es[0].now, es[1..], rest);
      assert Run(s, es) == Run(Apply(s, es[0]), es[1..]);
    }
  }

  /** The lockout rate over runs: any stretch of a disciplined run in which the phone has no success. */
  lemma LockoutRate(before: seq<Event>, es: seq<Event>, phone: string, n: nat, a: nat)
    requires Clocked(0, before + es) && Disciplined(true, Empty, map[], before + es)
    requires NoSuccess(es, phone) && 0 < n <= |FailureTimes(es, phone)|
    ensures FailureTimes(es, phone)[n - 1] - FailureTimes(es, phone)[0] >= (n - 1) / 5 * (LOCKOUT + 1)
    ensures CountWithin(FailureTimes(es, phone), a, a + LOCKOUT) <= 5
  {
    DisciplineCarries(Empty, map[], 0, before, es);
    var s := Run(Empty, before);
    var checks, clock :| WellFormed(s, clock) && Covered(s, checks, clock) && Clocked(clock, es)
                         && Disciplined(true, s, checks, es);
    FailuresSpanLockouts(s, checks, clock, es, phone, n);
    FailuresPerLockout(s, checks, clock, es, phone, a);
  }

  // ── Exactly when a phone is refused, from the events alone ──

  /** The lock of a run of failures: fifteen minutes from the last, once there are five. */
  predicate LockedAt(strikes: seq<nat>, now: nat) {
    |strikes| >= 5 && now <= strikes[|strikes| - 1] + 900000
  }

  /** The failures of a phone since its last success, or since it outwaited a lock. */
  function Strike(strikes: seq<nat>, e: Event, phone: string): seq<nat> {
    if e.Success? && e.phone == phone then []
    else if e.Failure? && e.phone == phone then
      (if |strikes| >= 5 && !LockedAt(strikes, e.now) then [] else strikes) + [e.now]
    else strikes
  }

  function Strikes(strikes: seq<nat>, es: seq<Event>, phone: string): seq<nat>
    decreases |es|
  {
    if es == [] then strikes else Strikes(Strike(strikes, es[0], phone), es[1..], phone)
  }

  /** What a phone's entry knows of its strikes; one without an entry has none, or has outwaited its lock. */
  ghost predicate Tallies(r: Option<AttemptRecord>, strikes: seq<nat>, clock: nat) {
    if r.None? then strikes == [] || (|strikes| >= 5 && !LockedAt(strikes, clock))
    else strikes != [] && r.value.count == |strikes|
         && r.value.lockedUntil == if |strikes| >= 5 then strikes[|strikes| - 1] + 900000 else 0
  }

  lemma TalliesStep(s: Store, checks: map<string, Check>, clock: nat, e: Event, phone: string, strikes: seq<nat>)
    requires Tallies(Entry(s.logins, phone), strikes, clock) && Covered(s, checks, clock) && clock <= e.now
    requires e.Failure? ==> e.phone in checks && (checks[e.phone].clean || e.now <= checks[e.phone].at + LOCKOUT)
    ensures Tallies(Entry(Apply(s, e).logins, phone), Strike(strikes, e, phone), e.now)
  {
    if e.Failure? && e.phone == phone && phone in s.logins && s.logins[phone].lockedUntil > 0 {
      assert e.now <= s.logins[phone].lockedUntil;
    }
  }

  lemma {:induction false} TalliesRun(
    strict: bool, s: Store, checks: map<string, Check>, clock: nat, es: seq<Event>, phone: string, strikes: seq<nat>,
    later: nat)
    requires Tallies(Entry(s.logins, phone), strikes, clock) && Covered(s, checks, clock)
    requires Clocked(clock, es) && Disciplined(strict, s, checks, es)
    requires clock <= later && (es != [] ==> es[|es| - 1].now <= later)
    ensures Tallies(Entry(Run(s, es).logins, phone), Strikes(strikes, es, phone), later)
    decreases |es|
  {
    if es != [] {
      LastIsLatest(clock, es);
      TalliesStep(s, checks, clock, es[0], phone, strikes);
      CoveredStep(s, checks, clock, es[0]);
      TalliesRun(strict, Apply(s, es[0]), Note(checks, s, es[0]), es[0].now, es[1..], phone,
                 Strike(strikes, es[0], phone), later);
    }
  }

  /**
   Over every disciplined run a login check is refused exactly when the phone has had five failures or
   more since its last success or outwaited lock, the last of them at most fifteen minutes ago; the
   waiting time is what is left of those, in whole seconds rounded up.
   */
  lemma LockoutExactly(strict: bool, es: seq<Event>, phone: string, now: nat)
    requires Clocked(0, es) && Disciplined(strict, Empty, map[], es) && (es != [] ==> es[|es| - 1].now <= now)
    ensures var strikes, answer := Strikes([], es, phone), Reply(Run(Empty, es), CheckLogin(phone, now));
            && (answer == Some(Allowed) <==> |strikes| < 5 || now > strikes[|strikes| - 1] + 900000)
            && (answer != Some(Allowed) ==>
                  && answer.Some? && answer.value.Refused? && |strikes| >= 5
                  && var left := strikes[|strikes| - 1] + 900000 - now;
                  1000 * (answer.value.retryAfterSec - 1) < left <= 1000 * answer.value.retryAfterSec)
  {
    TalliesRun(strict, Empty, map[], 0, es, phone, [], now);
  }

  function CountFailures(es: seq<Event>, phone: string): nat {
    if es == [] then 0 else (if es[0].Failure? && es[0].phone == phone then 1 else 0) + CountFailures(es[1..], phone)
  }

  lemma {:induction false} StrikesAtMost(strikes: seq<nat>, es: seq<Event>, phone: string)
    ensures |Strikes(strikes, es, phone)| <= |strikes| + CountFailures(es, phone)
    decreases |es|
  {
    if es != [] { StrikesAtMost(Strike(strikes, es[0], phone), es[1..], phone); }
  }

  lemma {:induction false} StrikesConcat(strikes: seq<nat>, a: seq<Event>, b: seq<Event>, phone: string)
    ensures Strikes(strikes, a + b, phone) == Strikes(Strikes(strikes, a, phone), b, phone)
    decreases |a|
  {
    if a == [] {
      assert a + b == b;
    } else {
      assert (a + b)[1..] == a[1..] + b;
      StrikesConcat(Strike(strikes, a[0], phone), a[1..], b, phone);
    }
  }

  /** A success forgives: until five more failures the phone is allowed. */
  lemma SuccessForgives(strict: bool, before: seq<Event>, phone: string, at: nat, after: seq<Event>, now: nat)
    requires var es := before + ([Success(phone, at)] + after);
             Clocked(0, es) && Disciplined(strict, Empty, map[], es) && es[|es| - 1].now <= now
    requires CountFailures(after, phone) < 5
    ensures Reply(Run(Empty, before + ([Success(phone, at)] + after)), CheckLogin(phone, now)) == Some(Allowed)
  {
    var tail := [Success(phone, at)] + after;
    LockoutExactly(strict, before + tail, phone, now);
    StrikesConcat([], before, tail, phone);
    assert tail[0] == Success(phone, at) && tail[1..] == after;
    StrikesAtMost([], after, phone);
  }

  // ── Exactly when an IP is refused, from the events alone ──

  /** The requests admitted from an IP in its latest window: five at most, within an hour of the first. */
  function Send(window: seq<nat>, e: Event, ip: string): seq<nat> {
    if !(e.SendCode? && e.ip == ip) then window
    else if window == [] || e.now > window[0] + 3600000 then [e.now]
    else if |window| < 5 then window + [e.now]
    else window
  }

  function Window(window: seq<nat>, es: seq<Event>, ip: string): seq<nat>
    decreases |es|
  {
    if es == [] then window else Window(Send(window, es[0], ip), es[1..], ip)
  }

  /** What an IP's entry knows of its window; one without an entry has none, or its hour is over. */
  ghost predicate Records(r: Option<SendRecord>, window: seq<nat>, clock: nat) {
    |window| <= 5 && (window != [] ==> window[0] <= clock)
    && if r.None? then window == [] || clock > window[0] + 3600000
    else window != [] && r.value.count == |window| && r.value.windowStart == window[0]
  }

  lemma RecordsStep(s: Store, clock: nat, e: Event, ip: string, window: seq<nat>)
    requires Records(Entry(s.sends, ip), window, clock) && clock <= e.now
    ensures Records(Entry(Apply(s, e).sends, ip), Send(window, e, ip), e.now)
  {
  }

  lemma {:induction false} RecordsRun(s: Store, clock: nat, es: seq<Event>, ip: string, window: seq<nat>, later: nat)
    requires Records(Entry(s.sends, ip), window, clock) && Clocked(clock, es)
    requires clock <= later && (es != [] ==> es[|es| - 1].now <= later)
    ensures Records(Entry(Run(s, es).sends, ip), Window(window, es, ip), later)
    decreases |es|
  {
    if es != [] {
      LastIsLatest(clock, es);
      RecordsStep(s, clock, es[0], ip, window);
      RecordsRun(Apply(s, es[0]), es[0].now, es[1..], ip, Send(window, es[0], ip), later);
    }
  }

  /**
   Over every run a request for a code is refused exactly when five were admitted from its IP in a window that
   began at most an hour ago; the waiting time is what is left of the hour, in whole seconds rounded up.
   */
  lemma SendLimitExactly(es: seq<Event>, ip: string, now: nat)
    requires Clocked(0, es) && (es != [] ==> es[|es| - 1].now <= now)
    ensures var window, answer := Window([], es, ip), Reply(Run(Empty, es), SendCode(ip, now));
            && (answer == Some(Allowed) <==> |window| < 5 || now > window[0] + 3600000)
            && (answer != Some(Allowed) ==>
                  && answer.Some? && answer.value.Refused? && |window| == 5
                  && var left := window[0] + 3600000 - now;
                  1000 * (answer.value.retryAfterSec - 1) < left <= 1000 * answer.value.retryAfterSec)
  {
    RecordsRun(Empty, 0, es, ip, [], now);
  }
}
