/** The outbound rate governor: its counters and deadline, and requests that interleave over them. */
module GovernorModel {
  import opened Wrappers
  import SearchArguments

  const MAX_IN_FLIGHT := 4
  /** Times are in milliseconds. */
  const DEFAULT_BACKOFF_BASE := 2_000
  const MAX_DEFAULT_BACKOFF := 60_000
  const MAX_SERVER_BACKOFF := 300_000

  datatype Response = Response(status: nat, headers: map<string, string>)

  predicate IsBlank(c: char) {
    c == ' ' || ('\t' <= c <= '\r')
  }

  function TrimStart(s: string): string {
    if s != "" && IsBlank(s[0]) then TrimStart(s[1..]) else s
  }

  function TrimEnd(s: string): string {
    if s != "" && IsBlank(s[|s| - 1]) then TrimEnd(s[..|s| - 1]) else s
  }

  /** The delay a header asks for. The second header counts only when the first is absent, not when it is unreadable. */
  function HeaderDelay(headers: map<string, string>): Option<nat> {
    var v := if "retry-after" in headers then Some(headers["retry-after"])
             else if "suspension-time" in headers then Some(headers["suspension-time"])
             else None;
    if v.Some? then SearchArguments.ParseUnsigned(TrimEnd(TrimStart(v.value)), SearchArguments.TWO_64) else None
  }

  /** How a finished request affects the governor. */
  datatype Outcome =
    | Throttled(serverSecs: Option<nat>)
    | Success
    | Other

  function OutcomeOf(r: Response): (o: Outcome)
    ensures o.Throttled? <==> r.status == 429 || r.status == 503
    ensures o.Success? <==> 200 <= r.status < 300
  {
    if r.status == 429 || r.status == 503 then Throttled(HeaderDelay(r.headers))
    else if 200 <= r.status < 300 then Success
    else Other
  }

  predicate AllBlank(s: string) {
    forall i :: 0 <= i < |s| ==> s[i] in " \t\n\U{000B}\U{000C}\r"
  }

  lemma {:induction false} Trimmed(before: string, s: string, after: string)
    requires AllBlank(before) && AllBlank(after) && SearchArguments.AllDigits(s) && s != ""
    ensures TrimEnd(TrimStart(before + s + after)) == s
    decreases |before| + |after|
  {
    var text := before + s + after;
    assert SearchArguments.IsDigit(s[0]) && SearchArguments.IsDigit(s[|s| - 1]);
    if before != "" {
      assert text[0] == before[0] && text[1..] == before[1..] + s + after;
      Trimmed(before[1..], s, after);
    } else {
      assert text == s + after && text[0] == s[0];
      EndTrimmed(s, after);
    }
  }

  lemma {:induction false} EndTrimmed(s: string, after: string)
    requires AllBlank(after) && s != "" && SearchArguments.IsDigit(s[|s| - 1])
    ensures TrimEnd(s + after) == s
  {
    if after == "" {
      assert s + after == s;
    } else {
      var n := |after| - 1;
      assert (s + after)[..|s| + n] == s + after[..n] && (s + after)[|s| + n] == after[n];
      EndTrimmed(s, after[..n]);
    }
  }

  /** The header's value is a 64-bit number of seconds between blanks. */
  ghost predicate AsksFor(value: string, secs: nat) {
    exists before, after :: AllBlank(before) && AllBlank(after)
                            && value == before + SearchArguments.Decimal(secs) + after
  }

  lemma DelayRead(value: string, secs: nat)
    requires AsksFor(value, secs)
    ensures SearchArguments.ParseUnsigned(TrimEnd(TrimStart(value)), SearchArguments.TWO_64)
            == if secs < SearchArguments.TWO_64 then Some(secs) else None
  {
    var before, after :| AllBlank(before) && AllBlank(after)
                         && value == before + SearchArguments.Decimal(secs) + after;
    Trimmed(before, SearchArguments.Decimal(secs), after);
    SearchArguments.ValueDecimal(secs);
    assert SearchArguments.IsDigit(SearchArguments.Decimal(secs)[0]);
  }

  lemma {:induction false} TrimStartKeeps(s: string, c: char)
    requires c in s && !IsBlank(c)
    ensures c in TrimStart(s)
  {
    if IsBlank(s[0]) {
      TrimStartKeeps(s[1..], c);
    }
  }

  lemma {:induction false} TrimEndKeeps(s: string, c: char)
    requires c in s && !IsBlank(c)
    ensures c in TrimEnd(s)
  {
    if IsBlank(s[|s| - 1]) {
      assert s == s[..|s| - 1] + [s[|s| - 1]];
      TrimEndKeeps(s[..|s| - 1], c);
    }
  }

  /** A character that belongs in no number. */
  predicate IsForeign(c: char) {
    c !in " \t\n\U{000B}\U{000C}\r+0123456789"
  }

  lemma NoDelayRead(value: string, c: char)
    requires c in value && IsForeign(c)
    ensures SearchArguments.ParseUnsigned(TrimEnd(TrimStart(value)), SearchArguments.TWO_64) == None
  {
    TrimStartKeeps(value, c);
    TrimEndKeeps(TrimStart(value), c);
    var s := TrimEnd(TrimStart(value));
    var i :| 0 <= i < |s| && s[i] == c;
    assert !SearchArguments.IsDigit(s[i]);
    assert i > 0 ==> s[1..][i - 1] == s[i];
  }

  /**
   * A throttle carries the delay that Retry-After asks for, or else Suspension-Time. A Retry-After without a number in
   * it hides the other header.
   */
  lemma ThrottleCarriesDelay(r: Response, secs: nat)
    requires (r.status == 429 || r.status == 503) && secs < 0x1_0000_0000_0000_0000
    ensures "retry-after" in r.headers && AsksFor(r.headers["retry-after"], secs) ==>
              OutcomeOf(r) == Throttled(Some(secs))
    ensures "retry-after" !in r.headers && "suspension-time" in r.headers
            && AsksFor(r.headers["suspension-time"], secs) ==>
              OutcomeOf(r) == Throttled(Some(secs))
    ensures "retry-after" in r.headers && (exists c :: c in r.headers["retry-after"] && IsForeign(c)) ==>
              OutcomeOf(r) == Throttled(None)
    ensures "retry-after" !in r.headers && "suspension-time" !in r.headers ==> OutcomeOf(r) == Throttled(None)
  {
    if "retry-after" in r.headers {
      if AsksFor(r.headers["retry-after"], secs) {
        DelayRead(r.headers["retry-after"], secs);
      }
      if c :| c in r.headers["retry-after"] && IsForeign(c) {
        NoDelayRead(r.headers["retry-after"], c);
      }
    } else if "suspension-time" in r.headers && AsksFor(r.headers["suspension-time"], secs) {
      DelayRead(r.headers["suspension-time"], secs);
    }
  }

  // ----- backoff -----

  function Min(a: int, b: int): int {
    if a <= b then a else b
  }

  function Pow2(n: nat): nat {
    if n == 0 then 1 else 2 * Pow2(n - 1)
  }

  /** The counter wraps at 32 bits. */
  function Increment(n: nat): nat {
    if n + 1 == SearchArguments.TWO_32 then 0 else n + 1
  }

  /** The wait after a throttled response, and the counter after it. */
  function Backoff(count: nat, serverSecs: Option<nat>): (r: (nat, nat))
    ensures 2_000 <= r.0 <= 300_000
  {
    if serverSecs.Some? then
      var ms := serverSecs.value * 1000;
      (if ms < DEFAULT_BACKOFF_BASE then DEFAULT_BACKOFF_BASE
       else if ms > MAX_SERVER_BACKOFF then MAX_SERVER_BACKOFF else ms, 0)
    else
      var factor := Pow2(Min(count, 5));
      Pow2Bounds(Min(count, 5));
      (Min(DEFAULT_BACKOFF_BASE * factor, MAX_DEFAULT_BACKOFF), Increment(count))
  }

  lemma {:induction false} Pow2Bounds(n: nat)
    ensures 1 <= Pow2(n)
    ensures n >= 5 ==> Pow2(n) >= 32
  {
    if n > 0 {
      Pow2Bounds(n - 1);
      if n == 5 {
        assert Pow2(5) == 32;
      }
    }
  }

  /** Doubling from two seconds, up to a minute. */
  lemma DefaultBackoff(n: nat)
    ensures Backoff(n, None).0 == Min(60_000, 2_000 * Pow2(n))
  {
    Pow2Bounds(n);
    if n >= 5 {
      assert Pow2(5) == 32;
    }
  }

  function CountAfter(count: nat, o: Outcome): nat {
    match o
    case Throttled(secs) => Backoff(count, secs).1
    case Success => 0
    case Other => count
  }

  /** Header-less throttles since the last success or server-given delay. */
  function SinceReset(os: seq<Outcome>): nat {
    if os == [] then 0
    else
      match os[|os| - 1]
      case Throttled(secs) => if secs.Some? then 0 else SinceReset(os[..|os| - 1]) + 1
      case Success => 0
      case Other => SinceReset(os[..|os| - 1])
  }

  function CountOf(os: seq<Outcome>): nat {
    if os == [] then 0 else CountAfter(CountOf(os[..|os| - 1]), os[|os| - 1])
  }

  lemma IncrementWraps(n: nat)
    ensures Increment(n % SearchArguments.TWO_32) == (n + 1) % SearchArguments.TWO_32
  {
  }

  /** The counter counts the header-less throttles since the last reset, modulo 32 bits. */
  lemma {:induction false} CountIsSinceReset(os: seq<Outcome>)
    ensures CountOf(os) == SinceReset(os) % SearchArguments.TWO_32
  {
    if os != [] {
      CountIsSinceReset(os[..|os| - 1]);
      IncrementWraps(SinceReset(os[..|os| - 1]));
    }
  }

  lemma {:induction false} Pow2Increases(a: nat, b: nat)
    requires a < b
    ensures Pow2(a) < Pow2(b)
  {
    Pow2Bounds(b - 1);
    if a < b - 1 {
      Pow2Increases(a, b - 1);
    }
  }

  lemma {:induction false} WaitIsFull(n: nat)
    ensures Min(60_000, 2_000 * Pow2(n)) == 60_000 <==> n >= 5
  {
    assert Pow2(4) == 16;
    if n < 4 {
      Pow2Increases(n, 4);
    }
    Pow2Bounds(n);
  }

  lemma ModuloSmall(n: nat)
    ensures n < SearchArguments.TWO_32 ==> n % SearchArguments.TWO_32 == n
    ensures n >= SearchArguments.TWO_32 ==> n >= 5
  {
  }

  /**
   * Exactly when the wrap leaves a wait alone: the throttle after `n` header-less ones waits as long as with an
   * unbounded counter if and only if the counter has not wrapped or is back at five or more.
   */
  lemma {:induction false} WrapKeepsWaitIff(n: nat, c: nat)
    requires c == n % SearchArguments.TWO_32
    ensures Backoff(c, None).0 == Min(60_000, 2_000 * Pow2(n)) <==> n < SearchArguments.TWO_32 || c >= 5
  {
    DefaultBackoff(c);
    WaitIsFull(c);
    WaitIsFull(n);
    ModuloSmall(n);
  }

  function Later(until: Option<int>, deadline: int): int {
    if until.Some? && until.value >= deadline then until.value else deadline
  }

  /** The shared part of the client. */
  class Governor {
    var suspendedUntil: Option<int>
    var consecutiveThrottles: nat

    constructor ()
      ensures suspendedUntil == None && consecutiveThrottles == 0
    {
      suspendedUntil, consecutiveThrottles := None, 0;
    }

    method BackoffFor(serverSecs: Option<nat>) returns (backoff: nat)
      modifies this`consecutiveThrottles
      ensures (backoff, consecutiveThrottles) == Backoff(old(consecutiveThrottles), serverSecs)
    {
      if serverSecs.Some? {
        consecutiveThrottles := 0;
        var ms := serverSecs.value * 1000;
        return if ms < DEFAULT_BACKOFF_BASE then DEFAULT_BACKOFF_BASE
               else if ms > MAX_SERVER_BACKOFF then MAX_SERVER_BACKOFF else ms;
      }
      var n := consecutiveThrottles;
      consecutiveThrottles := Increment(n);
      var factor := Pow2(Min(n, 5));
      backoff := Min(DEFAULT_BACKOFF_BASE * factor, MAX_DEFAULT_BACKOFF);
    }

    method SuspendUntil(until: int)
      modifies this`suspendedUntil
      ensures suspendedUntil == Some(Later(old(suspendedUntil), until))
      ensures suspendedUntil.value >= until && (old(suspendedUntil).Some? ==> suspendedUntil.value >= old(suspendedUntil.value))
      ensures suspendedUntil == Some(until) || suspendedUntil == old(suspendedUntil)
    {
      if suspendedUntil.Some? && suspendedUntil.value >= until {
        return;
      }
      suspendedUntil := Some(until);
    }

    /** What a response does before its deadline is armed: the wait it asks for, if it is a throttle. */
    method Note(response: Response) returns (backoff: Option<nat>)
      modifies this`consecutiveThrottles
      ensures consecutiveThrottles == CountAfter(old(consecutiveThrottles), OutcomeOf(response))
      ensures var o := OutcomeOf(response);
              backoff == if o.Throttled? then Some(Backoff(old(consecutiveThrottles), o.serverSecs).0) else None
    {
      var o := OutcomeOf(response);
      backoff := None;
      if o.Throttled? {
        var b := BackoffFor(o.serverSecs);
        backoff := Some(b);
      } else if o.Success? {
        consecutiveThrottles := 0;
      }
    }
  }

  // ----- interleaved requests -----

  /** Where a request that holds a permit stands. */
  datatype Phase =
    | Entering
    | Read(until: Option<int>, seen: nat)
    | Sleeping(wake: int)
    | Sent
    | Backing(throttled: int, backoff: nat)
    | Arming(pause: Pause)

  /** A pause for a throttle that was handled at `throttled` and asks for `backoff`, its deadline set at `planned`. */
  datatype Pause = Pause(throttled: int, planned: int, deadline: int, backoff: nat)

  /** A request that went past the gate, and how many deadlines had been armed when it last read the gate. */
  datatype Passed = Passed(time: int, seen: nat)

  /** `armed`, `passed` and `outcomes` are history. */
  datatype State = State(clock: int, until: Option<int>, count: nat, permits: nat, active: map<nat, Phase>,
                         armed: seq<Pause>, passed: seq<Passed>, outcomes: seq<Outcome>)

  datatype Label =
    | Tick(ms: nat)
    | Acquire(id: nat)
    | ReadGate(id: nat)
    | Decide(id: nat)
    | Wake(id: nat)
    | Finish(id: nat, outcome: Outcome)
    | Fail(id: nat)
    | Plan(id: nat)
    | Arm(id: nat)

  const START := State(0, None, 0, MAX_IN_FLIGHT, map[], [], [], [])

  function Enter(s: State, id: nat, p: Phase): State {
    s.(active := s.active[id := p])
  }

  function Leave(s: State, id: nat): State {
    s.(active := s.active - {id}, permits := s.permits + 1)
  }

  function Pass(s: State, id: nat, seen: nat): State {
    Enter(s, id, Sent).(passed := s.passed + [Passed(s.clock, seen)])
  }

  /** One atomic step, if it is possible. A request that ends or fails, or is dropped, gives its permit back. */
  function Do(s: State, l: Label): Option<State> {
    if l.Tick? then Some(s.(clock := s.clock + l.ms))
    else if l.Acquire? then
      if l.id !in s.active && s.permits > 0 then Some(Enter(s, l.id, Entering).(permits := s.permits - 1)) else None
    else if l.id !in s.active then None
    else
      match (l, s.active[l.id])
      case (ReadGate(id), Entering) => Some(Enter(s, id, Read(s.until, |s.armed|)))
      case (Decide(id), Read(until, seen)) =>
        if until.Some? && until.value > s.clock then Some(Enter(s, id, Sleeping(until.value)))
        else Some(Pass(s, id, seen))
      case (Wake(id), Sleeping(t)) => if s.clock >= t then Some(Enter(s, id, Entering)) else None
      case (Finish(id, o), Sent) =>
        var t := s.(count := CountAfter(s.count, o), outcomes := s.outcomes + [o]);
        Some(if o.Throttled? then Enter(t, id, Backing(s.clock, Backoff(s.count, o.serverSecs).0)) else Leave(t, id))
      case (Fail(id), _) => Some(Leave(s, id))
      case (Plan(id), Backing(t, b)) => Some(Enter(s, id, Arming(Pause(t, s.clock, s.clock + b, b))))
      case (Arm(id), Arming(a)) =>
        Some(Leave(s, id).(until := Some(Later(s.until, a.deadline)), armed := s.armed + [a]))
      case _ => None
  }

  function Run(s: State, ls: seq<Label>): Option<State>
    decreases |ls|
  {
    if ls == [] then Some(s)
    else
      var t := Do(s, ls[0]);
      if t.Some? then Run(t.value, ls[1..]) else None
  }

  /** The gate covers every deadline armed so far. */
  predicate Covers(until: Option<int>, armed: seq<Pause>) {
    forall k :: 0 <= k < |armed| ==> until.Some? && armed[k].deadline <= until.value
  }

  /** Without a deadline the gate is open; otherwise it is one of those armed. */
  predicate IsArmed(until: Option<int>, armed: seq<Pause>) {
    until.Some? ==> exists k :: 0 <= k < |armed| && armed[k].deadline == until.value
  }

  /** The deadline is the time it was set plus the backoff, which lies between two seconds and five minutes. */
  predicate PauseSound(a: Pause) {
    a.throttled <= a.planned && a.deadline == a.planned + a.backoff && 2_000 <= a.backoff <= 300_000
  }

  predicate PhaseSound(s: State, p: Phase) {
    match p
    case Read(until, seen) => seen <= |s.armed| && Covers(until, s.armed[..seen])
    case Backing(t, b) => t <= s.clock && 2_000 <= b <= 300_000
    case Arming(a) => PauseSound(a)
    case _ => true
  }

  predicate PassedSound(s: State, p: Passed) {
    p.seen <= |s.armed| && forall k :: 0 <= k < p.seen ==> s.armed[k].deadline <= p.time
  }

  /** What every reachable state satisfies. */
  predicate Inv(s: State) {
    && |s.active| + s.permits == MAX_IN_FLIGHT
    && s.count == CountOf(s.outcomes)
    && Covers(s.until, s.armed) && IsArmed(s.until, s.armed)
    && (forall id :: id in s.active ==> PhaseSound(s, s.active[id]))
    && (forall p :: p in s.passed ==> PassedSound(s, p))
    && (forall a :: a in s.armed ==> PauseSound(a))
  }

  lemma EnterInv(s: State, id: nat, p: Phase)
    requires Inv(s) && id in s.active && PhaseSound(s, p)
    ensures Inv(Enter(s, id, p))
  {
    assert s.active[id := p].Keys == s.active.Keys;
    assert |s.active[id := p]| == |s.active[id := p].Keys|;
  }

  lemma LeaveInv(s: State, id: nat)
    requires Inv(s) && id in s.active
    ensures Inv(Leave(s, id))
  {
    assert (s.active - {id}).Keys == s.active.Keys - {id};
    assert |s.active - {id}| == |(s.active - {id}).Keys|;
  }

  lemma PhaseStaysSound(s: State, t: State)
    requires Inv(s) && t.active == s.active && t.count == CountOf(t.outcomes) && t.permits == s.permits
    requires t.passed == s.passed && (t.armed == s.armed && t.until == s.until) && t.clock >= s.clock
    ensures Inv(t)
  {
  }

  lemma AcquireInv(s: State, id: nat)
    requires Inv(s) && id !in s.active && s.permits > 0
    ensures Inv(Enter(s, id, Entering).(permits := s.permits - 1))
  {
    assert s.active[id := Entering].Keys == s.active.Keys + {id};
    assert |s.active[id := Entering]| == |s.active[id := Entering].Keys|;
  }

  lemma PassInv(s: State, id: nat, seen: nat)
    requires Inv(s) && id in s.active && PassedSound(s, Passed(s.clock, seen))
    ensures Inv(Pass(s, id, seen))
  {
    EnterInv(s, id, Sent);
  }

  lemma LatestArmed(until: Option<int>, armed: seq<Pause>, a: Pause)
    requires IsArmed(until, armed)
    ensures IsArmed(Some(Later(until, a.deadline)), armed + [a])
  {
    if until.Some? {
      var k :| 0 <= k < |armed| && armed[k].deadline == until.value;
      assert (armed + [a])[k] == armed[k];
    }
    assert (armed + [a])[|armed|] == a;
  }

  lemma ArmInv(s: State, id: nat, a: Pause)
    requires Inv(s) && id in s.active && PauseSound(a)
    ensures Inv(Leave(s, id).(until := Some(Later(s.until, a.deadline)), armed := s.armed + [a]))
  {
    LeaveInv(s, id);
    var t := Leave(s, id).(until := Some(Later(s.until, a.deadline)), armed := s.armed + [a]);
    LatestArmed(s.until, s.armed, a);
    forall i | i in t.active ensures PhaseSound(t, t.active[i]) {
      assert PhaseSound(s, s.active[i]);
      if t.active[i].Read? {
        assert t.armed[..t.active[i].seen] == s.armed[..t.active[i].seen];
      }
    }
    forall p | p in t.passed ensures PassedSound(t, p) {
      assert PassedSound(s, p);
    }
  }

  lemma FinishInv(s: State, id: nat, o: Outcome)
    requires Inv(s) && id in s.active
    ensures var t := s.(count := CountAfter(s.count, o), outcomes := s.outcomes + [o]);
            Inv(if o.Throttled? then Enter(t, id, Backing(s.clock, Backoff(s.count, o.serverSecs).0)) else Leave(t, id))
  {
    var t := s.(count := CountAfter(s.count, o), outcomes := s.outcomes + [o]);
    assert t.outcomes[..|t.outcomes| - 1] == s.outcomes;
    PhaseStaysSound(s, t);
    if o.Throttled? {
      EnterInv(t, id, Backing(s.clock, Backoff(s.count, o.serverSecs).0));
    } else {
      LeaveInv(t, id);
    }
  }

  lemma ReadInv(s: State, id: nat)
    requires Inv(s) && id in s.active
    ensures Inv(Enter(s, id, Read(s.until, |s.armed|)))
  {
    assert s.armed[..|s.armed|] == s.armed;
    EnterInv(s, id, Read(s.until, |s.armed|));
  }

  lemma DecideInv(s: State, id: nat, until: Option<int>, seen: nat)
    requires Inv(s) && id in s.active && PhaseSound(s, Read(until, seen))
    ensures Inv(if until.Some? && until.value > s.clock then Enter(s, id, Sleeping(until.value)) else Pass(s, id, seen))
  {
    if until.Some? && until.value > s.clock {
      EnterInv(s, id, Sleeping(until.value));
    } else {
      assert forall k :: 0 <= k < seen ==> s.armed[..seen][k] == s.armed[k];
      PassInv(s, id, seen);
    }
  }

  lemma StepInv(s: State, l: Label)
    requires Inv(s) && Do(s, l).Some?
    ensures Inv(Do(s, l).value)
  {
    if l.Tick? {
      PhaseStaysSound(s, s.(clock := s.clock + l.ms));
    } else if l.Acquire? {
      AcquireInv(s, l.id);
    } else {
      assert PhaseSound(s, s.active[l.id]);
      match (l, s.active[l.id])
      case (ReadGate(id), Entering) =>
        ReadInv(s, id);
      case (Decide(id), Read(until, seen)) =>
        DecideInv(s, id, until, seen);
      case (Wake(id), Sleeping(_)) => EnterInv(s, id, Entering);
      case (Finish(id, o), Sent) => FinishInv(s, id, o);
      case (Fail(id), _) => LeaveInv(s, id);
      case (Plan(id), Backing(t, b)) => EnterInv(s, id, Arming(Pause(t, s.clock, s.clock + b, b)));
      case (Arm(id), Arming(a)) => ArmInv(s, id, a);
      case _ =>
    }
  }

  lemma {:induction false} RunInv(s: State, ls: seq<Label>)
    requires Inv(s) && Run(s, ls).Some?
    ensures Inv(Run(s, ls).value)
    decreases |ls|
  {
    if ls != [] {
      StepInv(s, ls[0]);
      RunInv(Do(s, ls[0]).value, ls[1..]);
    }
  }

  /**
   * In every run: at most four requests are past the permit, and none is lost; the gate shows the latest deadline that
   * was armed; every backoff lies between two seconds and five minutes,
   * and every armed deadline is that much after the time it was set, which is not before the throttle was handled; and
   * a request that read the gate after a deadline was armed goes past it no earlier than that deadline.
   */
  lemma ThrottleSafety(ls: seq<Label>)
    requires Run(START, ls).Some?
    ensures var s := Run(START, ls).value;
            && |s.active| + s.permits == 4
            && Covers(s.until, s.armed) && IsArmed(s.until, s.armed)
            && (forall a :: a in s.armed ==> PauseSound(a))
            && (forall p, k :: p in s.passed && 0 <= k < p.seen <= |s.armed| ==>
                  s.armed[k].throttled + s.armed[k].backoff <= s.armed[k].deadline <= p.time)
            && (forall p :: p in s.passed ==> p.seen <= |s.armed|)
  {
    RunInv(START, ls);
    var s := Run(START, ls).value;
    assert forall p :: p in s.passed ==> PassedSound(s, p);
    assert forall k :: 0 <= k < |s.armed| ==> s.armed[k] in s.armed;
  }

  /** A request that sleeps does so until the deadline it saw, unless it is dropped. */
  lemma {:induction false} SleepsUntilDeadline(s: State, ls: seq<Label>, id: nat, wake: int)
    requires Run(s, ls).Some? && id in s.active && s.active[id] == Sleeping(wake)
    requires Fail(id) !in ls && Run(s, ls).value.clock < wake
    ensures id in Run(s, ls).value.active && Run(s, ls).value.active[id] == Sleeping(wake)
    decreases |ls|
  {
    if ls != [] {
      ClockRuns(Do(s, ls[0]).value, ls[1..]);
      SleepsUntilDeadline(Do(s, ls[0]).value, ls[1..], id, wake);
    }
  }

  lemma {:induction false} ClockRuns(s: State, ls: seq<Label>)
    requires Run(s, ls).Some?
    ensures s.clock <= Run(s, ls).value.clock
    decreases |ls|
  {
    if ls != [] {
      ClockRuns(Do(s, ls[0]).value, ls[1..]);
    }
  }

  /** The deadline never moves back. */
  lemma {:induction false} DeadlineMonotone(s: State, ls: seq<Label>)
    requires Run(s, ls).Some? && s.until.Some?
    ensures var t := Run(s, ls).value; t.until.Some? && s.until.value <= t.until.value
    decreases |ls|
  {
    if ls != [] {
      DeadlineMonotone(Do(s, ls[0]).value, ls[1..]);
    }
  }

  /** A throttle without a delay, the (n+1)-th since a reset, waits 2·2^n seconds up to a minute, n modulo 32 bits. */
  lemma EscalatingBackoff(ls: seq<Label>, id: nat)
    requires Run(START, ls).Some?
    requires var s := Run(START, ls).value; id in s.active && s.active[id].Sent?
    ensures var s := Run(START, ls).value;
            var n := SinceReset(s.outcomes);
            Do(s, Finish(id, Throttled(None))) ==
            Some(Enter(s, id, Backing(s.clock, Min(60_000, 2_000 * Pow2(n % SearchArguments.TWO_32))))
                 .(count := (n + 1) % SearchArguments.TWO_32, outcomes := s.outcomes + [Throttled(None)]))
  {
    RunInv(START, ls);
    var s := Run(START, ls).value;
    CountIsSinceReset(s.outcomes);
    IncrementWraps(SinceReset(s.outcomes));
    DefaultBackoff(s.count);
  }

  /** A throttle with a delay waits that many seconds, but between two seconds and five minutes, and counts as a reset. */
  lemma ServerDelayIsKept(ls: seq<Label>, id: nat, secs: nat)
    requires Run(START, ls).Some?
    requires var s := Run(START, ls).value; id in s.active && s.active[id].Sent?
    ensures var s := Run(START, ls).value;
            var wait := if secs <= 2 then 2_000 else if secs <= 300 then 1_000 * secs else 300_000;
            Do(s, Finish(id, Throttled(Some(secs)))) ==
            Some(Enter(s, id, Backing(s.clock, wait)).(count := 0, outcomes := s.outcomes + [Throttled(Some(secs))]))
    ensures SinceReset(Run(START, ls).value.outcomes + [Throttled(Some(secs))]) == 0
  {
  }

  // ----- when a deadline really holds everything back -----

  /** Every request between reading the gate and deciding has seen a deadline at least this late. */
  predicate NoneHasRead(s: State, deadline: int) {
    forall id :: id in s.active && s.active[id].Read? ==>
      s.active[id].until.Some? && s.active[id].until.value >= deadline
  }

  /** In every continuation, nothing more goes past the gate before the deadline. */
  ghost predicate HoldsBack(s: State, deadline: int) {
    forall ls, j :: Run(s, ls).Some? && |s.passed| <= j < |Run(s, ls).value.passed| ==>
      Run(s, ls).value.passed[j].time >= deadline
  }

  lemma StepHolds(s: State, l: Label, deadline: int)
    requires Do(s, l).Some? && s.until.Some? && s.until.value >= deadline && NoneHasRead(s, deadline)
    ensures var t := Do(s, l).value;
            && t.until.Some? && t.until.value >= deadline && NoneHasRead(t, deadline)
            && |s.passed| <= |t.passed| <= |s.passed| + 1
            && t.passed[..|s.passed|] == s.passed
            && (|t.passed| > |s.passed| ==> t.passed[|s.passed|].time >= deadline)
  {
  }

  lemma {:induction false} RunHolds(s: State, ls: seq<Label>, deadline: int, j: nat)
    requires Run(s, ls).Some? && s.until.Some? && s.until.value >= deadline && NoneHasRead(s, deadline)
    requires |s.passed| <= j < |Run(s, ls).value.passed|
    ensures Run(s, ls).value.passed[j].time >= deadline
    decreases |ls|
  {
    if ls != [] {
      var t := Do(s, ls[0]).value;
      StepHolds(s, ls[0], deadline);
      if j < |t.passed| {
        PassedKept(t, ls[1..]);
        assert Run(s, ls).value.passed[..|t.passed|][j] == t.passed[j];
      } else {
        RunHolds(t, ls[1..], deadline, j);
      }
    }
  }

  lemma {:induction false} PassedKept(s: State, ls: seq<Label>)
    requires Run(s, ls).Some?
    ensures s.passed <= Run(s, ls).value.passed
    decreases |ls|
  {
    if ls != [] {
      PassedKept(Do(s, ls[0]).value, ls[1..]);
    }
  }

  /** A request that read the gate too early can still go past it. */
  lemma EarlyReaderPasses(s: State, deadline: int, id: nat)
    requires s.clock < deadline && id in s.active && s.active[id].Read?
    requires s.active[id].until.Some? ==> s.active[id].until.value < deadline
    ensures !HoldsBack(s, deadline)
  {
    var until := s.active[id].until;
    var ms: nat := if until.Some? && until.value > s.clock then until.value - s.clock else 0;
    var later := s.(clock := s.clock + ms);
    var ls := [Tick(ms), Decide(id)];
    assert ls[1..] == [Decide(id)] && ls[1..][1..] == [];
    assert Do(later, Decide(id)) == Some(Pass(later, id, s.active[id].seen));
    assert Run(later, [Decide(id)]) == Some(Pass(later, id, s.active[id].seen));
    assert Run(s, ls) == Some(Pass(later, id, s.active[id].seen));
    assert Run(s, ls).value.passed[|s.passed|].time < deadline;
  }

  /**
   * An armed deadline holds back every request until it is over exactly when no request stood between reading an
   * earlier gate and deciding. That one step is not covered by any lock.
   */
  lemma HoldsBackIff(s: State, deadline: int)
    requires s.until.Some? && s.until.value >= deadline && s.clock < deadline
    ensures HoldsBack(s, deadline) <==> NoneHasRead(s, deadline)
  {
    if NoneHasRead(s, deadline) {
      forall ls, j | Run(s, ls).Some? && |s.passed| <= j < |Run(s, ls).value.passed|
        ensures Run(s, ls).value.passed[j].time >= deadline
      {
        RunHolds(s, ls, deadline, j);
      }
    } else {
      var id :| id in s.active && s.active[id].Read? &&
        !(s.active[id].until.Some? && s.active[id].until.value >= deadline);
      EarlyReaderPasses(s, deadline, id);
    }
  }

  /** Two requests suffice: one is throttled while the other stands between reading the gate and deciding. */
  lemma EarlyReaderReachable(ls: seq<Label>)
    requires ls == [Acquire(0), ReadGate(0), Decide(0), Acquire(1), ReadGate(1), Finish(0, Throttled(None)), Plan(0),
                    Arm(0)]
    ensures Run(START, ls).Some? && Run(START, ls).value.until == Some(2_000) && Run(START, ls).value.clock == 0
    ensures !HoldsBack(Run(START, ls).value, 2_000)
  {
    var s := EarlyRun(ls);
    EarlyReaderPasses(s, 2_000, 1);
  }

  /** One request has passed, the other has just got its permit. */
  const ONE_PASSED := State(0, None, 0, 2, map[0 := Sent, 1 := Entering], [], [Passed(0, 0)], [])

  lemma EarlyRun(ls: seq<Label>) returns (s: State)
    requires ls == [Acquire(0), ReadGate(0), Decide(0), Acquire(1), ReadGate(1), Finish(0, Throttled(None)), Plan(0),
                    Arm(0)]
    ensures Run(START, ls) == Some(s) && s.until == Some(2_000) && s.clock == 0
    ensures 1 in s.active && s.active[1] == Read(None, 0)
  {
    s := SecondThrottled(ls[4..]);
    var s1 := Do(START, ls[0]).value;
    var s2 := Do(s1, ls[1]).value;
    var s3 := Do(s2, ls[2]).value;
    assert s3.active == map[0 := Sent];
    var s4 := Do(s3, ls[3]).value;
    assert s4.active == map[0 := Sent, 1 := Entering] && s4.passed == [Passed(0, 0)];
    assert s4 == ONE_PASSED;
    RunOne(s3, ls[3..], s);
    RunOne(s2, ls[2..], s);
    RunOne(s1, ls[1..], s);
    RunOne(START, ls, s);
  }

  lemma SecondThrottled(ls: seq<Label>) returns (s: State)
    requires ls == [ReadGate(1), Finish(0, Throttled(None)), Plan(0), Arm(0)]
    ensures Run(ONE_PASSED, ls) == Some(s) && s.until == Some(2_000) && s.clock == 0
    ensures 1 in s.active && s.active[1] == Read(None, 0)
  {
    var s5 := Do(ONE_PASSED, ls[0]).value;
    var s6 := Do(s5, ls[1]).value;
    var s7 := Do(s6, ls[2]).value;
    s := Do(s7, ls[3]).value;
    assert Pow2(0) == 1;
    RunOne(s7, ls[3..], s);
    RunOne(s6, ls[2..], s);
    RunOne(s5, ls[1..], s);
    RunOne(ONE_PASSED, ls, s);
  }

  lemma RunOne(s: State, ls: seq<Label>, t: State)
    requires ls != [] && Do(s, ls[0]).Some? && Run(Do(s, ls[0]).value, ls[1..]) == Some(t)
    ensures Run(s, ls) == Some(t)
  {
  }
}
