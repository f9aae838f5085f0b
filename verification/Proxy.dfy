/** custos/mcp_proxy.py: the circuit breaker in front of the gate, and one mediated call. */
module Proxy {
  import opened Base

  const REASON_TIMEOUT := "mcp_proxy_gate_timeout"
  const REASON_ERROR := "mcp_proxy_gate_error"
  const REASON_MALFORMED := "mcp_proxy_malformed_verdict"
  const REASON_CIRCUIT_OPEN := "mcp_proxy_gate_circuit_open"

  /** The four refusals the proxy makes on its own can be told apart. */
  lemma ReasonsDiffer()
    ensures REASON_TIMEOUT != REASON_ERROR && REASON_TIMEOUT != REASON_MALFORMED
    ensures REASON_TIMEOUT != REASON_CIRCUIT_OPEN && REASON_ERROR != REASON_MALFORMED
    ensures REASON_ERROR != REASON_CIRCUIT_OPEN && REASON_MALFORMED != REASON_CIRCUIT_OPEN
  {
    assert |REASON_MALFORMED| == |REASON_CIRCUIT_OPEN| ==> REASON_MALFORMED[10] != REASON_CIRCUIT_OPEN[10];
  }

  // ---------------------------------------------------------------------------------------------
  // The breaker
  // ---------------------------------------------------------------------------------------------

  datatype Breaker = Breaker(probing: bool, consecutive: nat, openUntil: Option<real>)

  const CLOSED := Breaker(false, 0, None)

  /** consecutive_timeout_limit and breaker_cooldown_seconds, as the constructor admits them. */
  datatype Settings = Settings(limit: nat, cooldown: real) {
    predicate Valid() { limit >= 1 && cooldown >= 0.0 }
  }

  /** What an answer or a timeout makes of the breaker. */
  function AfterAnswer(c: Settings, b: Breaker, timedOut: bool, now: real): Breaker {
    if !timedOut then CLOSED
    else if b.consecutive + 1 >= c.limit then Breaker(false, b.consecutive + 1, Some(now + c.cooldown))
    else Breaker(false, b.consecutive + 1, b.openUntil)
  }

  predicate Denies(b: Breaker, now: real) {
    b.probing || (b.openUntil.Some? && now < b.openUntil.value)
  }

  /** An answer forgets every timeout and closes the breaker; a timeout is one more, and from the limit on opens it for
      one cooldown; either ends a probe. */
  lemma AfterAnswerReads(c: Settings, b: Breaker, now: real)
    ensures var a := AfterAnswer(c, b, false, now);
            !a.probing && a.consecutive == 0 && a.openUntil.None?
    ensures var t := AfterAnswer(c, b, true, now);
            && !t.probing && t.consecutive == b.consecutive + 1
            && (t.consecutive >= c.limit ==> t.openUntil == Some(now + c.cooldown))
            && (t.consecutive < c.limit ==> t.openUntil == b.openUntil)
  {
  }

  /** What asking leaves behind: a lapsed cooldown turns the caller into the probe. */
  function AfterAsking(c: Settings, b: Breaker, now: real): Breaker {
    if Denies(b, now) || b.openUntil.None? then b
    else Breaker(true, if c.limit >= 1 then c.limit - 1 else 0, None)
  }

  /** A call is denied while a probe is out or the cooldown runs; the first after it becomes the probe, one timeout
      short of the limit; any other leaves the breaker alone. */
  lemma AskingReads(c: Settings, b: Breaker, now: real)
    requires c.Valid()
    ensures Denies(b, now) <==> b.probing || (b.openUntil.Some? && now < b.openUntil.value)
    ensures var a := AfterAsking(c, b, now);
            if !b.probing && b.openUntil.Some? && now >= b.openUntil.value
            then a.probing && a.openUntil.None? && a.consecutive == c.limit - 1
            else a == b
  {
  }

  /** Open exactly at the limit; a probe runs with the breaker shut and one timeout short of the limit. */
  predicate Sound(c: Settings, b: Breaker) {
    && (b.openUntil.Some? <==> b.consecutive >= c.limit)
    && (b.probing ==> b.openUntil.None? && b.consecutive == c.limit - 1)
  }

  lemma BreakerStaysSound(c: Settings, b: Breaker, timedOut: bool, now: real)
    requires c.Valid() && Sound(c, b)
    ensures Sound(c, AfterAnswer(c, b, timedOut, now))
    ensures Sound(c, AfterAsking(c, b, now))
  {
  }

  // ---------------------------------------------------------------------------------------------
  // Verdicts and outcomes
  // ---------------------------------------------------------------------------------------------

  /** Whatever an adapter put in `allowed`. */
  datatype Allowed = LiteralTrue | LiteralFalse | Other(repr: string)

  datatype Verdict = NoVerdict | Verdict(allowed: Allowed, recordHash: Option<string>, rule: Option<string>,
      reason: string)

  datatype Outcome = Outcome(
    forwarded: bool, traceId: string, recordHash: Option<string>, rule: Option<string>, reason: string,
    reconciled: bool)

  /** _refusal: None only for a literal True. */
  function Refusal(v: Verdict, trace: string): Option<Outcome> {
    match v
    case NoVerdict => Some(Outcome(false, trace, None, Some(REASON_MALFORMED), REASON_MALFORMED, false))
    case Verdict(allowed, recordHash, rule, reason) =>
      match allowed
      case LiteralTrue => None
      case LiteralFalse =>
        Some(Outcome(false, trace, recordHash, rule, if reason != "" then reason else "denied", false))
      case Other(repr) =>
        Some(Outcome(false, trace, None, Some(REASON_MALFORMED), REASON_MALFORMED + ": allowed=" + repr, false))
  }

  function Forwarded(v: Verdict, trace: string): Outcome
    requires v.Verdict?
  {
    Outcome(true, trace, v.recordHash, None, "", false)
  }

  /** How the bounded wait for the gate ended. */
  datatype Answer = TimedOut | Raised(kind: string) | Answered(verdict: Verdict)

  class McpProxy {
    const settings: Settings
    var probing: bool
    var consecutive: nat
    var openUntil: Option<real>

    ghost function State(): Breaker
      reads this
    {
      Breaker(probing, consecutive, openUntil)
    }

    ghost predicate Valid()
      reads this
    {
      settings.Valid() && Sound(settings, State())
    }

    constructor (settings: Settings)
      requires settings.Valid()
      ensures Valid() && this.settings == settings && State() == CLOSED
    {
      this.settings := settings;
      probing, consecutive, openUntil := false, 0, None;
    }

    /** _record_answer. */
    method RecordAnswer(timedOut: bool, now: real)
      requires Valid()
      modifies this
      ensures Valid() && State() == AfterAnswer(settings, old(State()), timedOut, now)
    {
      probing := false;
      if timedOut {
        consecutive := consecutive + 1;
        if consecutive >= settings.limit {
          openUntil := Some(now + settings.cooldown);
        }
      } else {
        consecutive := 0;
        openUntil := None;
      }
    }

    /** _breaker_denies. */
    method BreakerDenies(now: real) returns (denies: bool)
      requires Valid()
      modifies this
      ensures Valid() && denies == Denies(old(State()), now) && State() == AfterAsking(settings, old(State()), now)
    {
      if probing { return true; }
      if openUntil.None? { return false; }
      if now < openUntil.value { return true; }
      probing := true;
      openUntil := None;
      consecutive := settings.limit - 1;
      return false;
    }

    /** call_tool with nothing else in flight: the gate is asked unless the breaker denies; the call is
        forwarded, once, only on a literal True; a timeout counts, an answer clears, an exception
        leaves the breaker as the asking left it. `hook` is whether the adapter's reconciliation hook
        exists and returned, `forwarder` whether the caller gave something to forward with: without it an
        allowed call is reported as forwarded all the same. The outcome is missing only when the
        forwarded call itself raised. */
    method CallTool(trace: string, asked: real, answer: Answer, answered: real, hook: bool, forwarder: bool,
        forwardRaises: bool)
      returns (outcome: Option<Outcome>, gateCalls: nat, forwards: nat)
      requires Valid()
      modifies this
      ensures Valid()
      ensures gateCalls == if Denies(old(State()), asked) then 0 else 1
      ensures forwards == if gateCalls == 1 && answer.Answered? && forwarder
                             && answer.verdict.Verdict? && answer.verdict.allowed.LiteralTrue?
                          then 1 else 0
      ensures outcome.None? <==> forwards == 1 && forwardRaises
      ensures outcome.Some? ==>
                var o := outcome.value;
                && o.traceId == trace
                && (forwards == 1 ==> o.forwarded)
                && (o.reconciled ==>
                      hook && !o.forwarded && o.rule in {Some(REASON_TIMEOUT), Some(REASON_CIRCUIT_OPEN)})
                && (gateCalls == 0 ==>
                      o == Outcome(false, trace, None, Some(REASON_CIRCUIT_OPEN), REASON_CIRCUIT_OPEN, hook))
                && (gateCalls == 1 && answer.TimedOut? ==>
                      o == Outcome(false, trace, None, Some(REASON_TIMEOUT), REASON_TIMEOUT, hook))
                && (gateCalls == 1 && answer.Raised? ==>
                      o == Outcome(false, trace, None, Some(REASON_ERROR), REASON_ERROR + ": " + answer.kind, false))
                && (gateCalls == 1 && answer.Answered? ==>
                      match answer.verdict
                      case NoVerdict =>
                        o == Outcome(false, trace, None, Some(REASON_MALFORMED), REASON_MALFORMED, false)
                      case Verdict(LiteralTrue, recordHash, _, _) =>
                        o == Outcome(true, trace, recordHash, None, "", false)
                      case Verdict(LiteralFalse, recordHash, rule, reason) =>
                        o == Outcome(false, trace, recordHash, rule, if reason == "" then "denied" else reason, false)
                      case Verdict(Other(repr), _, _, _) =>
                        o == Outcome(false, trace, None, Some(REASON_MALFORMED),
                                     REASON_MALFORMED + ": allowed=" + repr, false))
      ensures State() ==
              var after := AfterAsking(settings, old(State()), asked);
              if gateCalls == 0 || answer.Raised? then after
              else AfterAnswer(settings, after, answer.TimedOut?, answered)
    {
      forwards := 0;
      var denies := BreakerDenies(asked);
      if denies {
        return Some(Outcome(false, trace, None, Some(REASON_CIRCUIT_OPEN), REASON_CIRCUIT_OPEN, hook)), 0, 0;
      }
      gateCalls := 1;
      if answer.TimedOut? {
        RecordAnswer(true, answered);
        return Some(Outcome(false, trace, None, Some(REASON_TIMEOUT), REASON_TIMEOUT, hook)), 1, 0;
      }
      if answer.Raised? {
        return Some(Outcome(false, trace, None, Some(REASON_ERROR), REASON_ERROR + ": " + answer.kind, false)), 1, 0;
      }
      RecordAnswer(false, answered);
      var refusal := Refusal(answer.verdict, trace);
      if refusal.Some? { return refusal, 1, 0; }
      if forwarder {
        forwards := 1;
        if forwardRaises { return None, 1, 1; }
      }
      return Some(Forwarded(answer.verdict, trace)), 1, forwards;
    }
  }

  // ---------------------------------------------------------------------------------------------
  // A gate that never answers
  // ---------------------------------------------------------------------------------------------

  /** One call of a sequential run: when it asks the breaker and, if admitted, when its wait runs out. */
  datatype Tick = Tick(asked: real, expired: real)

  /** `firstOpen` is when the breaker first opened. */
  datatype Stall = Stall(breaker: Breaker, gateCalls: nat, firstOpen: Option<real>, clock: real)

  predicate Ordered(ticks: seq<Tick>) {
    && (forall i | 0 <= i < |ticks| :: 0.0 <= ticks[i].asked <= ticks[i].expired)
    && (forall i | 0 < i < |ticks| :: ticks[i - 1].expired <= ticks[i].asked)
  }

  function StallStep(c: Settings, s: Stall, t: Tick): Stall {
    if Denies(s.breaker, t.asked) then s.(clock := t.expired) else
    var after := AfterAnswer(c, AfterAsking(c, s.breaker, t.asked), true, t.expired);
    Stall(after, s.gateCalls + 1,
          if s.firstOpen.None? && after.openUntil.Some? then Some(t.expired) else s.firstOpen, t.expired)
  }

  function StallRun(c: Settings, ticks: seq<Tick>): Stall {
    if ticks == [] then Stall(CLOSED, 0, None, 0.0)
    else StallStep(c, StallRun(c, ticks[..|ticks| - 1]), ticks[|ticks| - 1])
  }

  /** Before it first opens the breaker has counted every call; from then on each further gate call has
      pushed the reopening time by at least one cooldown. */
  ghost predicate StallOk(c: Settings, s: Stall) {
    && !s.breaker.probing
    && Sound(c, s.breaker)
    && (s.firstOpen.None? <==> s.breaker.openUntil.None?)
    && (s.firstOpen.None? ==> s.breaker.consecutive == s.gateCalls)
    && (s.firstOpen.Some? ==>
          && s.gateCalls >= c.limit
          && s.firstOpen.value + (s.gateCalls - c.limit + 1) as real * c.cooldown <= s.breaker.openUntil.value
          && s.breaker.openUntil.value <= s.clock + c.cooldown)
  }

  lemma StallStepOk(c: Settings, s: Stall, t: Tick)
    requires c.Valid() && StallOk(c, s) && s.clock <= t.asked <= t.expired
    ensures StallOk(c, StallStep(c, s, t))
  {
    if s.firstOpen.Some? && !Denies(s.breaker, t.asked) {
      OneMoreCooldown(s.firstOpen.value, s.gateCalls - c.limit + 1, c.cooldown);
    }
  }

  lemma OneMoreCooldown(start: real, n: int, cooldown: real)
    ensures start + (n + 1) as real * cooldown == start + n as real * cooldown + cooldown
  {
    assert (n + 1) as real == n as real + 1.0;
  }

  lemma CooldownsElapsed(start: real, n: int, cooldown: real, reopens: real, clock: real)
    requires start + (n + 1) as real * cooldown <= reopens <= clock + cooldown
    ensures n as real * cooldown <= clock - start
  {
    OneMoreCooldown(start, n, cooldown);
  }

  lemma {:induction false} StallStaysOk(c: Settings, ticks: seq<Tick>)
    requires c.Valid() && Ordered(ticks)
    ensures StallOk(c, StallRun(c, ticks))
    ensures StallRun(c, ticks).clock == if ticks == [] then 0.0 else ticks[|ticks| - 1].expired
    decreases |ticks|
  {
    if ticks != [] {
      var n := |ticks| - 1;
      var before := ticks[..n];
      assert Ordered(before) by {
        assert forall i | 0 <= i < n :: before[i] == ticks[i];
      }
      StallStaysOk(c, before);
      assert n > 0 ==> before[n - 1] == ticks[n - 1];
      StallStepOk(c, StallRun(c, before), ticks[n]);
    }
  }

  /** Against a gate that never answers, one caller reaches it at most limit + floor(elapsed / cooldown)
      times, elapsed since the breaker first opened: every call beyond the limit has cost a cooldown. */
  lemma StalledGateIsAskedRarely(c: Settings, ticks: seq<Tick>)
    requires c.Valid() && Ordered(ticks)
    ensures var s := StallRun(c, ticks);
            && (s.firstOpen.None? ==> s.gateCalls < c.limit)
            && (s.firstOpen.Some? ==> (s.gateCalls - c.limit) as real * c.cooldown <= s.clock - s.firstOpen.value)
  {
    hide StallRun, Ordered;
    StallStaysOk(c, ticks);
    var s := StallRun(c, ticks);
    if s.firstOpen.Some? {
      CooldownsElapsed(s.firstOpen.value, s.gateCalls - c.limit, c.cooldown, s.breaker.openUntil.value, s.clock);
    }
  }
}
