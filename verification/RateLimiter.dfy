/** custos/rate_limiter.py: fixed-window quotas, and the read-only answer to "how long until I may". */
module RateLimiter {
  import opened Base

  const MINUTE := 60.0
  const HOUR := 3600.0

  datatype QuotaConfig = QuotaConfig(requestsPerMinute: int, requestsPerHour: int, tokensPerMinute: int)

  datatype QuotaState = QuotaState(
    minuteCount: int, hourCount: int, tokenCount: int, minuteStart: real, hourStart: real)

  datatype Decision = Admitted | UnknownClient | MinuteExceeded | HourExceeded | TokensExceeded

  /** The state once windows that have elapsed are reset. */
  function Rolled(s: QuotaState, now: real): QuotaState {
    var m := if now - s.minuteStart >= MINUTE then s.(minuteCount := 0, tokenCount := 0, minuteStart := now) else s;
    if now - s.hourStart >= HOUR then m.(hourCount := 0, hourStart := now) else m
  }

  function Decide(c: QuotaConfig, s: QuotaState, now: real, tokens: int): Decision {
    var r := Rolled(s, now);
    if r.minuteCount >= c.requestsPerMinute then MinuteExceeded
    else if r.hourCount >= c.requestsPerHour then HourExceeded
    else if r.tokenCount + tokens > c.tokensPerMinute then TokensExceeded
    else Admitted
  }

  function After(c: QuotaConfig, s: QuotaState, now: real, tokens: int): QuotaState {
    var r := Rolled(s, now);
    if Decide(c, s, now, tokens) == Admitted
    then r.(minuteCount := r.minuteCount + 1, hourCount := r.hourCount + 1, tokenCount := r.tokenCount + tokens)
    else r
  }

  /** Windows of 60 and 3600 seconds: one that has elapsed starts anew at the request, the other stays. */
  lemma RolledReads(s: QuotaState, now: real)
    ensures var r := Rolled(s, now);
            && (now - s.minuteStart >= 60.0 ==> r.minuteCount == 0 && r.tokenCount == 0 && r.minuteStart == now)
            && (now - s.minuteStart < 60.0 ==>
                  r.minuteCount == s.minuteCount && r.tokenCount == s.tokenCount && r.minuteStart == s.minuteStart)
            && (now - s.hourStart >= 3600.0 ==> r.hourCount == 0 && r.hourStart == now)
            && (now - s.hourStart < 3600.0 ==> r.hourCount == s.hourCount && r.hourStart == s.hourStart)
  {
  }

  /** Which refusal means which counter, the first exhausted in the order minute, hour, tokens; and what is consumed. */
  lemma DecisionReads(c: QuotaConfig, s: QuotaState, now: real, tokens: int)
    ensures var minute := if now - s.minuteStart >= 60.0 then 0 else s.minuteCount;
            var hour := if now - s.hourStart >= 3600.0 then 0 else s.hourCount;
            var spent := if now - s.minuteStart >= 60.0 then 0 else s.tokenCount;
            var d, a := Decide(c, s, now, tokens), After(c, s, now, tokens);
            && (d == MinuteExceeded <==> minute >= c.requestsPerMinute)
            && (d == HourExceeded <==> minute < c.requestsPerMinute && hour >= c.requestsPerHour)
            && (d == TokensExceeded <==>
                  minute < c.requestsPerMinute && hour < c.requestsPerHour && spent + tokens > c.tokensPerMinute)
            && (d == Admitted <==>
                  minute < c.requestsPerMinute && hour < c.requestsPerHour && spent + tokens <= c.tokensPerMinute)
            && (d == Admitted ==>
                  a.minuteCount == minute + 1 && a.hourCount == hour + 1 && a.tokenCount == spent + tokens)
            && (d != Admitted ==> a.minuteCount == minute && a.hourCount == hour && a.tokenCount == spent)
  {
  }

  function Ceil(x: real): int {
    -((-x).Floor)
  }

  function AtLeastOne(n: int): int {
    if n < 1 then 1 else n
  }

  /** The seconds a caller is told to wait, or None. */
  function Wait(c: QuotaConfig, s: QuotaState, now: real, tokens: int): Option<int> {
    var minuteLeft := MINUTE - (now - s.minuteStart);
    var hourLeft := HOUR - (now - s.hourStart);
    var minuteCount := if minuteLeft <= 0.0 then 0 else s.minuteCount;
    var tokenCount := if minuteLeft <= 0.0 then 0 else s.tokenCount;
    var hourCount := if hourLeft <= 0.0 then 0 else s.hourCount;
    if minuteCount >= c.requestsPerMinute then Some(AtLeastOne(Ceil(minuteLeft)))
    else if hourCount >= c.requestsPerHour then Some(AtLeastOne(Ceil(hourLeft)))
    else if tokenCount + tokens > c.tokensPerMinute then Some(AtLeastOne(Ceil(minuteLeft)))
    else None
  }

  class Limiter {
    var quotas: map<string, QuotaConfig>
    var state: map<string, QuotaState>

    predicate Valid()
      reads this
    {
      quotas.Keys == state.Keys
    }

    constructor ()
      ensures Valid() && quotas == map[] && state == map[]
    {
      quotas, state := map[], map[];
    }

    /** register. The two window starts are two readings of the clock. */
    method Register(client: string, config: QuotaConfig, minuteStart: real, hourStart: real)
      requires Valid()
      modifies this
      ensures Valid() && quotas == old(quotas)[client := config]
      ensures state == old(state)[client := QuotaState(0, 0, 0, minuteStart, hourStart)]
    {
      quotas := quotas[client := config];
      state := state[client := QuotaState(0, 0, 0, minuteStart, hourStart)];
    }

    /** unregister. */
    method Unregister(client: string) returns (removed: bool)
      requires Valid()
      modifies this
      ensures Valid() && removed == (client in old(quotas))
      ensures quotas == old(quotas) - {client} && state == old(state) - {client}
    {
      if client in quotas {
        quotas, state := quotas - {client}, state - {client};
        return true;
      }
      assert state - {client} == state && quotas - {client} == quotas;
      return false;
    }

    /** check_and_consume. */
    method CheckAndConsume(client: string, tokens: int, now: real) returns (decision: Decision)
      requires Valid()
      modifies this`state
      ensures Valid()
      ensures client !in quotas ==> decision == UnknownClient && state == old(state)
      ensures client in quotas ==>
                && decision == Decide(quotas[client], old(state)[client], now, tokens)
                && state == old(state)[client := After(quotas[client], old(state)[client], now, tokens)]
    {
      if client !in quotas { return UnknownClient; }
      var config, s := quotas[client], state[client];
      if now - s.minuteStart >= MINUTE {
        s := s.(minuteCount := 0, tokenCount := 0, minuteStart := now);
      }
      if now - s.hourStart >= HOUR {
        s := s.(hourCount := 0, hourStart := now);
      }
      state := state[client := s];
      if s.minuteCount >= config.requestsPerMinute { return MinuteExceeded; }
      if s.hourCount >= config.requestsPerHour { return HourExceeded; }
      if s.tokenCount + tokens > config.tokensPerMinute { return TokensExceeded; }
      s := s.(minuteCount := s.minuteCount + 1, hourCount := s.hourCount + 1, tokenCount := s.tokenCount + tokens);
      state := state[client := s];
      return Admitted;
    }

    /** retry_after_seconds: consumes nothing, and is None for a registered client exactly when a check
        at the same instant would admit. */
    method RetryAfterSeconds(client: string, tokens: int, now: real) returns (wait: Option<int>)
      requires Valid()
      ensures client !in quotas ==> wait.None?
      ensures client in quotas ==> wait == Wait(quotas[client], state[client], now, tokens)
      ensures client in quotas ==> (wait.None? <==> Decide(quotas[client], state[client], now, tokens) == Admitted)
    {
      if client !in quotas { return None; }
      return Wait(quotas[client], state[client], now, tokens);
    }
  }

  // ---------------------------------------------------------------------------------------------
  // How long a caller waits
  // ---------------------------------------------------------------------------------------------

  /** Quotas under which some request can be admitted at all. */
  predicate Satisfiable(c: QuotaConfig, tokens: int) {
    c.requestsPerMinute > 0 && c.requestsPerHour > 0 && tokens <= c.tokensPerMinute
  }

  lemma CeilBounds(x: real)
    ensures x <= Ceil(x) as real < x + 1.0
  {
  }

  /** The instant a caller who waits as told comes back. */
  function Later(now: real, wait: int): real {
    now + wait as real
  }

  /** The wait is in 1..60 or 1..3600 according to the window reported, waiting it clears that window, and no whole
      number of seconds below it, but for the least, does. */
  lemma WaitIsBoundedAndSufficient(c: QuotaConfig, s: QuotaState, now: real, tokens: int)
    requires Satisfiable(c, tokens) && s.minuteStart <= now && s.hourStart <= now
    requires Wait(c, s, now, tokens).Some?
    ensures var d, w := Decide(c, s, now, tokens), Wait(c, s, now, tokens).value;
            var then_ := Later(now, w);
            && (d == HourExceeded ==> 1 <= w <= 3600 && then_ - s.hourStart >= HOUR)
            && (d == MinuteExceeded || d == TokensExceeded ==> 1 <= w <= 60 && then_ - s.minuteStart >= MINUTE)
            && d in {HourExceeded, MinuteExceeded, TokensExceeded}
            && Decide(c, s, then_, tokens) != d
            && (w > 1 ==> if d == HourExceeded then Later(now, w - 1) - s.hourStart < HOUR
                          else Later(now, w - 1) - s.minuteStart < MINUTE)
  {
    CeilBounds(MINUTE - (now - s.minuteStart));
    CeilBounds(HOUR - (now - s.hourStart));
  }

  /** A caller who is refused, waits as told, is refused again and waits again is then admitted, if nobody
      else spends the quota meanwhile. Each refused check leaves its windows rolled. */
  lemma TwoWaitsSuffice(c: QuotaConfig, s: QuotaState, now: real, tokens: int)
    requires Satisfiable(c, tokens) && s.minuteStart <= now && s.hourStart <= now
    requires Decide(c, s, now, tokens) != Admitted
    ensures var s1 := After(c, s, now, tokens);
            && Wait(c, s1, now, tokens).Some?
            && var second := Later(now, Wait(c, s1, now, tokens).value);
               || Decide(c, s1, second, tokens) == Admitted
               || var s2 := After(c, s1, second, tokens);
                  && Wait(c, s2, second, tokens).Some?
                  && Decide(c, s2, Later(second, Wait(c, s2, second, tokens).value), tokens) == Admitted
  {
    var s1 := After(c, s, now, tokens);
    RefusalRepeats(c, s, now, tokens);
    WaitIsBoundedAndSufficient(c, s1, now, tokens);
    var second := Later(now, Wait(c, s1, now, tokens).value);
    if Decide(c, s1, second, tokens) != Admitted {
      RefusalRepeats(c, s1, second, tokens);
      WaitIsBoundedAndSufficient(c, After(c, s1, second, tokens), second, tokens);
    }
  }

  /** Asking again at once after a refusal changes nothing. */
  lemma RefusalRepeats(c: QuotaConfig, s: QuotaState, now: real, tokens: int)
    requires s.minuteStart <= now && s.hourStart <= now && Decide(c, s, now, tokens) != Admitted
    ensures var r := After(c, s, now, tokens);
            && Decide(c, r, now, tokens) == Decide(c, s, now, tokens) && After(c, r, now, tokens) == r
            && r.minuteStart <= now && r.hourStart <= now && Wait(c, r, now, tokens).Some?
  {
  }

  /** A request that asks for more tokens than the quota, or meets a non-positive quota, is refused at
      every instant, and is nevertheless told to wait. */
  lemma UnsatisfiableNeverAdmitted(c: QuotaConfig, s: QuotaState, now: real, tokens: int)
    requires !Satisfiable(c, tokens)
    requires s.minuteCount >= 0 && s.hourCount >= 0 && s.tokenCount >= 0
    ensures Decide(c, s, now, tokens) != Admitted && Wait(c, s, now, tokens).Some?
    ensures Wait(c, s, now, tokens).value >= 1
  {
  }

  // ---------------------------------------------------------------------------------------------
  // What fixed windows admit
  // ---------------------------------------------------------------------------------------------

  /** One fixed window and what has been spent in it. */
  datatype Window = Window(start: real, used: int)

  /** Something spent `amount` at an instant (nothing, if it was refused). */
  datatype Spend = Spend(at: real, amount: int)

  function Spent(w: Window, width: real, e: Spend): Window {
    var rolled := if e.at - w.start >= width then Window(e.at, 0) else w;
    rolled.(used := rolled.used + e.amount)
  }

  function WindowAfter(w: Window, width: real, es: seq<Spend>): Window {
    if es == [] then w else Spent(WindowAfter(w, width, es[..|es| - 1]), width, es[|es| - 1])
  }

  function LastInstant(w: Window, es: seq<Spend>): real {
    if es == [] then w.start else es[|es| - 1].at
  }

  /** Instants never go back, nothing negative is spent, and nothing is spent past the quota. */
  predicate WithinQuota(w: Window, width: real, quota: int, es: seq<Spend>) {
    forall i | 0 <= i < |es| :: SpendOk(w, width, quota, es, i)
  }

  predicate SpendOk(w: Window, width: real, quota: int, es: seq<Spend>, i: nat)
    requires i < |es|
  {
    && es[i].at >= LastInstant(w, es[..i])
    && es[i].amount >= 0
    && (es[i].amount > 0 ==> WindowAfter(w, width, es[..i + 1]).used <= quota)
  }

  function Positive(n: int): nat {
    if n < 0 then 0 else n
  }

  /** Everything spent in [from, to). */
  function SpentWithin(es: seq<Spend>, from: real, to: real): int {
    if es == [] then 0 else
    var e := es[|es| - 1];
    SpentWithin(es[..|es| - 1], from, to) + if from <= e.at < to then e.amount else 0
  }

  lemma WithinQuotaStep(w: Window, width: real, quota: int, es: seq<Spend>)
    requires es != []
    ensures var n := |es| - 1;
            WithinQuota(w, width, quota, es) <==>
            && WithinQuota(w, width, quota, es[..n])
            && es[n].at >= LastInstant(w, es[..n]) && es[n].amount >= 0
            && (es[n].amount > 0 ==> WindowAfter(w, width, es).used <= quota)
  {
    var n := |es| - 1;
    assert es[..n + 1] == es;
    forall i | 0 <= i < n ensures SpendOk(w, width, quota, es[..n], i) <==> SpendOk(w, width, quota, es, i) {
      assert es[..n][..i] == es[..i] && es[..n][..i + 1] == es[..i + 1];
    }
    if WithinQuota(w, width, quota, es) {
      assert SpendOk(w, width, quota, es, n);
    }
  }

  lemma {:induction false} WindowStaysSane(w: Window, width: real, quota: int, es: seq<Spend>)
    requires width > 0.0 && WithinQuota(w, width, quota, es) && 0 <= w.used <= Positive(quota)
    ensures var a := WindowAfter(w, width, es);
            && 0 <= a.used <= Positive(quota)
            && a.start >= w.start
            && a.start <= LastInstant(w, es) < a.start + width
  {
    if es != [] {
      WithinQuotaStep(w, width, quota, es);
      WindowStaysSane(w, width, quota, es[..|es| - 1]);
    }
  }

  /** In any half-open interval one window wide, at most twice the quota is spent. */
  lemma {:induction false} TwiceTheQuota(w: Window, width: real, quota: int, es: seq<Spend>, from: real)
    requires width > 0.0 && WithinQuota(w, width, quota, es) && 0 <= w.used <= Positive(quota)
    ensures var a, n := WindowAfter(w, width, es), SpentWithin(es, from, from + width);
            && n <= 2 * Positive(quota)
            && (LastInstant(w, es) < from ==> n == 0)
            && (a.start < from ==> n <= a.used)
            && (from <= a.start < from + width ==> n <= Positive(quota) + a.used)
  {
    WindowStaysSane(w, width, quota, es);
    if es != [] {
      WithinQuotaStep(w, width, quota, es);
      WindowStaysSane(w, width, quota, es[..|es| - 1]);
      TwiceTheQuota(w, width, quota, es[..|es| - 1], from);
    }
  }

  /** After `begun` further windows, the current one starts late enough and everything spent fits. */
  predicate Accounted(w: Window, width: real, quota: int, a: Window, total: int, begun: nat) {
    a.start >= w.start + begun as real * width && total <= Positive(quota) * begun + a.used
  }

  lemma NextWindow(w: Window, width: real, quota: int, a: Window, total: int, begun: nat, e: Spend)
    requires width > 0.0 && Accounted(w, width, quota, a, total, begun) && a.used <= Positive(quota)
    ensures Accounted(w, width, quota, Spent(a, width, e), total + e.amount,
                      if e.at - a.start >= width then begun + 1 else begun)
  {
    assert (begun + 1) as real * width == begun as real * width + width;
    assert Positive(quota) * (begun + 1) == Positive(quota) * begun + Positive(quota);
  }

  /** Over any horizon, at most the quota per window that can have begun. */
  lemma {:induction false} QuotaPerWindow(w: Window, width: real, quota: int, es: seq<Spend>) returns (begun: nat)
    requires width > 0.0 && WithinQuota(w, width, quota, es) && w.used == 0
    ensures Accounted(w, width, quota, WindowAfter(w, width, es), Total(es), begun)
  {
    begun := 0;
    if es != [] {
      var before, e := es[..|es| - 1], es[|es| - 1];
      WithinQuotaStep(w, width, quota, es);
      begun := QuotaPerWindow(w, width, quota, before);
      WindowStaysSane(w, width, quota, before);
      var a := WindowAfter(w, width, before);
      NextWindow(w, width, quota, a, Total(before), begun, e);
      begun := if e.at - a.start >= width then begun + 1 else begun;
    } else {
      assert 0 as real * width == 0.0;
    }
  }

  function Total(es: seq<Spend>): int {
    if es == [] then 0 else Total(es[..|es| - 1]) + es[|es| - 1].amount
  }

  /** n whole windows, and no more, fit into the time elapsed: n is floor(elapsed / width). */
  predicate WholeWindows(elapsed: real, width: real, n: nat) {
    n as real * width <= elapsed < n as real * width + width
  }

  lemma FitsAtMost(elapsed: real, width: real, n: nat, begun: nat)
    requires width > 0.0 && WholeWindows(elapsed, width, n) && begun as real * width <= elapsed
    ensures begun <= n
  {
    assert (n + 1) as real * width == n as real * width + width;
    if begun > n {
      MonotoneReal((n + 1) as real, begun as real, width);
    }
  }

  lemma MonotoneReal(a: real, b: real, width: real)
    requires a <= b && width > 0.0
    ensures a * width <= b * width
  {
  }

  /** Over a horizon that ends at the last spend, at most quota * (floor(elapsed / width) + 1) is spent. */
  lemma HorizonBound(w: Window, width: real, quota: int, es: seq<Spend>, n: nat)
    requires width > 0.0 && WithinQuota(w, width, quota, es) && w.used == 0
    requires WholeWindows(LastInstant(w, es) - w.start, width, n)
    ensures Total(es) <= Positive(quota) * (n + 1)
  {
    var begun := QuotaPerWindow(w, width, quota, es);
    WindowStaysSane(w, width, quota, es);
    FitsAtMost(LastInstant(w, es) - w.start, width, n, begun);
    var q := Positive(quota);
    assert q * (begun + 1) == q * begun + q;
    Monotone(q, begun + 1, n + 1);
  }

  lemma Monotone(q: nat, a: int, b: int)
    requires a <= b
    ensures q * a <= q * b
  {
  }

  // ---------------------------------------------------------------------------------------------
  // Runs of one client
  // ---------------------------------------------------------------------------------------------

  datatype Request = Request(at: real, tokens: int)

  function StateAfter(c: QuotaConfig, s: QuotaState, rs: seq<Request>): QuotaState {
    if rs == [] then s else
    var n := |rs| - 1;
    After(c, StateAfter(c, s, rs[..n]), rs[n].at, rs[n].tokens)
  }

  predicate AdmittedAt(c: QuotaConfig, s: QuotaState, rs: seq<Request>, i: nat)
    requires i < |rs|
  {
    Decide(c, StateAfter(c, s, rs[..i]), rs[i].at, rs[i].tokens) == Admitted
  }

  datatype Meter = MinuteRequests | HourRequests | MinuteTokens {
    function Width(): real { if HourRequests? then HOUR else MINUTE }

    function Quota(c: QuotaConfig): int {
      match this
      case MinuteRequests => c.requestsPerMinute
      case HourRequests => c.requestsPerHour
      case MinuteTokens => c.tokensPerMinute
    }

    function Of(s: QuotaState): Window {
      match this
      case MinuteRequests => Window(s.minuteStart, s.minuteCount)
      case HourRequests => Window(s.hourStart, s.hourCount)
      case MinuteTokens => Window(s.minuteStart, s.tokenCount)
    }

    function Amount(r: Request): int { if MinuteTokens? then r.tokens else 1 }
  }

  /** What a run spends on one meter: nothing for a refused request. */
  function Spends(m: Meter, c: QuotaConfig, s: QuotaState, rs: seq<Request>): (es: seq<Spend>)
    ensures |es| == |rs|
  {
    if rs == [] then [] else
    var n := |rs| - 1;
    Spends(m, c, s, rs[..n]) + [Spend(rs[n].at, if AdmittedAt(c, s, rs, n) then m.Amount(rs[n]) else 0)]
  }

  function LastRequest(s: QuotaState, rs: seq<Request>): real {
    if rs != [] then rs[|rs| - 1].at else if s.minuteStart > s.hourStart then s.minuteStart else s.hourStart
  }

  /** The clock never goes back and no request asks for negative tokens. */
  predicate ClockForward(s: QuotaState, rs: seq<Request>) {
    forall i | 0 <= i < |rs| :: rs[i].tokens >= 0 && rs[i].at >= LastRequest(s, rs[..i])
  }

  lemma ClockPrefix(s: QuotaState, rs: seq<Request>)
    requires rs != [] && ClockForward(s, rs)
    ensures ClockForward(s, rs[..|rs| - 1])
  {
    var n := |rs| - 1;
    forall i | 0 <= i < n ensures rs[..n][i].tokens >= 0 && rs[..n][i].at >= LastRequest(s, rs[..n][..i]) {
      assert rs[..n][..i] == rs[..i] && rs[..n][i] == rs[i];
    }
  }

  /** One request moves each meter's window as one spend does, and never past its quota. */
  lemma OneRequest(m: Meter, c: QuotaConfig, s: QuotaState, r: Request)
    requires r.tokens >= 0
    ensures var e := Spend(r.at, if Decide(c, s, r.at, r.tokens) == Admitted then m.Amount(r) else 0);
            && m.Of(After(c, s, r.at, r.tokens)) == Spent(m.Of(s), m.Width(), e)
            && e.amount >= 0
            && (e.amount > 0 ==> m.Of(After(c, s, r.at, r.tokens)).used <= m.Quota(c))
  {
  }

  lemma {:induction false} MeterIsAWindow(m: Meter, c: QuotaConfig, s: QuotaState, rs: seq<Request>)
    requires ClockForward(s, rs)
    ensures var es := Spends(m, c, s, rs);
            && WindowAfter(m.Of(s), m.Width(), es) == m.Of(StateAfter(c, s, rs))
            && WithinQuota(m.Of(s), m.Width(), m.Quota(c), es)
            && LastInstant(m.Of(s), es) <= LastRequest(s, rs)
            && (rs != [] ==> LastInstant(m.Of(s), es) == LastRequest(s, rs))
  {
    if rs != [] {
      var n := |rs| - 1;
      ClockPrefix(s, rs);
      MeterIsAWindow(m, c, s, rs[..n]);
      OneRequest(m, c, StateAfter(c, s, rs[..n]), rs[n]);
      var es := Spends(m, c, s, rs);
      assert es[..n] == Spends(m, c, s, rs[..n]);
      WithinQuotaStep(m.Of(s), m.Width(), m.Quota(c), es);
    }
  }

  /** Over any run of a registered client, in any half-open interval one window wide, at most twice the
      quota is admitted: requests per 60 s, tokens per 60 s, and requests per 3600 s. */
  lemma AtMostTwiceTheQuota(m: Meter, c: QuotaConfig, s: QuotaState, rs: seq<Request>, from: real)
    requires s.minuteCount == s.hourCount == s.tokenCount == 0
    requires ClockForward(s, rs)
    ensures SpentWithin(Spends(m, c, s, rs), from, from + m.Width()) <= 2 * Positive(m.Quota(c))
    ensures m == MinuteRequests ==>
              SpentWithin(Spends(m, c, s, rs), from, from + 60.0) <= 2 * Positive(c.requestsPerMinute)
    ensures m == MinuteTokens ==>
              SpentWithin(Spends(m, c, s, rs), from, from + 60.0) <= 2 * Positive(c.tokensPerMinute)
    ensures m == HourRequests ==>
              SpentWithin(Spends(m, c, s, rs), from, from + 3600.0) <= 2 * Positive(c.requestsPerHour)
  {
    MeterIsAWindow(m, c, s, rs);
    TwiceTheQuota(m.Of(s), m.Width(), m.Quota(c), Spends(m, c, s, rs), from);
  }

  /** From registration to the last request, at most quota * (floor(elapsed / width) + 1) is admitted. */
  lemma {:induction false} AdmittedOverHorizon(m: Meter, c: QuotaConfig, s: QuotaState, rs: seq<Request>, n: nat)
    requires s.minuteCount == s.hourCount == s.tokenCount == 0
    requires rs != [] && ClockForward(s, rs)
    requires WholeWindows(rs[|rs| - 1].at - m.Of(s).start, m.Width(), n)
    ensures Total(Spends(m, c, s, rs)) <= Positive(m.Quota(c)) * (n + 1)
  {
    MeterIsAWindow(m, c, s, rs);
    HorizonBound(m.Of(s), m.Width(), m.Quota(c), Spends(m, c, s, rs), n);
  }
}
