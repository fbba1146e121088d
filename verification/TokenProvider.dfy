/** The OAuth token cache: its clock, its throttle and its single flight, over every run. Times are milliseconds. */
module TokenProvider {
  import opened Wrappers

  const REFRESH_MARGIN := 60_000.0
  const DEFAULT_EXPIRY_SECONDS := 3600.0
  const RETRY_DELAY := 5_000.0

  const REJECTED_STATUSES: set<int> := {400, 401}
  const REJECTED_CODES: set<string> := {"invalid_client", "unauthorized_client", "invalid_grant"}

  /** Why a fetch failed: an HTTP answer of the token endpoint, or anything else. */
  datatype Failure = Http(status: int, code: Option<string>) | Other

  /** A token response. The lifetime is what `Number(expires_in)` gives when that is finite. */
  datatype Response = Response(accessToken: string, expiresIn: Option<real>)

  /** The provider's fields. A refresh promise is named by the fetch it stands for. */
  datatype Cache = Cache(
    accessToken: Option<string>, expiresAt: real, lastFailedFetch: Option<real>, lastFetchError: Option<Failure>,
    refreshPromise: Option<nat>)

  datatype Answer = Token(token: Option<string>) | Await(fetch: nat) | Start

  datatype Outcome = Fetched(token: string) | Rejected

  function HeldToken(c: Cache): Option<string> {
    if c.accessToken == Some("") then None else c.accessToken
  }

  predicate HasFreshToken(c: Cache, now: real) {
    HeldToken(c).Some? && c.expiresAt - now > REFRESH_MARGIN
  }

  predicate IsAuthenticationRejection(failure: Failure) {
    failure.Http? && failure.status in REJECTED_STATUSES && failure.code.GetOr("") in REJECTED_CODES
  }

  predicate IsThrottled(c: Cache, now: real) {
    && !(c.lastFetchError.Some? && IsAuthenticationRejection(c.lastFetchError.value))
    && c.lastFailedFetch.Some? && now - c.lastFailedFetch.value < RETRY_DELAY
  }

  function CachedTokenWhileValid(c: Cache, now: real): Option<string> {
    if HeldToken(c).Some? && now < c.expiresAt then c.accessToken else None
  }

  function LifetimeSeconds(response: Response): (seconds: real)
    ensures seconds > 0.0
  {
    if response.expiresIn.Some? && response.expiresIn.value > 0.0 then response.expiresIn.value
      else DEFAULT_EXPIRY_SECONDS
  }

  /** The clock readings of one call, each made where the code makes it. */
  datatype Readings = Readings(freshness: real, throttle: real, cached: real)

  function AnswerOf(c: Cache, at: Readings): Answer {
    if HasFreshToken(c, at.freshness) then Token(c.accessToken)
    else if c.refreshPromise.Some? then Await(c.refreshPromise.value)
    else if IsThrottled(c, at.throttle) then Token(CachedTokenWhileValid(c, at.cached))
    else Start
  }

  function Refreshed(c: Cache): Cache {
    Cache(None, 0.0, None, None, c.refreshPromise)
  }

  function AfterSuccess(c: Cache, response: Response, now: real): Cache {
    Cache(Some(response.accessToken), now + LifetimeSeconds(response) * 1000.0, None, None, c.refreshPromise)
  }

  function AfterFailure(c: Cache, failure: Failure, now: real): Cache {
    c.(lastFailedFetch := Some(now), lastFetchError := Some(failure))
  }

  function OutcomeOfFailure(c: Cache, now: real): Outcome {
    match CachedTokenWhileValid(c, now)
    case Some(token) => Fetched(token)
    case None => Rejected
  }

  /** A failure that tells of rejected credentials: a bad request or an unauthorized answer with one of three codes. */
  ghost predicate TellsOfRejection(failure: Failure) {
    && failure.Http? && (failure.status == 400 || failure.status == 401)
    && failure.code in {Some("invalid_client"), Some("unauthorized_client"), Some("invalid_grant")}
  }

  lemma {:induction false} RejectionsByStatusAndCode(failure: Failure)
    ensures IsAuthenticationRejection(failure) <==> TellsOfRejection(failure)
  {
  }

  /** A held token with more than a minute left. */
  ghost predicate MinuteLeft(c: Cache, now: real) {
    && c.accessToken.Some? && |c.accessToken.value| > 0
    && now + 60000.0 < c.expiresAt
  }

  /** The token to fall back to: the held one while it has not expired. */
  ghost function Fallback(c: Cache, now: real): Option<string> {
    if c.accessToken.Some? && |c.accessToken.value| > 0 && now < c.expiresAt then c.accessToken else None
  }

  /**
   * Which of its four answers a call gives. A token with more than a minute left is answered; else a fetch under way is
   * joined; else, within five seconds of a failure that does not tell of rejected credentials, the token is answered
   * while it has not expired, and nothing after that; else a fetch starts.
   */
  lemma {:induction false} AnswersByTime(c: Cache, at: Readings)
    ensures var recent := && c.lastFailedFetch.Some? && at.throttle < c.lastFailedFetch.value + 5000.0
                          && (c.lastFetchError.Some? ==> !TellsOfRejection(c.lastFetchError.value));
            AnswerOf(c, at) ==
              if MinuteLeft(c, at.freshness) then Token(c.accessToken)
              else if c.refreshPromise.Some? then Await(c.refreshPromise.value)
              else if recent then Token(Fallback(c, at.cached))
              else Start
  {
    hide IsAuthenticationRejection, TellsOfRejection;
    if c.lastFetchError.Some? {
      RejectionsByStatusAndCode(c.lastFetchError.value);
    }
  }

  /** A fetch that fails gives its callers the held token while it has not expired, and rejects them otherwise. */
  lemma {:induction false} FailedFetchFallsBack(c: Cache, now: real)
    ensures OutcomeOfFailure(c, now)
         == if Fallback(c, now).Some? then Fetched(Fallback(c, now).value) else Rejected
  {
  }

  /** A granted token is held for its lifetime from then on, or for an hour when the response gives no positive one. */
  lemma {:induction false} GrantsForItsLifetime(c: Cache, response: Response, now: real)
    ensures var after := AfterSuccess(c, response, now);
            && after.accessToken == Some(response.accessToken)
            && (forall s :: response.expiresIn == Some(s) && s > 0.0 ==> after.expiresAt == now + s * 1000.0)
            && ((response.expiresIn.Some? ==> response.expiresIn.value <= 0.0) ==>
                  after.expiresAt == now + 3600000.0)
            && after.lastFailedFetch == None && after.lastFetchError == None
            && after.refreshPromise == c.refreshPromise
  {
  }

  /** The provider's methods, each cut at its awaits. */
  class OAuthTokenProvider {
    var accessToken: Option<string>
    var expiresAt: real
    var lastFailedFetch: Option<real>
    var lastFetchError: Option<Failure>
    var refreshPromise: Option<nat>

    constructor ()
      ensures State() == Cache(None, 0.0, None, None, None)
    {
      accessToken, expiresAt, lastFailedFetch, lastFetchError, refreshPromise := None, 0.0, None, None, None;
    }

    function State(): Cache
      reads this
    {
      Cache(accessToken, expiresAt, lastFailedFetch, lastFetchError, refreshPromise)
    }

    /** A call up to its first await: answers, joins the fetch under way, or starts the one named `fetch`. */
    method GetAccessToken(at: Readings, fetch: nat) returns (answer: Answer)
      modifies this`refreshPromise
      ensures answer == AnswerOf(old(State()), at)
      ensures State() == if answer.Start? then old(State()).(refreshPromise := Some(fetch)) else old(State())
    {
      if HasFreshToken(State(), at.freshness) {
        return Token(accessToken);
      }
      if refreshPromise.Some? {
        return Await(refreshPromise.value);
      }
      if IsThrottled(State(), at.throttle) {
        return Token(CachedTokenWhileValid(State(), at.cached));
      }
      refreshPromise := Some(fetch);
      answer := Start;
    }

    method Refresh(at: Readings, fetch: nat) returns (answer: Answer)
      modifies this
      ensures answer == AnswerOf(Refreshed(old(State())), at)
      ensures State() == if answer.Start? then Refreshed(old(State())).(refreshPromise := Some(fetch))
              else Refreshed(old(State()))
    {
      accessToken := None;
      expiresAt := 0.0;
      lastFailedFetch := None;
      lastFetchError := None;
      answer := GetAccessToken(at, fetch);
    }

    /** The rest of a fetch whose request was answered. */
    method FetchSucceeded(response: Response, now: real) returns (outcome: Outcome)
      modifies this
      ensures State() == AfterSuccess(old(State()), response, now) && outcome == Fetched(response.accessToken)
    {
      accessToken := Some(response.accessToken);
      expiresAt := now + LifetimeSeconds(response) * 1000.0;
      lastFailedFetch := None;
      lastFetchError := None;
      outcome := Fetched(response.accessToken);
    }

    /** The rest of a fetch whose request failed. */
    method FetchFailed(failure: Failure, now: real, cachedAt: real) returns (outcome: Outcome)
      modifies this`lastFailedFetch, this`lastFetchError
      ensures State() == AfterFailure(old(State()), failure, now) && outcome == OutcomeOfFailure(old(State()), cachedAt)
    {
      lastFailedFetch := Some(now);
      lastFetchError := Some(failure);
      var cached := CachedTokenWhileValid(State(), cachedAt);
      if cached.Some? {
        return Fetched(cached.value);
      }
      outcome := Rejected;
    }

    /** The `finally` of the call that started the fetch. */
    method ReleaseFetch()
      modifies this`refreshPromise
      ensures State() == old(State()).(refreshPromise := None)
    {
      refreshPromise := None;
    }
  }

  // ----- runs -----

  /** What can happen next. A fetch is released by the call that started it, after it settled. */
  datatype Step =
    | Ask(at: Readings)
    | Refresh(at: Readings)
    | Succeed(fetch: nat, response: Response, now: real)
    | Fail(fetch: nat, failure: Failure, now: real, cachedAt: real)
    | Release(fetch: nat)

  /** A token the server granted and the time it grants it until. */
  datatype Grant = Grant(token: string, until: real)

  /**
   * The cache and its surroundings: which started fetches are still running and which are yet to be released, the
   * clock, and the grants and fetch starts so far.
   */
  datatype Machine = Machine(
    cache: Cache, running: set<nat>, unreleased: set<nat>, clock: real, grants: set<Grant>, starts: seq<real>)

  function Initial(clock: real): Machine {
    Machine(Cache(None, 0.0, None, None, None), {}, {}, clock, {}, [])
  }

  predicate Follows(clock: real, at: Readings) {
    clock <= at.freshness <= at.throttle <= at.cached
  }

  /** The clock never goes back, and only a running fetch settles. */
  predicate Enabled(m: Machine, step: Step) {
    match step
    case Ask(at) => Follows(m.clock, at)
    case Refresh(at) => Follows(m.clock, at)
    case Succeed(fetch, _, now) => fetch in m.running && m.clock <= now
    case Fail(fetch, _, now, cachedAt) => fetch in m.running && m.clock <= now <= cachedAt
    case Release(fetch) => fetch in m.unreleased && fetch !in m.running
  }

  /** Time goes on and only a running fetch settles; nothing else keeps a step from happening. */
  lemma {:induction false} StepsInTime(m: Machine, step: Step)
    ensures Enabled(m, step) <==>
            match step
            case Ask(at) => m.clock <= at.freshness && at.freshness <= at.throttle && at.throttle <= at.cached
            case Refresh(at) => m.clock <= at.freshness && at.freshness <= at.throttle && at.throttle <= at.cached
            case Succeed(fetch, _, now) => fetch in m.running && m.clock <= now
            case Fail(fetch, _, now, cachedAt) => fetch in m.running && m.clock <= now && now <= cachedAt
            case Release(fetch) => fetch in m.unreleased && fetch !in m.running
  {
  }

  /** The beginning: no token, no fetch, no failure. */
  lemma {:induction false} StartsEmpty(clock: real)
    ensures var m := Initial(clock);
            && m.cache.accessToken == None && m.cache.expiresAt == 0.0 && m.cache.lastFailedFetch == None
            && m.cache.lastFetchError == None && m.cache.refreshPromise == None
            && m.running == {} && m.unreleased == {} && m.clock == clock && m.grants == {} && m.starts == []
  {
  }

  function Asked(m: Machine, cache: Cache, at: Readings): Machine {
    if AnswerOf(cache, at).Start? then
      var fetch := |m.starts|;
      m.(cache := cache.(refreshPromise := Some(fetch)), running := m.running + {fetch},
        unreleased := m.unreleased + {fetch},
         clock := at.cached, starts := m.starts + [at.throttle])
    else m.(cache := cache, clock := at.cached)
  }

  function Next(m: Machine, step: Step): Machine {
    match step
    case Ask(at) => Asked(m, m.cache, at)
    case Refresh(at) => Asked(m, Refreshed(m.cache), at)
    case Succeed(fetch, response, now) =>
      var after := AfterSuccess(m.cache, response, now);
      m.(cache := after, running := m.running - {fetch}, clock := now,
         grants := m.grants + {Grant(response.accessToken, now + LifetimeSeconds(response) * 1000.0)})
    case Fail(fetch, failure, now, cachedAt) =>
      m.(cache := AfterFailure(m.cache, failure, now), running := m.running - {fetch}, clock := cachedAt)
    case Release(fetch) =>
      m.(cache := m.cache.(refreshPromise := None), unreleased := m.unreleased - {fetch})
  }

  /** A run: each step enabled where it happens. */
  predicate IsRun(m: Machine, steps: seq<Step>)
    decreases |steps|
  {
    steps == [] || (IsRun(m, steps[..|steps| - 1]) && Enabled(After(m, steps[..|steps| - 1]), steps[|steps| - 1]))
  }

  function After(m: Machine, steps: seq<Step>): Machine
    decreases |steps|
  {
    if steps == [] then m else Next(After(m, steps[..|steps| - 1]), steps[|steps| - 1])
  }

  /** A run goes on with any step that can happen where it has come to. */
  lemma {:induction false} RunsGoOn(m: Machine, steps: seq<Step>, step: Step)
    ensures IsRun(m, []) && After(m, []) == m
    ensures IsRun(m, steps + [step]) <==> IsRun(m, steps) && Enabled(After(m, steps), step)
    ensures After(m, steps + [step]) == Next(After(m, steps), step)
  {
    hide Next, Enabled;
    assert (steps + [step])[..|steps|] == steps;
  }

  /**
   * What a step leaves: a call that starts a fetch names it after those before it; a fetch that settles is over, with
   * its token granted or its failure remembered; the call that started it releases it.
   */
  lemma {:induction false} StepLeaves(m: Machine, step: Step)
    ensures var after := Next(m, step);
            match step
            case Succeed(fetch, response, now) =>
              && after.running == m.running - {fetch} && after.unreleased == m.unreleased && after.clock == now
              && after.cache == AfterSuccess(m.cache, response, now)
              && after.grants == m.grants + {Grant(response.accessToken, after.cache.expiresAt)}
              && after.starts == m.starts
            case Fail(fetch, failure, now, cachedAt) =>
              && after.running == m.running - {fetch} && after.unreleased == m.unreleased && after.clock == cachedAt
              && after.cache == m.cache.(lastFailedFetch := Some(now), lastFetchError := Some(failure))
              && after.grants == m.grants && after.starts == m.starts
            case Release(fetch) =>
              && after == m.(cache := after.cache, unreleased := m.unreleased - {fetch})
              && after.cache == m.cache.(refreshPromise := None)
            case _ =>
              var cache := if step.Ask? then m.cache else Cache(None, 0.0, None, None, m.cache.refreshPromise);
              && after.clock == step.at.cached && after.grants == m.grants
              && (AnswerOf(cache, step.at) != Start ==>
                    && after.cache == cache && after.starts == m.starts && after.running == m.running
                    && after.unreleased == m.unreleased)
              && (AnswerOf(cache, step.at) == Start ==>
                    && after.cache == cache.(refreshPromise := Some(|m.starts|))
                    && after.starts == m.starts + [step.at.throttle]
                    && after.running == m.running + {|m.starts|} && after.unreleased == m.unreleased + {|m.starts|})
  {
    hide AnswerOf;
  }

  /**
   * Started fetches are numbered in order, at most the promised one is running or unreleased, a held token was granted.
   */
  ghost predicate Inv(m: Machine) {
    && m.running <= m.unreleased
    && (forall fetch :: fetch in m.unreleased <==> m.cache.refreshPromise == Some(fetch))
    && (forall fetch :: fetch in m.unreleased ==> fetch < |m.starts|)
    && (m.cache.accessToken.Some? ==> Grant(m.cache.accessToken.value, m.cache.expiresAt) in m.grants)
    && (forall i :: 0 <= i < |m.starts| ==> m.starts[i] <= m.clock)
  }

  lemma {:induction false} StepKeepsInv(m: Machine, step: Step)
    requires Inv(m) && Enabled(m, step)
    ensures Inv(Next(m, step))
  {
  }

  lemma {:induction false} RunKeepsInv(clock: real, steps: seq<Step>)
    requires IsRun(Initial(clock), steps)
    ensures Inv(After(Initial(clock), steps))
  {
    if steps != [] {
      RunKeepsInv(clock, steps[..|steps| - 1]);
      StepKeepsInv(After(Initial(clock), steps[..|steps| - 1]), steps[|steps| - 1]);
    }
  }

  /** In every run at most one token fetch is outstanding. */
  lemma {:induction false} SingleFlight(clock: real, steps: seq<Step>)
    requires IsRun(Initial(clock), steps)
    ensures |After(Initial(clock), steps).running| <= 1
  {
    RunKeepsInv(clock, steps);
    var m := After(Initial(clock), steps);
    if m.running != {} {
      var fetch :| fetch in m.running;
      assert m.running == {fetch};
    }
  }

  /** The token a step chooses for its caller or for the callers that await its fetch, and when it chooses it. */
  function Chosen(m: Machine, step: Step): Option<(string, real)> {
    match step
    case Ask(at) => ChosenByAnswer(m.cache, at)
    case Refresh(at) => ChosenByAnswer(Refreshed(m.cache), at)
    case Succeed(_, response, now) => Some((response.accessToken, now))
    case Fail(_, failure, now, cachedAt) =>
      (match OutcomeOfFailure(AfterFailure(m.cache, failure, now), cachedAt)
       case Fetched(token) => Some((token, cachedAt))
       case Rejected => None)
    case Release(_) => None
  }

  function ChosenByAnswer(c: Cache, at: Readings): Option<(string, real)> {
    match AnswerOf(c, at)
    case Token(Some(token)) => Some((token, if HasFreshToken(c, at.freshness) then at.freshness else at.cached))
    case _ => None
  }

  /** Every token a run supplies was granted by the server for longer than the moment it is chosen. */
  lemma {:induction false} SuppliedTokensAreUnexpired(clock: real, steps: seq<Step>, step: Step)
    requires IsRun(Initial(clock), steps + [step])
    ensures var m := After(Initial(clock), steps);
            Chosen(m, step).Some? ==>
              exists grant :: grant in Next(m, step).grants && grant.token == Chosen(m, step).value.0
                              && Chosen(m, step).value.1 < grant.until
  {
    assert (steps + [step])[..|steps|] == steps;
    RunKeepsInv(clock, steps);
    var m := After(Initial(clock), steps);
    if Chosen(m, step).Some? {
      var until := if step.Succeed? then step.now + LifetimeSeconds(step.response) * 1000.0 else m.cache.expiresAt;
      assert Grant(Chosen(m, step).value.0, until) in Next(m, step).grants;
    }
  }

  /** What a step chooses is what it answers with, at the moment the token was last found good. */
  lemma {:induction false} ChosenIsSupplied(m: Machine, step: Step)
    ensures step.Ask? || step.Refresh? ==>
              var c := if step.Ask? then m.cache else Cache(None, 0.0, None, None, m.cache.refreshPromise);
              match AnswerOf(c, step.at)
              case Token(Some(token)) =>
                Chosen(m, step) == Some((token,
                  if MinuteLeft(c, step.at.freshness) then step.at.freshness else step.at.cached))
              case _ => Chosen(m, step) == None
    ensures step.Succeed? ==> Chosen(m, step) == Some((step.response.accessToken, step.now))
    ensures step.Fail? ==>
              var token := Fallback(m.cache, step.cachedAt);
              Chosen(m, step) == if token.Some? then Some((token.value, step.cachedAt)) else None
    ensures step.Release? ==> Chosen(m, step) == None
  {
  }

  /** Calls with more than a minute left, and releases. */
  ghost predicate AsksInTime(steps: seq<Step>, expiresAt: real) {
    forall step :: step in steps ==>
      step.Release? || (step.Ask? && step.at.freshness + 60000.0 < expiresAt)
  }

  /**
   * One fetch serves every call until a minute before the token expires: none of them starts another, and each is
   * answered with the token.
   */
  lemma {:induction false} OneFetchServesAll(
    m: Machine, fetch: nat, response: Response, now: real, asks: seq<Step>, at: Readings)
    requires response.accessToken != ""
    requires var granted := Next(m, Succeed(fetch, response, now));
             && AsksInTime(asks, granted.cache.expiresAt)
             && at.freshness + 60000.0 < granted.cache.expiresAt
    ensures var granted := Next(m, Succeed(fetch, response, now));
            && After(granted, asks).starts == m.starts
            && AnswerOf(After(granted, asks).cache, at) == Token(Some(response.accessToken))
  {
    var granted := Next(m, Succeed(fetch, response, now));
    HeldWhileFresh(granted, asks);
    AnswersByTime(After(granted, asks).cache, at);
  }

  lemma {:induction false} HeldWhileFresh(m: Machine, asks: seq<Step>)
    requires m.cache.accessToken.Some? && |m.cache.accessToken.value| > 0 && AsksInTime(asks, m.cache.expiresAt)
    ensures var after := After(m, asks);
            && after.starts == m.starts && after.cache.accessToken == m.cache.accessToken
            && after.cache.expiresAt == m.cache.expiresAt
  {
    if asks != [] {
      var rest, last := asks[..|asks| - 1], asks[|asks| - 1];
      assert last in asks;
      HeldWhileFresh(m, rest);
      if last.Ask? {
        AnswersByTime(After(m, rest).cache, last.at);
      }
    }
  }

  /** A refresh never answers from the cache: it starts a fetch or awaits the one under way. */
  lemma {:induction false} RefreshIsAFetch(c: Cache, at: Readings)
    ensures AnswerOf(Refreshed(c), at) == match c.refreshPromise { case Some(fetch) => Await(fetch) case None => Start }
  {
  }

  // ----- the throttle -----

  /** A step of a run of transient failures: no refresh, no success, no authentication rejection. */
  predicate IsTransient(step: Step) {
    match step
    case Refresh(_) => false
    case Succeed(_, _, _) => false
    case Fail(_, failure, _, _) => !IsAuthenticationRejection(failure)
    case _ => true
  }

  /** Calls and releases are such steps, and failures that do not tell of rejected credentials. */
  lemma {:induction false} TransientSteps(step: Step)
    ensures IsTransient(step) <==>
            step.Ask? || step.Release? || (step.Fail? && !TellsOfRejection(step.failure))
  {
    if step.Fail? {
      RejectionsByStatusAndCode(step.failure);
    }
  }

  predicate Spaced(times: seq<real>) {
    forall i :: 0 < i < |times| ==> times[i - 1] + RETRY_DELAY <= times[i]
  }

  /**
   * Since `base` fetches were started, the starts are spaced, and the last one is running or its failure is remembered.
   */
  predicate Paced(m: Machine, base: nat) {
    && base <= |m.starts| && Spaced(m.starts[base..])
    && (|m.starts| > base ==>
          var last := m.starts[|m.starts| - 1];
          || m.running == {|m.starts| - 1}
          || (&& m.cache.lastFailedFetch.Some? && last <= m.cache.lastFailedFetch.value
              && m.cache.lastFetchError.Some? && !IsAuthenticationRejection(m.cache.lastFetchError.value)))
  }

  lemma {:induction false} StepKeepsPace(m: Machine, step: Step, base: nat)
    requires Inv(m) && Paced(m, base) && Enabled(m, step) && IsTransient(step)
    ensures Paced(Next(m, step), base)
  {
    hide Spaced, HasFreshToken, CachedTokenWhileValid, IsAuthenticationRejection, AfterSuccess;
    var after := Next(m, step);
    if after.starts != m.starts {
      SpacedGrows(m.starts[base..], step.at.throttle);
      assert after.starts[base..] == m.starts[base..] + [step.at.throttle];
      assert |m.starts| > base ==> m.starts[base..][|m.starts| - base - 1] == m.starts[|m.starts| - 1];
    }
  }

  lemma {:induction false} SpacedGrows(times: seq<real>, time: real)
    requires Spaced(times)
    ensures (times == [] || times[|times| - 1] + RETRY_DELAY <= time) ==> Spaced(times + [time])
  {
  }

  lemma {:induction false} RunKeepsPace(m: Machine, steps: seq<Step>)
    requires Inv(m) && IsRun(m, steps) && forall step :: step in steps ==> IsTransient(step)
    ensures Inv(After(m, steps)) && Paced(After(m, steps), |m.starts|)
  {
    if steps != [] {
      RunKeepsPace(m, steps[..|steps| - 1]);
      StepKeepsInv(After(m, steps[..|steps| - 1]), steps[|steps| - 1]);
      StepKeepsPace(After(m, steps[..|steps| - 1]), steps[|steps| - 1], |m.starts|);
    }
  }

  function CountWithin(times: seq<real>, from: real, to: real): nat {
    if times == [] then 0
    else CountWithin(times[..|times| - 1], from, to) + if from <= times[|times| - 1] <= to then 1 else 0
  }

  /** The count of the times within a window: one for each time in it, its ends included. */
  lemma {:induction false} CountOneMore(times: seq<real>, time: real, from: real, to: real)
    ensures CountWithin([], from, to) == 0
    ensures CountWithin(times + [time], from, to)
         == CountWithin(times, from, to) + if from <= time && time <= to then 1 else 0
  {
    assert (times + [time])[..|times|] == times;
  }

  lemma {:induction false} SpacedCount(times: seq<real>, from: real, to: real)
    requires Spaced(times)
    ensures CountWithin(times, from, to) >= 1 ==>
      && times != []
      && (CountWithin(times, from, to) - 1) as real * RETRY_DELAY <= to - from
      && (CountWithin(times, from, to) - 1) as real * RETRY_DELAY <= times[|times| - 1] - from
  {
    if times != [] {
      SpacedCount(times[..|times| - 1], from, to);
    }
  }

  /**
   * Transient failures start at most one fetch more than the retry delay fits into a window, wherever the window lies.
   */
  lemma {:induction false} TransientFailuresAreThrottled(
    clock: real, steps: seq<Step>, failures: seq<Step>, from: real, window: real)
    requires IsRun(Initial(clock), steps) && IsRun(After(Initial(clock), steps), failures)
    requires forall step :: step in failures ==> IsTransient(step)
    requires window >= 0.0
    ensures var m := After(Initial(clock), steps);
            && |m.starts| <= |After(m, failures).starts|
            && CountWithin(After(m, failures).starts[|m.starts|..], from, from + window) <= (window / RETRY_DELAY).Floor
               + 1
  {
    var m := After(Initial(clock), steps);
    RunKeepsInv(clock, steps);
    RunKeepsPace(m, failures);
    var count := CountWithin(After(m, failures).starts[|m.starts|..], from, from + window);
    SpacedCount(After(m, failures).starts[|m.starts|..], from, from + window);
    if count >= 1 {
      assert (count - 1) as real <= window / RETRY_DELAY;
    }
  }

  // ----- after a rejection -----

  /** The last fetch of a run that settled, as the step it settled in. */
  function LastSettled(steps: seq<Step>): Option<Step> {
    if steps == [] then None
    else
      var last := steps[|steps| - 1];
      if last.Succeed? || last.Fail? then Some(last) else LastSettled(steps[..|steps| - 1])
  }

  /** No token is held that is fresh, now or later. */
  predicate IsStale(m: Machine) {
    HeldToken(m.cache).None? || m.cache.expiresAt - m.clock <= REFRESH_MARGIN
  }

  /**
   * What a run that last failed to fetch knows: no fresh token, and either that failure or, after a refresh, no
   * failure.
   */
  ghost predicate Remembers(m: Machine, lastSettled: Option<Step>) {
    && (m.running != {} ==> IsStale(m))
    && (lastSettled.Some? && lastSettled.value.Fail? ==>
          && IsStale(m)
          && (|| m.cache.lastFetchError == Some(lastSettled.value.failure)
              || (m.cache.lastFetchError.None? && m.cache.lastFailedFetch.None?)))
  }

  lemma {:induction false} StepRemembers(m: Machine, lastSettled: Option<Step>, step: Step)
    requires Inv(m) && Remembers(m, lastSettled) && Enabled(m, step)
    ensures Remembers(Next(m, step), if step.Succeed? || step.Fail? then Some(step) else lastSettled)
  {
    if step.Succeed? {
      assert m.running == {step.fetch};
    }
  }

  lemma {:induction false} RunRemembers(clock: real, steps: seq<Step>)
    requires IsRun(Initial(clock), steps)
    ensures Remembers(After(Initial(clock), steps), LastSettled(steps))
  {
    hide Remembers, Inv, Next, Enabled;
    if steps == [] {
      StartRemembers(clock);
    } else {
      var before, last := steps[..|steps| - 1], steps[|steps| - 1];
      RunRemembers(clock, before);
      RunKeepsInv(clock, before);
      StepRemembers(After(Initial(clock), before), LastSettled(before), last);
    }
  }

  lemma {:induction false} StartRemembers(clock: real)
    ensures Remembers(Initial(clock), None)
  {
  }

  /**
   * Authentication rejections are never throttled: in every run whose last settled fetch was rejected and is released,
   * the next call starts a fetch at once, however little time has passed.
   */
  lemma {:induction false} RejectionsAreRetried(clock: real, steps: seq<Step>, at: Readings)
    requires IsRun(Initial(clock), steps + [Ask(at)])
    requires LastSettled(steps).Some? && LastSettled(steps).value.Fail?
             && IsAuthenticationRejection(LastSettled(steps).value.failure)
    requires After(Initial(clock), steps).unreleased == {}
    ensures After(Initial(clock), steps + [Ask(at)]).starts == After(Initial(clock), steps).starts + [at.throttle]
    ensures After(Initial(clock), steps + [Ask(at)]).running == {|After(Initial(clock), steps).starts|}
  {
    assert (steps + [Ask(at)])[..|steps|] == steps;
    RunKeepsInv(clock, steps);
    RunRemembers(clock, steps);
    var m := After(Initial(clock), steps);
    assert forall fetch :: m.cache.refreshPromise == Some(fetch) ==> fetch in m.unreleased;
  }
}
