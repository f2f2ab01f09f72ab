/**
 Debounced and cooled-down account refreshes. A timer's firing and its callback taking the mutex are separate steps:
 stopping a timer that has fired does not stop its callback.
 */
module RefreshProtocol {

  datatype Phase = Armed | Fired | Halted | Done

  datatype Timer = Timer(account: string, due: int, phase: Phase)

  datatype Refresh = Refresh(account: string, at: int)

  /** Both durations are made non-negative when the scheduler is built. */
  datatype Config = Config(debounce: nat, cooldown: nat)

  /** Timers are numbered by creation; tracked holds the scheduler's own map, the log what was refreshed when. */
  datatype State = State(pool: seq<Timer>, tracked: map<string, nat>, nextAllowed: map<string, int>, stopped: bool,
                         log: seq<Refresh>, now: int)

  /** A request reads the clock and then starts a timer, possibly a little later. */
  datatype Action =
    | Request(account: string, now: int, started: int)
    | Fire(timer: nat, now: int)
    | Callback(timer: nat, now: int)
    | Stop(now: int)

  const INIT := State([], map[], map[], false, [], 0)

  function Delay(c: Config, s: State, account: string, now: int): (d: int)
    ensures d >= c.debounce
    ensures account in s.nextAllowed ==> now + d >= s.nextAllowed[account]
  {
    if account in s.nextAllowed && s.nextAllowed[account] - now > c.debounce then s.nextAllowed[account] - now
    else c.debounce
  }

  /** `timer.Stop()`. */
  function Halt(pool: seq<Timer>, i: nat): (r: seq<Timer>)
    ensures |r| == |pool|
  {
    if i < |pool| && pool[i].phase == Armed then pool[i := pool[i].(phase := Halted)] else pool
  }

  function HaltAll(pool: seq<Timer>, ids: set<nat>): (r: seq<Timer>)
    ensures |r| == |pool|
  {
    seq(|pool|, i requires 0 <= i < |pool| =>
      if i in ids && pool[i].phase == Armed then pool[i].(phase := Halted) else pool[i])
  }

  lemma HaltOneMore(pool: seq<Timer>, ids: set<nat>, i: nat)
    ensures HaltAll(pool, ids + {i}) == Halt(HaltAll(pool, ids), i)
    ensures HaltAll(pool, {}) == pool
  {
  }

  predicate Enabled(s: State, act: Action) {
    act.now >= s.now &&
    match act
    case Request(_, now, started) => started >= now
    case Fire(i, now) => i < |s.pool| && s.pool[i].phase == Armed && now >= s.pool[i].due
    case Callback(i, _) => i < |s.pool| && s.pool[i].phase == Fired
    case Stop(_) => true
  }

  /** A request first stops the timer its account is known to have. */
  function WithoutTracked(s: State, account: string): (r: seq<Timer>)
    ensures |r| == |s.pool|
  {
    if account in s.tracked then Halt(s.pool, s.tracked[account]) else s.pool
  }

  function Step(c: Config, s: State, act: Action): State
    requires Enabled(s, act)
  {
    match act
    case Request(a, now, started) =>
      if s.stopped then s.(now := started)
      else
        s.(pool := WithoutTracked(s, a) + [Timer(a, started + Delay(c, s, a, now), Armed)], tracked := s.tracked[a := |s.pool|],
           now := started)
    case Fire(i, now) =>
      s.(pool := s.pool[i := s.pool[i].(phase := Fired)], now := now)
    case Callback(i, now) =>
      var a, pool := s.pool[i].account, s.pool[i := s.pool[i].(phase := Done)];
      if s.stopped then s.(pool := pool, now := now)
      else s.(pool := pool, tracked := s.tracked - {a}, nextAllowed := s.nextAllowed[a := now + c.cooldown],
              log := s.log + [Refresh(a, now)], now := now)
    case Stop(now) =>
      s.(pool := HaltAll(s.pool, s.tracked.Values), tracked := map[], stopped := true, now := now)
  }

  // Runs

  predicate Legal(c: Config, acts: seq<Action>)
    decreases |acts|, 0
  {
    acts == []
    || (Legal(c, acts[..|acts| - 1]) && Enabled(After(c, acts[..|acts| - 1]), acts[|acts| - 1]))
  }

  function After(c: Config, acts: seq<Action>): State
    requires Legal(c, acts)
    decreases |acts|, 1
  {
    if acts == [] then INIT else Step(c, After(c, acts[..|acts| - 1]), acts[|acts| - 1])
  }

  /** Every tracked number is a timer of that account, and a stopped scheduler tracks none. */
  ghost predicate Tracks(s: State) {
    && (forall a | a in s.tracked :: s.tracked[a] < |s.pool| && s.pool[s.tracked[a]].account == a)
    && (s.stopped ==> s.tracked == map[])
  }

  lemma StepKeepsTracks(c: Config, s: State, act: Action)
    requires Tracks(s) && Enabled(s, act)
    ensures Tracks(Step(c, s, act))
  {
  }

  lemma {:induction false} AlwaysTracks(c: Config, acts: seq<Action>)
    requires Legal(c, acts)
    ensures Tracks(After(c, acts))
    decreases |acts|
  {
    if acts != [] {
      AlwaysTracks(c, acts[..|acts| - 1]);
      StepKeepsTracks(c, After(c, acts[..|acts| - 1]), acts[|acts| - 1]);
    }
  }

  /** Once stopped, the scheduler refreshes nothing more, whatever fires or was already firing. */
  lemma {:induction false} NothingAfterStop(c: Config, acts: seq<Action>, more: seq<Action>)
    requires Legal(c, acts + more) && Legal(c, acts) && After(c, acts).stopped
    ensures After(c, acts + more).stopped && After(c, acts + more).log == After(c, acts).log
    decreases |more|
  {
    if more == [] {
      assert acts + more == acts;
    } else {
      assert (acts + more)[..|acts + more| - 1] == acts + more[..|more| - 1];
      NothingAfterStop(c, acts, more[..|more| - 1]);
    }
  }

  // Cooldown

  predicate Live(t: Timer) {
    t.phase == Armed || t.phase == Fired
  }

  /** A callback of the account is on its way to the mutex. */
  predicate Pending(s: State, account: string) {
    exists i :: 0 <= i < |s.pool| && s.pool[i].account == account && s.pool[i].phase == Fired
  }

  /** No request of an account takes the mutex between one of its timers firing and that callback taking it. */
  predicate Calm(c: Config, acts: seq<Action>)
    requires Legal(c, acts)
  {
    acts == []
    || (Calm(c, acts[..|acts| - 1])
        && (acts[|acts| - 1].Request? ==> !Pending(After(c, acts[..|acts| - 1]), acts[|acts| - 1].account)))
  }

  /** Refreshes of one account are at least the cooldown apart. */
  predicate Spaced(c: Config, log: seq<Refresh>) {
    forall i, j | 0 <= i < j < |log| && log[i].account == log[j].account :: log[j].at >= log[i].at + c.cooldown
  }

  /** One live timer per account at most; an armed one is tracked; none is due before the account may refresh. */
  ghost predicate TimersInOrder(s: State) {
    && (forall i, j | 0 <= i < j < |s.pool| && Live(s.pool[i]) && Live(s.pool[j]) :: s.pool[i].account != s.pool[j].account)
    && (forall i | 0 <= i < |s.pool| && s.pool[i].phase == Armed ::
          s.pool[i].account in s.tracked && s.tracked[s.pool[i].account] == i)
    && (forall i | 0 <= i < |s.pool| && s.pool[i].phase == Fired :: s.pool[i].due <= s.now)
    && (forall i | 0 <= i < |s.pool| && Live(s.pool[i]) && s.pool[i].account in s.nextAllowed ::
          s.pool[i].due >= s.nextAllowed[s.pool[i].account])
  }

  ghost predicate LogInOrder(c: Config, s: State) {
    && (forall r | r in s.log :: r.account in s.nextAllowed && r.at + c.cooldown <= s.nextAllowed[r.account])
    && Spaced(c, s.log)
  }

  ghost predicate Orderly(c: Config, s: State) {
    Tracks(s) && TimersInOrder(s) && LogInOrder(c, s)
  }

  lemma RequestKeepsOrder(c: Config, s: State, a: string, now: int, started: int)
    requires Orderly(c, s) && Enabled(s, Request(a, now, started)) && !Pending(s, a)
    ensures Orderly(c, Step(c, s, Request(a, now, started)))
  {
    StepKeepsTracks(c, s, Request(a, now, started));
    RequestKeepsTimers(c, s, a, now, started);
  }

  lemma RequestKeepsTimers(c: Config, s: State, a: string, now: int, started: int)
    requires Tracks(s) && TimersInOrder(s) && Enabled(s, Request(a, now, started)) && !Pending(s, a)
    ensures TimersInOrder(Step(c, s, Request(a, now, started)))
  {
    if s.stopped {
      ClockKeepsTimers(s, started);
    } else {
      ReplacedTimerIsGone(s, a, WithoutTracked(s, a));
      AddedTimerKeepsOrder(c, s, WithoutTracked(s, a), a, now, started);
    }
  }

  lemma ClockKeepsTimers(s: State, now: int)
    requires TimersInOrder(s) && now >= s.now
    ensures TimersInOrder(s.(now := now))
  {
  }

  lemma ReplacedTimerIsGone(s: State, a: string, pool: seq<Timer>)
    requires Tracks(s) && TimersInOrder(s) && !Pending(s, a)
    requires pool == WithoutTracked(s, a)
    ensures forall i | 0 <= i < |pool| && Live(pool[i]) :: pool[i] == s.pool[i] && pool[i].account != a
  {
    assert forall i | 0 <= i < |s.pool| && s.pool[i].phase == Fired :: s.pool[i].account != a;
  }

  lemma AddedTimerKeepsOrder(c: Config, s: State, pool: seq<Timer>, a: string, now: int, started: int)
    requires TimersInOrder(s) && |pool| == |s.pool| && s.now <= now <= started
    requires forall i | 0 <= i < |pool| && Live(pool[i]) :: pool[i] == s.pool[i] && pool[i].account != a
    ensures TimersInOrder(s.(pool := pool + [Timer(a, started + Delay(c, s, a, now), Armed)],
                             tracked := s.tracked[a := |s.pool|], now := started))
  {
  }

  lemma FireKeepsOrder(c: Config, s: State, i: nat, now: int)
    requires Orderly(c, s) && Enabled(s, Fire(i, now))
    ensures Orderly(c, Step(c, s, Fire(i, now)))
  {
  }

  lemma CallbackKeepsOrder(c: Config, s: State, i: nat, now: int)
    requires Orderly(c, s) && Enabled(s, Callback(i, now))
    ensures Orderly(c, Step(c, s, Callback(i, now)))
  {
    var a := s.pool[i].account;
    var t := Step(c, s, Callback(i, now));
    assert a in s.nextAllowed ==> now >= s.nextAllowed[a];
    forall k | 0 <= k < |t.pool| && Live(t.pool[k]) ensures t.pool[k] == s.pool[k] && t.pool[k].account != a {
    }
  }

  lemma StopKeepsOrder(c: Config, s: State, now: int)
    requires Orderly(c, s) && Enabled(s, Stop(now))
    ensures Orderly(c, Step(c, s, Stop(now)))
  {
    var t := Step(c, s, Stop(now));
    forall i | 0 <= i < |t.pool| ensures t.pool[i].phase != Armed && (Live(t.pool[i]) ==> t.pool[i] == s.pool[i]) {
      if s.pool[i].phase == Armed {
        assert s.tracked[s.pool[i].account] == i;
        assert i in s.tracked.Values;
      }
    }
  }

  lemma {:induction false} CalmRunsStayOrderly(c: Config, acts: seq<Action>)
    requires Legal(c, acts) && Calm(c, acts)
    ensures Orderly(c, After(c, acts))
    decreases |acts|
  {
    if acts != [] {
      var s := After(c, acts[..|acts| - 1]);
      CalmRunsStayOrderly(c, acts[..|acts| - 1]);
      match acts[|acts| - 1]
      case Request(a, now, started) => RequestKeepsOrder(c, s, a, now, started);
      case Fire(i, now) => FireKeepsOrder(c, s, i, now);
      case Callback(i, now) => CallbackKeepsOrder(c, s, i, now);
      case Stop(now) => StopKeepsOrder(c, s, now);
    }
  }

  /** In every calm run, refreshes of an account keep the cooldown. */
  lemma CalmRunsKeepTheCooldown(c: Config, acts: seq<Action>)
    requires Legal(c, acts) && Calm(c, acts)
    ensures Spaced(c, After(c, acts).log)
  {
    CalmRunsStayOrderly(c, acts);
  }

  // The race

  /** A timer fires, a request slips in before its callback, and both callbacks refresh at the same moment. */
  function Race(a: string, d: nat): seq<Action> {
    [Request(a, 0, 0), Fire(0, d), Request(a, d, d), Callback(0, 2 * d), Fire(1, 2 * d), Callback(1, 2 * d)]
  }

  lemma Extend(c: Config, acts: seq<Action>, act: Action)
    requires Legal(c, acts) && Enabled(After(c, acts), act)
    ensures Legal(c, acts + [act]) && After(c, acts + [act]) == Step(c, After(c, acts), act)
    ensures Calm(c, acts + [act]) ==> Calm(c, acts) && (act.Request? ==> !Pending(After(c, acts), act.account))
  {
    assert (acts + [act])[..|acts|] == acts;
  }

  lemma FirstRequest(c: Config, a: string)
    ensures Step(c, INIT, Request(a, 0, 0)) == State([Timer(a, c.debounce, Armed)], map[a := 0], map[], false, [], 0)
  {
  }

  lemma RaceBegins(c: Config, a: string)
    ensures var acts, d := Race(a, c.debounce)[..2], c.debounce;
            && Legal(c, acts) && After(c, acts) == State([Timer(a, d, Fired)], map[a := 0], map[], false, [], d)
  {
    var d, first := c.debounce, Request(a, 0, 0);
    Extend(c, [], first);
    FirstRequest(c, a);
    Extend(c, [] + [first], Fire(0, d));
    assert Race(a, d)[..2] == [] + [first] + [Fire(0, d)];
  }

  lemma SecondRequest(c: Config, a: string, d: nat)
    requires d == c.debounce
    ensures Step(c, State([Timer(a, d, Fired)], map[a := 0], map[], false, [], d), Request(a, d, d))
         == State([Timer(a, d, Fired), Timer(a, 2 * d, Armed)], map[a := 1], map[], false, [], d)
  {
  }

  lemma FirstCallback(c: Config, a: string, d: nat)
    ensures Step(c, State([Timer(a, d, Fired), Timer(a, 2 * d, Armed)], map[a := 1], map[], false, [], d), Callback(0, 2 * d))
         == State([Timer(a, d, Done), Timer(a, 2 * d, Armed)], map[], map[a := 2 * d + c.cooldown], false,
                  [Refresh(a, 2 * d)], 2 * d)
  {
    assert map[a := 1] - {a} == map[];
  }

  /** The race up to its first callback: that callback removes the entry of the other timer, which stays armed. */
  lemma RaceLosesATimer(c: Config, a: string)
    ensures var acts, d := Race(a, c.debounce)[..4], c.debounce;
            && Legal(c, acts) && !Calm(c, acts)
            && After(c, acts) == State([Timer(a, d, Done), Timer(a, 2 * d, Armed)], map[],
                                       map[a := 2 * d + c.cooldown], false, [Refresh(a, 2 * d)], 2 * d)
  {
    var d := c.debounce;
    var a2 := Race(a, d)[..2];
    RaceBegins(c, a);
    assert After(c, a2).pool[0].account == a && Pending(After(c, a2), a);
    Extend(c, a2, Request(a, d, d));
    SecondRequest(c, a, d);
    Extend(c, a2 + [Request(a, d, d)], Callback(0, 2 * d));
    FirstCallback(c, a, d);
    assert a2 + [Request(a, d, d)] + [Callback(0, 2 * d)] == Race(a, d)[..4];
  }

  lemma RaceBreaksCooldown(c: Config, a: string)
    ensures var acts := Race(a, c.debounce);
            && Legal(c, acts) && !Calm(c, acts)
            && After(c, acts).log == [Refresh(a, 2 * c.debounce), Refresh(a, 2 * c.debounce)]
  {
    var d := c.debounce;
    var a4 := Race(a, d)[..4];
    RaceLosesATimer(c, a);
    Extend(c, a4, Fire(1, 2 * d));
    Extend(c, a4 + [Fire(1, 2 * d)], Callback(1, 2 * d));
    assert Race(a, d) == a4 + [Fire(1, 2 * d)] + [Callback(1, 2 * d)];
  }

  lemma {:induction false} LogAscends(c: Config, acts: seq<Action>)
    requires Legal(c, acts)
    ensures var s := After(c, acts);
            && (forall i, j | 0 <= i < j < |s.log| :: s.log[i].at <= s.log[j].at)
            && (forall r | r in s.log :: r.at <= s.now)
    decreases |acts|
  {
    if acts != [] {
      LogAscends(c, acts[..|acts| - 1]);
    }
  }

  /** What a slipped-in request leads to: the pending callback, the new timer's firing and its callback, all at once. */
  function Slip(fired: nat, added: nat, at: int): seq<Action> {
    [Callback(fired, at), Fire(added, at), Callback(added, at)]
  }

  /** One timer of the account has fired, another is armed and due. */
  predicate Colliding(s: State, fired: nat, added: nat, a: string, at: int) {
    && at >= s.now && fired < |s.pool| && added < |s.pool|
    && s.pool[fired].account == a && s.pool[fired].phase == Fired
    && s.pool[added].account == a && s.pool[added].phase == Armed && s.pool[added].due <= at
  }

  lemma SlipRefreshesTwice(c: Config, acts: seq<Action>, fired: nat, added: nat, a: string, at: int)
    requires Legal(c, acts) && !After(c, acts).stopped && Colliding(After(c, acts), fired, added, a, at)
    ensures var run := acts + Slip(fired, added, at);
            Legal(c, run) && After(c, run).log == After(c, acts).log + [Refresh(a, at), Refresh(a, at)]
  {
    var first, second, third := Callback(fired, at), Fire(added, at), Callback(added, at);
    Extend(c, acts, first);
    Extend(c, acts + [first], second);
    Extend(c, acts + [first] + [second], third);
    assert acts + [first] + [second] + [third] == acts + Slip(fired, added, at);
  }

  lemma TwiceBreaksCooldown(c: Config, log: seq<Refresh>, a: string, at: int)
    requires c.cooldown > 0
    ensures !Spaced(c, log + [Refresh(a, at), Refresh(a, at)])
  {
    var n, twice := |log|, log + [Refresh(a, at), Refresh(a, at)];
    assert twice[n].account == twice[n + 1].account && !(twice[n + 1].at >= twice[n].at + c.cooldown);
  }

  /** Calm is what the cooldown needs: from any state of any run, a request that slips in before a callback of its
      account can be followed by a run that breaks the cooldown. */
  lemma EverySlipCanBreak(c: Config, acts: seq<Action>, request: Action) returns (more: seq<Action>)
    requires Legal(c, acts) && !After(c, acts).stopped && c.cooldown > 0
    requires request.Request? && Enabled(After(c, acts), request) && Pending(After(c, acts), request.account)
    ensures Legal(c, acts + [request] + more) && !Spaced(c, After(c, acts + [request] + more).log)
  {
    var s, a := After(c, acts), request.account;
    var fired :| 0 <= fired < |s.pool| && s.pool[fired].account == a && s.pool[fired].phase == Fired;
    Extend(c, acts, request);
    AlwaysTracks(c, acts);
    var t := After(c, acts + [request]);
    var at := if t.pool[|s.pool|].due >= t.now then t.pool[|s.pool|].due else t.now;
    more := Slip(fired, |s.pool|, at);
    SlipRefreshesTwice(c, acts + [request], fired, |s.pool|, a, at);
    TwiceBreaksCooldown(c, t.log, a, at);
  }

  /** So without the calm assumption the cooldown is kept only when there is none to keep. */
  lemma CooldownNeedsCalm(c: Config)
    ensures (forall acts | Legal(c, acts) :: Spaced(c, After(c, acts).log)) <==> c.cooldown == 0
  {
    RaceBreaksCooldown(c, "A");
    if c.cooldown == 0 {
      forall acts | Legal(c, acts) ensures Spaced(c, After(c, acts).log) {
        LogAscends(c, acts);
      }
    } else {
      var log := After(c, Race("A", c.debounce)).log;
      assert log[0].account == log[1].account && !(log[1].at >= log[0].at + c.cooldown);
      assert !Spaced(c, log);
    }
  }
}
