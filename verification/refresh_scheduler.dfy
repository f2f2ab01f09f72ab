/** The scheduler object: each method is one critical section of the protocol. */
module RefreshScheduler {
  import opened RefreshProtocol
  import opened Text

  class AutoRefreshScheduler {
    const config: Config
    var timers: map<string, nat>
    var nextAllowed: map<string, int>
    var stopped: bool
    /** The runtime's timers, what has been refreshed, and the clock. */
    var pool: seq<Timer>
    var log: seq<Refresh>
    var now: int
    /** Everything that happened, as steps of the protocol. */
    ghost var acts: seq<Action>

    ghost function Snapshot(): State
      reads this
    {
      State(pool, timers, nextAllowed, stopped, log, now)
    }

    ghost predicate Valid()
      reads this
    {
      Legal(config, acts) && Snapshot() == After(config, acts)
    }

    constructor (debounce: int, cooldown: int)
      ensures Valid() && acts == []
      ensures config == Config(if debounce < 0 then 0 else debounce, if cooldown < 0 then 0 else cooldown)
    {
      config := Config(if debounce < 0 then 0 else debounce, if cooldown < 0 then 0 else cooldown);
      timers, nextAllowed, stopped := map[], map[], false;
      pool, log, now, acts := [], [], 0, [];
    }

    /** A blank account is ignored; otherwise the account's timer is replaced by one that respects the cooldown. */
    method Request(accountID: string, at: int, started: int)
      requires Valid() && now <= at <= started
      modifies this
      ensures Valid()
      ensures var account := TrimSpace(accountID);
              acts == if account == "" then old(acts) else old(acts) + [Action.Request(account, at, started)]
    {
      var account := TrimSpace(accountID);
      if account != "" {
        Schedule(account, at, started);
      }
    }

    method Schedule(account: string, at: int, started: int)
      requires Valid() && now <= at <= started
      modifies this
      ensures Valid() && acts == old(acts) + [Action.Request(account, at, started)]
    {
      Extend(config, acts, Action.Request(account, at, started));
      acts := acts + [Action.Request(account, at, started)];
      if stopped {
        now := started;
      } else {
        Arm(account, at, started);
      }
    }

    method Arm(account: string, at: int, started: int)
      requires !stopped && now <= at <= started
      modifies this`pool, this`timers, this`now
      ensures Snapshot() == Step(config, old(Snapshot()), Action.Request(account, at, started))
    {
      var delay: int := config.debounce;
      if account in nextAllowed {
        var cooldownDelay := nextAllowed[account] - at;
        if cooldownDelay > delay {
          delay := cooldownDelay;
        }
      }
      if account in timers {
        pool := Halt(pool, timers[account]);
      }
      timers := timers[account := |pool|];
      pool := pool + [Timer(account, started + delay, Armed)];
      now := started;
    }

    /** The runtime lets a due timer fire: its callback is now on its way. */
    method Fire(i: nat, at: int)
      requires Valid() && Enabled(Snapshot(), Action.Fire(i, at))
      modifies this
      ensures Valid() && acts == old(acts) + [Action.Fire(i, at)]
    {
      Extend(config, acts, Action.Fire(i, at));
      acts := acts + [Action.Fire(i, at)];
      pool, now := pool[i := pool[i].(phase := Fired)], at;
    }

    /** The callback's critical section: does the refresh go ahead? */
    method Run(i: nat, at: int) returns (refresh: bool)
      requires Valid() && Enabled(Snapshot(), Callback(i, at))
      modifies this
      ensures Valid() && acts == old(acts) + [Callback(i, at)]
      ensures refresh == !old(stopped)
      ensures log == if refresh then old(log) + [Refresh(old(pool)[i].account, at)] else old(log)
    {
      Extend(config, acts, Callback(i, at));
      acts := acts + [Callback(i, at)];
      var account := pool[i].account;
      pool, now := pool[i := pool[i].(phase := Done)], at;
      if stopped {
        return false;
      }
      timers := timers - {account};
      nextAllowed := nextAllowed[account := at + config.cooldown];
      log := log + [Refresh(account, at)];
      refresh := true;
    }

    method Stop(at: int)
      requires Valid() && now <= at
      modifies this
      ensures Valid() && acts == old(acts) + [Action.Stop(at)]
      ensures stopped && timers == map[]
    {
      Extend(config, acts, Action.Stop(at));
      acts := acts + [Action.Stop(at)];
      stopped, now := true, at;
      StopTimers();
    }

    /** Stops every tracked timer, in any order. */
    method StopTimers()
      modifies this`pool, this`timers
      ensures pool == HaltAll(old(pool), old(timers).Values) && timers == map[]
    {
      ghost var tracked, was := timers, pool;
      ghost var halted: set<nat> := {};
      HaltOneMore(was, {}, 0);
      while timers != map[]
        invariant timers.Keys <= tracked.Keys && forall a | a in timers :: timers[a] == tracked[a]
        invariant halted <= tracked.Values && forall a | a in tracked && a !in timers :: tracked[a] in halted
        invariant pool == HaltAll(was, halted)
        decreases |timers|
      {
        var account :| account in timers;
        HaltOneMore(was, halted, timers[account]);
        pool := Halt(pool, timers[account]);
        halted := halted + {timers[account]};
        timers := timers - {account};
      }
      assert halted == tracked.Values;
    }
  }

  /** Whatever its callers do, a scheduler that was stopped refreshes nothing more. */
  twostate lemma StoppedStaysQuiet(s: AutoRefreshScheduler, more: seq<Action>)
    requires old(s.Valid()) && s.Valid() && old(s.stopped)
    requires s.acts == old(s.acts) + more
    ensures s.stopped && s.log == old(s.log)
  {
    NothingAfterStop(s.config, old(s.acts), more);
  }

  /** And as long as its requests stay clear of pending callbacks, it keeps the cooldown. */
  lemma CalmSchedulerKeepsTheCooldown(s: AutoRefreshScheduler)
    requires s.Valid() && Calm(s.config, s.acts)
    ensures Spaced(s.config, s.log)
  {
    CalmRunsKeepTheCooldown(s.config, s.acts);
  }
}
