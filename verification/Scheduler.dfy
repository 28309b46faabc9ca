/** The scheduler (core/scheduler.py, core/schedule.py, core/db/settings.py `due_users`). */
module Scheduler {
  import opened Wrappers
  import opened Sequences
  import opened Cadence
  import opened Alerts

  type UserId = nat

  // Past every date a next run can be.
  const FAR_FUTURE: int := 253_402_214_400_000_000

  /** The intervals are whole seconds and positive, the batch and the threshold positive. */
  datatype Config = Config(minCadence: nat, window: nat, batch: nat, alertStreak: nat)

  predicate ValidConfig(config: Config) {
    config.minCadence > 0 && config.window > 0 && config.batch > 0 && config.alertStreak > 0
  }

  datatype Prefix = INVEST | REBALANCE

  /** A user's settings. `hash` is the CRC32 of the user's id. */
  datatype Settings = Settings(
    hash: nat, paused: bool, investEnabled: bool, invest: Cadence, rebalance: Cadence,
    nextInvest: Option<int>, nextRebalance: Option<int>, failureStreak: nat)

  predicate Usable(c: Cadence) {
    c.mode == MIN || HasSlots(c)
  }

  function NextSlot(c: Cadence, hash: nat, now: int, config: Config): int
    requires ValidConfig(config) && Usable(c)
  {
    if c.mode == MIN then Every(config.minCadence, hash % config.minCadence, now)
    else
      var months, days, offset := OrZero(c.intervalMonths), OrZero(c.intervalDays), hash % config.window * SECOND;
      FirstAfter(c.anchor.value, months, days, offset, now, 0)
  }

  ghost predicate IsSlotOf(c: Cadence, hash: nat, config: Config, t: int)
    requires ValidConfig(config) && Usable(c)
  {
    if c.mode == MIN then IsEverySlot(config.minCadence, hash % config.minCadence, t)
    else IsSlot(c.anchor.value, OrZero(c.intervalMonths), OrZero(c.intervalDays), hash % config.window * SECOND, t)
  }

  /** The clock does not hide a slot from `_every`. */
  predicate SeesNextSlot(c: Cadence, hash: nat, now: int, config: Config)
    requires ValidConfig(config)
  {
    c.mode == MIN ==> SeesTheNext(config.minCadence, hash % config.minCadence, now)
  }

  /** A slot strictly after `now`, in either mode, and the first one exactly when the clock hides none. */
  lemma NextSlotIsFirst(c: Cadence, hash: nat, now: int, config: Config)
    requires ValidConfig(config) && Usable(c)
    ensures NextSlot(c, hash, now, config) > now && IsSlotOf(c, hash, config, NextSlot(c, hash, now, config))
    ensures (forall t :: IsSlotOf(c, hash, config, t) && t > now ==> NextSlot(c, hash, now, config) <= t)
      <==> SeesNextSlot(c, hash, now, config)
  {
    hide Every, FirstAfter, Occurrence, IsEverySlot, SeesTheNext;
    if c.mode == MIN {
      var step, offset := config.minCadence, hash % config.minCadence;
      EveryBracket(step, offset, now);
      EveryIsNextExactlyWhen(step, offset, now);
      EveryIsFirstExactlyWhen(step, offset, now);
      assert forall t :: IsSlotOf(c, hash, config, t) <==> IsEverySlot(step, offset, t);
    } else {
      var anchor, months, days, offset :=
        c.anchor.value, OrZero(c.intervalMonths), OrZero(c.intervalDays), hash % config.window * SECOND;
      LeastOfSlots(anchor, months, days, offset, now);
    }
  }

  predicate Schedulable(s: Settings) {
    Usable(s.invest) && Usable(s.rebalance)
  }

  /** When an operation is next due; `None` for an investment switched off. */
  function NextRun(s: Settings, prefix: Prefix, now: int, config: Config): Option<int>
    requires ValidConfig(config) && Schedulable(s)
  {
    if prefix == INVEST && !s.investEnabled then None
    else Some(NextSlot(if prefix == INVEST then s.invest else s.rebalance, s.hash, now, config))
  }

  // ----- Settings changed by a request, and rows without a next run -----------------------------

  function NextOf(s: Settings, prefix: Prefix): Option<int> {
    if prefix == INVEST then s.nextInvest else s.nextRebalance
  }

  function WithNext(s: Settings, prefix: Prefix, next: Option<int>): Settings {
    if prefix == INVEST then s.(nextInvest := next) else s.(nextRebalance := next)
  }

  /** The settings a request names. The three columns of a cadence are one field here. */
  datatype Patch = Patch(
    paused: Option<bool>, investEnabled: Option<bool>, invest: Option<Cadence>, rebalance: Option<Cadence>)

  function Patched(s: Settings, patch: Patch): Settings {
    s.(paused := if patch.paused.Some? then patch.paused.value else s.paused,
       investEnabled := if patch.investEnabled.Some? then patch.investEnabled.value else s.investEnabled,
       invest := if patch.invest.Some? then patch.invest.value else s.invest,
       rebalance := if patch.rebalance.Some? then patch.rebalance.value else s.rebalance)
  }

  /** Whether the request names a setting this operation's next run comes from. */
  predicate Touches(patch: Patch, prefix: Prefix) {
    || patch.paused.Some?
    || (if prefix == INVEST then patch.investEnabled.Some? || patch.invest.Some? else patch.rebalance.Some?)
  }

  function Rescheduled(s: Settings, patch: Patch, prefix: Prefix, now: int, config: Config): Option<int>
    requires ValidConfig(config) && Schedulable(Patched(s, patch))
  {
    if Touches(patch, prefix) then NextRun(Patched(s, patch), prefix, now, config) else NextOf(s, prefix)
  }

  /** The row after a request. */
  function Changed(s: Settings, patch: Patch, now: int, config: Config): Settings
    requires ValidConfig(config) && Schedulable(Patched(s, patch))
  {
    Patched(s, patch).(nextInvest := Rescheduled(s, patch, INVEST, now, config),
                       nextRebalance := Rescheduled(s, patch, REBALANCE, now, config))
  }

  /** The cadence an operation's next run comes from. */
  function CadenceOf(s: Settings, prefix: Prefix): Cadence {
    if prefix == INVEST then s.invest else s.rebalance
  }

  /** The next run is the operation's first slot after `now`, and none for an investment switched off. */
  ghost predicate StartsAfresh(s: Settings, prefix: Prefix, now: int, config: Config)
    requires ValidConfig(config) && Schedulable(s)
  {
    var next, c := NextOf(s, prefix), CadenceOf(s, prefix);
    && (next.None? <==> prefix == INVEST && !s.investEnabled)
    && (next.Some? ==> next.value > now && IsSlotOf(c, s.hash, config, next.value))
    && (next.Some? && SeesNextSlot(c, s.hash, now, config) ==>
          forall t :: IsSlotOf(c, s.hash, config, t) && t > now ==> next.value <= t)
  }

  lemma NextRunStartsAfresh(s: Settings, prefix: Prefix, now: int, config: Config)
    requires ValidConfig(config) && Schedulable(s) && NextOf(s, prefix) == NextRun(s, prefix, now, config)
    ensures StartsAfresh(s, prefix, now, config)
  {
    hide NextSlot, IsSlotOf, SeesNextSlot;
    NextSlotIsFirst(CadenceOf(s, prefix), s.hash, now, config);
  }

  lemma NextRunIgnores(s: Settings, t: Settings, prefix: Prefix, now: int, config: Config)
    requires ValidConfig(config) && Schedulable(s)
    requires t == s.(nextInvest := t.nextInvest, nextRebalance := t.nextRebalance, failureStreak := t.failureStreak)
    ensures Schedulable(t) && NextRun(t, prefix, now, config) == NextRun(s, prefix, now, config)
  {
    hide NextSlot;
  }

  /** A request that names the pause, the operation's switch or its cadence starts that operation afresh, on the
      cadence as it is then; any other leaves its next run alone. Everything named is as the request says. */
  lemma ChangedStartsAfresh(s: Settings, patch: Patch, now: int, config: Config)
    requires ValidConfig(config) && Schedulable(Patched(s, patch))
    ensures
      var after := Changed(s, patch, now, config);
      && Schedulable(after)
      && (patch.paused.Some? || patch.investEnabled.Some? || patch.invest.Some? ==>
            StartsAfresh(after, INVEST, now, config))
      && (patch.paused.None? && patch.investEnabled.None? && patch.invest.None? ==> after.nextInvest == s.nextInvest)
      && (patch.paused.Some? || patch.rebalance.Some? ==> StartsAfresh(after, REBALANCE, now, config))
      && (patch.paused.None? && patch.rebalance.None? ==> after.nextRebalance == s.nextRebalance)
      && (patch.invest.Some? ==> after.invest == patch.invest.value)
      && (patch.rebalance.Some? ==> after.rebalance == patch.rebalance.value)
      && (patch.paused.Some? ==> after.paused == patch.paused.value)
      && (patch.investEnabled.Some? ==> after.investEnabled == patch.investEnabled.value)
      && after.failureStreak == s.failureStreak && after.hash == s.hash
  {
    hide NextRun, StartsAfresh, Usable;
    var after := Changed(s, patch, now, config);
    if patch.paused.Some? || patch.investEnabled.Some? || patch.invest.Some? {
      NextRunIgnores(Patched(s, patch), after, INVEST, now, config);
      NextRunStartsAfresh(after, INVEST, now, config);
    }
    if patch.paused.Some? || patch.rebalance.Some? {
      NextRunIgnores(Patched(s, patch), after, REBALANCE, now, config);
      NextRunStartsAfresh(after, REBALANCE, now, config);
    }
  }

  predicate LacksRun(s: Settings) {
    s.nextRebalance.None? || (s.investEnabled && s.nextInvest.None?)
  }

  /** The row after the backfill at start-up. */
  function Filled(s: Settings, now: int, config: Config): Settings
    requires ValidConfig(config) && Schedulable(s)
  {
    s.(nextRebalance := if s.nextRebalance.None? then NextRun(s, REBALANCE, now, config) else s.nextRebalance,
       nextInvest := if s.investEnabled && s.nextInvest.None? then NextRun(s, INVEST, now, config) else s.nextInvest)
  }

  /** The backfill starts afresh what lacks a next run and is wanted, and leaves the rest alone. */
  lemma FilledStartsAfresh(s: Settings, now: int, config: Config)
    requires ValidConfig(config) && Schedulable(s)
    ensures
      var after := Filled(s, now, config);
      && after == s.(nextInvest := after.nextInvest, nextRebalance := after.nextRebalance)
      && (if s.nextRebalance.None? then StartsAfresh(after, REBALANCE, now, config)
          else after.nextRebalance == s.nextRebalance)
      && (if s.investEnabled && s.nextInvest.None? then StartsAfresh(after, INVEST, now, config)
          else after.nextInvest == s.nextInvest)
  {
    hide NextRun, StartsAfresh, Usable;
    var after := Filled(s, now, config);
    NextRunIgnores(s, after, INVEST, now, config);
    NextRunIgnores(s, after, REBALANCE, now, config);
    if s.nextRebalance.None? { NextRunStartsAfresh(after, REBALANCE, now, config); }
    if s.investEnabled && s.nextInvest.None? { NextRunStartsAfresh(after, INVEST, now, config); }
  }

  // ----- The users due -------------------------------------------------------------------

  type Users = map<UserId, Settings>

  function OrFar(t: Option<int>): int {
    if t.Some? then t.value else FAR_FUTURE
  }

  /** What the query sorts by. */
  function Key(s: Settings): int {
    if OrFar(s.nextInvest) <= OrFar(s.nextRebalance) then OrFar(s.nextInvest) else OrFar(s.nextRebalance)
  }

  function KeyOf(users: Users, u: UserId): int {
    if u in users then Key(users[u]) else FAR_FUTURE
  }

  predicate InvestDue(s: Settings, now: int) {
    s.nextInvest.Some? && s.nextInvest.value <= now
  }

  predicate RebalanceDue(s: Settings, now: int) {
    s.nextRebalance.Some? && s.nextRebalance.value <= now
  }

  predicate IsDue(s: Settings, now: int) {
    !s.paused && (InvestDue(s, now) || RebalanceDue(s, now))
  }

  function Due(users: Users, now: int): set<UserId> {
    set u | u in users && IsDue(users[u], now)
  }

  /** A user is due exactly when not paused and with a next run that has come, and the key says which came first. */
  lemma DueExactlyWhen(users: Users, now: int, u: UserId)
    requires now < FAR_FUTURE
    ensures u in Due(users, now) <==>
      && u in users && !users[u].paused
      && exists prefix :: NextOf(users[u], prefix).Some? && NextOf(users[u], prefix).value <= now
    ensures u in Due(users, now) ==>
      && KeyOf(users, u) <= now
      && exists prefix :: NextOf(users[u], prefix) == Some(KeyOf(users, u))
    ensures u in Due(users, now) ==> forall prefix :: OrFar(NextOf(users[u], prefix)) >= KeyOf(users, u)
  {
    if u in users {
      var s := users[u];
      assert NextOf(s, INVEST) == s.nextInvest && NextOf(s, REBALANCE) == s.nextRebalance;
    }
  }

  /** An answer of the query: due users, as many as the limit allows, the most overdue first. */
  ghost predicate IsBatch(users: Users, now: int, limit: nat, batch: seq<UserId>) {
    && NoRepeats(batch)
    && (forall u :: u in batch ==> u in Due(users, now))
    && (|batch| == limit || (|batch| < limit && forall u :: u in Due(users, now) ==> u in batch))
    && (forall i, j :: 0 <= i < j < |batch| ==> KeyOf(users, batch[i]) <= KeyOf(users, batch[j]))
    && (forall u, v :: u in batch && v in Due(users, now) && v !in batch ==> KeyOf(users, u) <= KeyOf(users, v))
  }

  ghost predicate IsLeast(users: Users, ids: set<UserId>, u: UserId) {
    u in ids && forall v :: v in ids ==> KeyOf(users, u) <= KeyOf(users, v)
  }

  lemma {:induction false} LeastExists(users: Users, ids: set<UserId>) returns (u: UserId)
    requires ids != {}
    ensures IsLeast(users, ids, u)
    decreases ids
  {
    hide KeyOf;
    u :| u in ids;
    if ids != {u} {
      var least := LeastExists(users, ids - {u});
      assert forall v :: v in ids ==> v == u || v in ids - {u};
      u := if KeyOf(users, u) <= KeyOf(users, least) then u else least;
    }
  }

  /** The query. Users equally overdue come in any order. */
  method DueUsers(users: Users, now: int, limit: nat) returns (batch: seq<UserId>)
    ensures IsBatch(users, now, limit, batch)
  {
    batch := [];
    var rest := Due(users, now);
    while |batch| < limit && rest != {}
      invariant |batch| <= limit && NoRepeats(batch)
      invariant forall u :: u in Due(users, now) <==> u in batch || u in rest
      invariant forall u :: u in batch ==> u !in rest
      invariant forall i, j :: 0 <= i < j < |batch| ==> KeyOf(users, batch[i]) <= KeyOf(users, batch[j])
      invariant forall u, v :: u in batch && v in rest ==> KeyOf(users, u) <= KeyOf(users, v)
      decreases rest
    {
      ghost var least := LeastExists(users, rest);
      var u :| u in rest && forall v :: v in rest ==> KeyOf(users, u) <= KeyOf(users, v);
      batch := batch + [u];
      rest := rest - {u};
    }
  }

  // ----- A tick ---------------------------------------------------------------------------

  /** How one operation ended for the scheduler. */
  datatype Outcome = Busy | NotReady | Ran(failed: bool)

  /** The settings after one operation. */
  function Operated(s: Settings, prefix: Prefix, now: int, outcome: Outcome, config: Config): Settings
    requires ValidConfig(config) && Schedulable(s)
  {
    var moved := WithNext(s, prefix, NextRun(s, prefix, now, config));
    if prefix == INVEST && !s.investEnabled then moved
    else match outcome
      case Busy => s
      case NotReady => moved
      case Ran(failed) => moved.(failureStreak := Count(s.failureStreak, failed, config.alertStreak).streak)
  }

  /** What one operation of a due user moves: its own next run exactly when it was not busy, or is switched off,
      and then to nothing or past the tick; and the streak exactly when it ran. */
  lemma OperatedMoves(s: Settings, prefix: Prefix, now: int, outcome: Outcome, config: Config)
    requires ValidConfig(config) && Schedulable(s) && NextOf(s, prefix).Some? && NextOf(s, prefix).value <= now
    ensures
      var after, off := Operated(s, prefix, now, outcome, config), prefix == INVEST && !s.investEnabled;
      && (outcome.Busy? && !off <==> NextOf(after, prefix) == NextOf(s, prefix))
      && (outcome.Busy? && !off ==> after == s)
      && (NextOf(after, prefix).None? <==> off)
      && (off || outcome.Busy? || NextOf(after, prefix).value > now)
      && (outcome.Ran? && !off ==> after.failureStreak == if outcome.failed then s.failureStreak + 1 else 0)
      && (!outcome.Ran? || off ==> after.failureStreak == s.failureStreak)
      && after == s.(nextInvest := after.nextInvest, nextRebalance := after.nextRebalance,
                     failureStreak := after.failureStreak)
      && (if prefix == INVEST then after.nextRebalance == s.nextRebalance else after.nextInvest == s.nextInvest)
  {
    hide NextSlot;
    NextSlotIsFirst(if prefix == INVEST then s.invest else s.rebalance, s.hash, now, config);
  }

  datatype Outcomes = Outcomes(invest: Outcome, rebalance: Outcome)

  /** The settings after a user's turn: the investment first. */
  function Served(s: Settings, now: int, outcomes: Outcomes, config: Config): Settings
    requires ValidConfig(config) && Schedulable(s)
  {
    var invested := if InvestDue(s, now) then Operated(s, INVEST, now, outcomes.invest, config) else s;
    if RebalanceDue(s, now) then Operated(invested, REBALANCE, now, outcomes.rebalance, config) else invested
  }

  /** The outcome an operation counts towards the failure streak, if it ran. */
  function OperatedOutcome(s: Settings, prefix: Prefix, outcome: Outcome): seq<bool> {
    if (prefix == INVEST ==> s.investEnabled) && outcome.Ran? then [outcome.failed] else []
  }

  /** The outcomes a user's turn counts, in turn. */
  function ServedOutcomes(s: Settings, now: int, outcomes: Outcomes): seq<bool> {
    (if InvestDue(s, now) then OperatedOutcome(s, INVEST, outcomes.invest) else [])
    + (if RebalanceDue(s, now) then OperatedOutcome(s, REBALANCE, outcomes.rebalance) else [])
  }

  /** With both due and run, the investment counts first: the streak is the rebalance's word on top of it. */
  lemma InvestmentCountsFirst(s: Settings, now: int, outcomes: Outcomes, config: Config)
    requires ValidConfig(config) && Schedulable(s) && s.investEnabled && InvestDue(s, now) && RebalanceDue(s, now)
    requires outcomes.invest.Ran? && outcomes.rebalance.Ran?
    ensures Served(s, now, outcomes, config).failureStreak ==
      if !outcomes.rebalance.failed then 0 else if !outcomes.invest.failed then 1 else s.failureStreak + 2
    ensures ServedOutcomes(s, now, outcomes) == [outcomes.invest.failed, outcomes.rebalance.failed]
  {
    hide NextRun, Usable;
  }

  /** Every outcome counted of a user, true a failure, and the lines logged of them. */
  datatype UserLog = UserLog(outcomes: seq<bool>, warnings: nat, recoveries: nat)
  type Logs = map<UserId, UserLog>

  /** What was logged is what the outcomes call for, and the stored streak is theirs. */
  ghost predicate IsTrue(log: UserLog, streak: nat, threshold: nat) {
    CountAll(log.outcomes, threshold) == Log(streak, log.warnings, log.recoveries)
  }

  ghost predicate LogsTrue(users: Users, logs: Logs, threshold: nat) {
    logs.Keys == users.Keys && forall u :: u in users ==> IsTrue(logs[u], users[u].failureStreak, threshold)
  }

  /** Only the user's log grows, by these outcomes. */
  ghost predicate Extended(before: Logs, after: Logs, u: UserId, more: seq<bool>) {
    if u in before then u in after && after == before[u := after[u]] && after[u].outcomes == before[u].outcomes + more
    else after == before
  }

  ghost predicate Grew(before: Logs, after: Logs, u: UserId, more: seq<bool>) {
    u in before && u in after && after[u].outcomes == before[u].outcomes + more
  }

  lemma NotExtended(logs: Logs, u: UserId)
    ensures Extended(logs, logs, u, [])
  {
    if u in logs { assert logs[u].outcomes + [] == logs[u].outcomes; }
  }

  lemma ExtendedTwice(before: Logs, between: Logs, after: Logs, u: UserId, first: seq<bool>, second: seq<bool>)
    requires Extended(before, between, u, first) && Extended(between, after, u, second)
    ensures Extended(before, after, u, first + second)
  {
    if u in before {
      assert before[u].outcomes + first + second == before[u].outcomes + (first + second);
    }
  }

  /** One more outcome of a user, with the lines it calls for. */
  lemma OneMoreOutcome(log: UserLog, streak: nat, failed: bool, threshold: nat)
    requires IsTrue(log, streak, threshold)
    ensures
      var last := Count(streak, failed, threshold);
      IsTrue(
        UserLog(log.outcomes + [failed], log.warnings + (if last.warned then 1 else 0),
          log.recoveries + (if last.recovered then 1 else 0)),
        last.streak, threshold)
  {
    assert (log.outcomes + [failed])[..|log.outcomes|] == log.outcomes;
  }

  predicate AllSchedulable(users: Users) {
    forall u :: u in users ==> Schedulable(users[u])
  }

  ghost function Ticked(users: Users, now: int, batch: seq<UserId>, outcomes: UserId -> Outcomes, config: Config): Users
    requires ValidConfig(config) && AllSchedulable(users)
  {
    map u | u in users :: if u in batch then Served(users[u], now, outcomes(u), config) else users[u]
  }

  class Ticker {
    const config: Config
    var users: Users
    ghost var logs: Logs

    /** `logs` are the outcomes the stored streaks come from. */
    constructor (config: Config, users: Users, ghost logs: Logs)
      requires ValidConfig(config) && AllSchedulable(users) && LogsTrue(users, logs, config.alertStreak)
      ensures Valid() && this.config == config && this.users == users && this.logs == logs
    {
      this.config, this.users, this.logs := config, users, logs;
    }

    ghost predicate Valid()
      reads this
    {
      ValidConfig(config) && AllSchedulable(users) && LogsTrue(users, logs, config.alertStreak)
    }

    /** Over any ticks: one warning of a user for each maximal stretch of failures that reached the threshold,
        and one recovery after each warning but the last, which is open while the stretch lasts. */
    lemma AlertsFollowTheOutcomes(u: UserId)
      requires Valid() && u in users
      ensures logs[u].warnings == |Stretches(logs[u].outcomes, config.alertStreak)|
      ensures logs[u].warnings == logs[u].recoveries + if users[u].failureStreak >= config.alertStreak then 1 else 0
    {
      OneWarningPerStretch(logs[u].outcomes, config.alertStreak);
      WarningsThenRecoveries(logs[u].outcomes, config.alertStreak);
    }

    /** Start-up: every row gets the next runs it lacks, and no other row changes. */
    method Backfill(now: int) returns (filled: nat)
      requires Valid()
      modifies `users
      ensures Valid() && users.Keys == old(users).Keys
      ensures forall u :: u in users ==> users[u] == Filled(old(users)[u], now, config)
      ensures filled == |set u | u in old(users) && LacksRun(old(users)[u])|
      ensures forall u :: u in users ==> !LacksRun(users[u])
    {
      hide NextSlot, IsTrue, Usable;
      var rest := set u | u in users && LacksRun(users[u]);
      filled := 0;
      ghost var all := rest;
      while rest != {}
        invariant Valid() && users.Keys == old(users).Keys && rest <= all
        invariant filled + |rest| == |all|
        invariant forall u :: u in users ==>
          users[u] == if u in all && u !in rest then Filled(old(users)[u], now, config) else old(users)[u]
        decreases rest
      {
        var u :| u in rest;
        var s := users[u];
        var rebalance := if s.nextRebalance.None? then NextRun(s, REBALANCE, now, config) else s.nextRebalance;
        var invest := if s.investEnabled && s.nextInvest.None? then NextRun(s, INVEST, now, config) else s.nextInvest;
        users := users[u := s.(nextRebalance := rebalance, nextInvest := invest)];
        rest := rest - {u};
        filled := filled + 1;
      }
    }

    /** One next run of one user becomes `NextRun` at the tick, whatever slots went by before it. */
    method Advance(u: UserId, prefix: Prefix, now: int)
      requires Valid()
      modifies `users
      ensures Valid()
      ensures users == if u in old(users)
        then old(users)[u := WithNext(old(users)[u], prefix, NextRun(old(users)[u], prefix, now, config))]
        else old(users)
    {
      hide IsTrue, NextRun;
      if u !in users {
        return;
      }
      users := users[u := WithNext(users[u], prefix, NextRun(users[u], prefix, now, config))];
    }

    /** One outcome counted: a line when the streak reaches the threshold, and when it ends past it. */
    method CountOutcome(u: UserId, failed: bool)
      requires Valid()
      modifies `users, `logs
      ensures Valid() && Extended(old(logs), logs, u, [failed])
      ensures users == if u in old(users)
        then
          var s := old(users)[u];
          old(users)[u := s.(failureStreak := Count(s.failureStreak, failed, config.alertStreak).streak)]
        else old(users)
    {
      hide CountAll, IsTrue, Usable;
      if u !in users {
        return;
      }
      var before := users[u].failureStreak;
      var after := if failed then before + 1 else 0;
      ghost var log := logs[u].(outcomes := logs[u].outcomes + [failed]);
      OneMoreOutcome(logs[u], before, failed, config.alertStreak);
      users := users[u := users[u].(failureStreak := after)];
      if failed && after == config.alertStreak {
        log := log.(warnings := log.warnings + 1);
      }
      if !failed && before >= config.alertStreak {
        log := log.(recoveries := log.recoveries + 1);
      }
      logs := logs[u := log];
    }

    /** One operation of a user's turn, run or not; its outcome is counted if it ran. */
    method Operate(u: UserId, prefix: Prefix, now: int, outcome: Outcome)
      requires Valid()
      modifies this
      ensures Valid()
      ensures users == if u in old(users)
        then old(users)[u := Operated(old(users)[u], prefix, now, outcome, config)] else old(users)
      ensures u in old(users) ==> Extended(old(logs), logs, u, OperatedOutcome(old(users)[u], prefix, outcome))
      ensures u !in old(users) ==> logs == old(logs)
    {
      hide NextRun, Count, LogsTrue, Extended, Schedulable;
      NotExtended(logs, u);
      if u !in users {
        return;
      }
      if prefix == INVEST && !users[u].investEnabled {
        Advance(u, prefix, now);
        return;
      }
      match outcome
      case Busy =>
        assert users == users[u := users[u]];
      case NotReady =>
        Advance(u, prefix, now);
      case Ran(failed) =>
        Advance(u, prefix, now);
        CountOutcome(u, failed);
    }

    method Guarded(u: UserId, investDue: bool, rebalanceDue: bool, now: int, outcomes: Outcomes)
      requires Valid()
      requires u in users ==> investDue == InvestDue(users[u], now) && rebalanceDue == RebalanceDue(users[u], now)
      modifies this
      ensures Valid()
      ensures users == if u in old(users) then old(users)[u := Served(old(users)[u], now, outcomes, config)]
        else old(users)
      ensures u in old(users) ==> Extended(old(logs), logs, u, ServedOutcomes(old(users)[u], now, outcomes))
      ensures u !in old(users) ==> logs == old(logs)
    {
      hide NextRun, Count, InvestDue, RebalanceDue, LogsTrue, Extended;
      NotExtended(logs, u);
      ghost var start, first, second := logs, [], [];
      if investDue {
        if u in users { first := OperatedOutcome(users[u], INVEST, outcomes.invest); }
        Operate(u, INVEST, now, outcomes.invest);
      }
      ghost var between := logs;
      NotExtended(between, u);
      if rebalanceDue {
        if u in users { second := OperatedOutcome(users[u], REBALANCE, outcomes.rebalance); }
        Operate(u, REBALANCE, now, outcomes.rebalance);
      }
      assert u in old(users) && !investDue && !rebalanceDue ==> users == users[u := users[u]];
      if u in old(users) {
        ExtendedTwice(start, between, logs, u, first, second);
      }
    }

    /** The users named are served in turn: each row and log moves by its own user's turn, and no other does. */
    method Each(batch: seq<UserId>, now: int, outcomes: UserId -> Outcomes)
      requires Valid() && NoRepeats(batch) && forall u :: u in batch ==> u in users
      modifies this
      ensures Valid() && users.Keys == old(users).Keys
      ensures forall u :: u in users ==>
        users[u] == if u in batch then Served(old(users)[u], now, outcomes(u), config) else old(users)[u]
      ensures forall u :: u in users ==>
        Grew(old(logs), logs, u, if u in batch then ServedOutcomes(old(users)[u], now, outcomes(u)) else [])
    {
      hide Served, ServedOutcomes, InvestDue, RebalanceDue, Schedulable, IsTrue;
      for i := 0 to |batch|
        invariant Valid() && users.Keys == old(users).Keys
        invariant forall u :: u in users ==>
          users[u] == if u in batch[..i] then Served(old(users)[u], now, outcomes(u), config) else old(users)[u]
        invariant forall u :: u in users ==>
          Grew(old(logs), logs, u, if u in batch[..i] then ServedOutcomes(old(users)[u], now, outcomes(u)) else [])
      {
        assert batch[i] !in batch[..i] && batch[i] in batch;
        assert batch[..i + 1] == batch[..i] + [batch[i]];
        var s := users[batch[i]];
        Guarded(batch[i], InvestDue(s, now), RebalanceDue(s, now), now, outcomes(batch[i]));
      }
      assert batch[..|batch|] == batch;
    }

    /** One tick: the query's batch is served, each user of it once, and nobody else's row or log changes. */
    method Tick(now: int, outcomes: UserId -> Outcomes) returns (batch: seq<UserId>)
      requires Valid()
      modifies this
      ensures Valid() && IsBatch(old(users), now, config.batch, batch)
      ensures users == Ticked(old(users), now, batch, outcomes, config)
      ensures forall u :: u in users ==>
        Grew(old(logs), logs, u, if u in batch then ServedOutcomes(old(users)[u], now, outcomes(u)) else [])
    {
      hide Served, ServedOutcomes, IsDue, KeyOf, NoRepeats, LogsTrue, Schedulable;
      batch := DueUsers(users, now, config.batch);
      assert forall u :: u in batch ==> u in Due(users, now);
      Each(batch, now, outcomes);
    }
  }
}
