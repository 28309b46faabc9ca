/** How long a due user waits, and how often one operation runs (core/scheduler.py, core/schedule.py). */
module Waiting {
  import opened Sequences
  import opened Cadence
  import opened Scheduler

  predicate Quiet(outcomes: Outcomes) {
    !outcomes.invest.Busy? && !outcomes.rebalance.Busy?
  }

  // ----- Nothing is ever moved ahead of a user already due ----------------------------------------

  lemma NextRunIsLater(s: Settings, prefix: Prefix, now: int, config: Config)
    requires ValidConfig(config) && Schedulable(s)
    ensures NextRun(s, prefix, now, config).Some? ==> NextRun(s, prefix, now, config).value > now
  {
    hide NextSlot;
    NextSlotIsFirst(if prefix == INVEST then s.invest else s.rebalance, s.hash, now, config);
  }

  /** A user served without meeting a request of theirs is next due after the tick. */
  lemma ServedIsLater(s: Settings, now: int, outcomes: Outcomes, config: Config)
    requires ValidConfig(config) && Schedulable(s) && now < FAR_FUTURE && Quiet(outcomes)
    ensures Key(Served(s, now, outcomes, config)) > now
  {
    hide NextRun, Schedulable;
    var invested := if InvestDue(s, now) then Operated(s, INVEST, now, outcomes.invest, config) else s;
    NextRunIsLater(s, INVEST, now, config);
    NextRunIgnores(s, invested, REBALANCE, now, config);
    NextRunIsLater(invested, REBALANCE, now, config);
  }

  /** What another user's row may become between two ticks without passing anyone due at `now`. */
  ghost predicate NotAdvanced(s: Settings, t: Settings, now: int) {
    t.paused || Key(t) > now || (!s.paused && Key(s) <= Key(t))
  }

  /** A request reschedules nothing to before the tick, and lifting a pause catches nothing up. */
  lemma ChangedIsNotAdvanced(s: Settings, patch: Patch, now: int, at: int, config: Config)
    requires ValidConfig(config) && Schedulable(Patched(s, patch)) && now <= at && now < FAR_FUTURE
    ensures NotAdvanced(s, Changed(s, patch, at, config), now)
  {
    hide NextRun, Schedulable;
    NextRunIsLater(Patched(s, patch), INVEST, at, config);
    NextRunIsLater(Patched(s, patch), REBALANCE, at, config);
  }

  lemma FilledIsNotAdvanced(s: Settings, now: int, at: int, config: Config)
    requires ValidConfig(config) && Schedulable(s) && now <= at && now < FAR_FUTURE
    ensures NotAdvanced(s, Filled(s, at, config), now)
  {
    hide NextRun, Schedulable;
    NextRunIsLater(s, INVEST, at, config);
    NextRunIsLater(s, REBALANCE, at, config);
  }

  // ----- Bounded waiting -----------------------------------------------------------------------

  /** One tick, and the settings as the next one finds them. */
  datatype Round = Round(now: int, batch: seq<UserId>, outcomes: UserId -> Outcomes, later: Users)

  /** The tick chose by the query, met no request under way, and afterwards no row moved ahead. A row that
      is new in `later` starts after the tick. */
  ghost predicate Passes(users: Users, round: Round, config: Config)
    requires ValidConfig(config)
  {
    && AllSchedulable(users) && AllSchedulable(round.later)
    && round.now < FAR_FUTURE
    && IsBatch(users, round.now, config.batch, round.batch)
    && (forall u :: u in round.batch ==> Quiet(round.outcomes(u)))
    && var ticked := Ticked(users, round.now, round.batch, round.outcomes, config);
       forall v :: v in round.later ==>
         if v in ticked then NotAdvanced(ticked[v], round.later[v], round.now)
         else round.later[v].paused || Key(round.later[v]) > round.now
  }

  /** The rounds a user due at `since` lives through until served, their own row untouched. */
  ghost predicate Waits(users: Users, u: UserId, since: int, rounds: seq<Round>, config: Config)
    requires ValidConfig(config)
    decreases |rounds|
  {
    rounds == [] || (
      var round := rounds[0];
      && u in users && round.now >= since && Passes(users, round, config)
      && (u !in round.batch ==>
        u in round.later && round.later[u] == users[u] && Waits(round.later, u, round.now, rounds[1..], config)))
  }

  /** The other users at least as overdue. */
  ghost function Ahead(users: Users, u: UserId): set<UserId> {
    set v | v in users && v != u && !users[v].paused && KeyOf(users, v) <= KeyOf(users, u)
  }

  function Listed(ids: seq<UserId>): set<UserId> {
    set u | u in ids
  }

  lemma {:induction false} AsManyAsListed(ids: seq<UserId>)
    requires NoRepeats(ids)
    ensures |Listed(ids)| == |ids|
  {
    if ids != [] {
      var front, last := ids[..|ids| - 1], ids[|ids| - 1];
      AsManyAsListed(front);
      assert last !in front;
      assert Listed(ids) == Listed(front) + {last};
    }
  }

  /** A tick that passes a due user over serves a whole batch of the users ahead, and puts none there. */
  lemma OneRoundFewer(users: Users, u: UserId, round: Round, config: Config)
    requires ValidConfig(config) && Passes(users, round, config)
    requires u in users && IsDue(users[u], round.now) && u !in round.batch
    requires u in round.later && round.later[u] == users[u]
    ensures |Ahead(round.later, u)| + config.batch <= |Ahead(users, u)|
  {
    hide Served, Schedulable, Key, NoRepeats;
    var served := Listed(round.batch);
    AsManyAsListed(round.batch);
    assert u in Due(users, round.now);
    assert |round.batch| == config.batch;
    assert KeyOf(users, u) <= round.now by { DueKey(users[u], round.now); }
    forall v | v in served ensures v in Ahead(users, u) {
      assert v in Due(users, round.now);
    }
    forall v | v in Ahead(round.later, u) ensures v in Ahead(users, u) && v !in served {
      if v in served {
        ServedIsLater(users[v], round.now, round.outcomes(v), config);
      }
    }
    assert Ahead(round.later, u) !! served;
    Subset(Ahead(round.later, u) + served, Ahead(users, u));
  }

  lemma DueKey(s: Settings, now: int)
    requires IsDue(s, now)
    ensures Key(s) <= now
  {
  }

  lemma {:induction false} Subset<T>(a: set<T>, b: set<T>)
    requires a <= b
    ensures |a| <= |b|
    decreases a
  {
    if a != {} {
      var x :| x in a;
      Subset(a - {x}, b - {x});
    }
  }

  lemma StillDue(s: Settings, since: int, now: int)
    requires IsDue(s, since) && since <= now
    ensures IsDue(s, now)
  {
  }

  /** The whole batches in `r` users. */
  function Batches(r: nat, config: Config): nat
    requires ValidConfig(config)
  {
    r / config.batch
  }

  lemma FewerBatches(a: nat, b: nat, config: Config)
    requires ValidConfig(config) && a + config.batch <= b
    ensures Batches(a, config) + 1 <= Batches(b, config)
  {
    var batch := config.batch;
    var p, q := a / batch, b / batch;
    assert a == p * batch + a % batch && b == q * batch + b % batch;
    Multiples(q, p, batch);
  }

  /** With r users at least as overdue, a due user is served within r / batch + 1 ticks. */
  lemma {:induction false} ServedWithin(users: Users, u: UserId, since: int, rounds: seq<Round>, config: Config)
    returns (i: nat)
    requires ValidConfig(config) && u in users && IsDue(users[u], since)
    requires Waits(users, u, since, rounds, config)
    requires |rounds| > Batches(|Ahead(users, u)|, config)
    ensures i <= Batches(|Ahead(users, u)|, config) && u in rounds[i].batch
    decreases |rounds|
  {
    hide Passes, Ahead, IsDue, AllSchedulable, ValidConfig, Batches;
    var round := rounds[0];
    StillDue(users[u], since, round.now);
    if u in round.batch {
      i := 0;
    } else {
      OneRoundFewer(users, u, round, config);
      FewerBatches(|Ahead(round.later, u)|, |Ahead(users, u)|, config);
      i := ServedWithin(round.later, u, round.now, rounds[1..], config);
      i := i + 1;
    }
  }

  // ----- One evaluation per slot ----------------------------------------------------------------

  /** A tick that reached the user. */
  datatype Visit = Visit(now: int, outcomes: Outcomes)

  /** The settings after every visit in turn. */
  function After(s: Settings, visits: seq<Visit>, config: Config): (t: Settings)
    requires ValidConfig(config) && Schedulable(s)
    ensures t == s.(nextInvest := t.nextInvest, nextRebalance := t.nextRebalance, failureStreak := t.failureStreak)
    decreases |visits|
  {
    if visits == [] then s
    else
      var last := visits[|visits| - 1];
      Served(After(s, visits[..|visits| - 1], config), last.now, last.outcomes, config)
  }

  predicate IsRunDue(s: Settings, prefix: Prefix, now: int) {
    NextOf(s, prefix).Some? && NextOf(s, prefix).value <= now
  }

  /** Whether a visit runs the operation: due, wanted, and neither in the way of a request nor unready. */
  predicate Runs(s: Settings, prefix: Prefix, visit: Visit) {
    && IsRunDue(s, prefix, visit.now)
    && (prefix == INVEST ==> s.investEnabled)
    && (if prefix == INVEST then visit.outcomes.invest else visit.outcomes.rebalance).Ran?
  }

  /** An evaluation that ran, and the next run that called for it. */
  datatype Evaluation = Evaluation(slot: int, now: int)

  function Evaluations(s: Settings, prefix: Prefix, visits: seq<Visit>, config: Config): seq<Evaluation>
    requires ValidConfig(config) && Schedulable(s)
    decreases |visits|
  {
    if visits == [] then []
    else
      var before := visits[..|visits| - 1];
      var last := visits[|visits| - 1];
      var at := After(s, before, config);
      Evaluations(s, prefix, before, config) + if Runs(at, prefix, last)
        then [Evaluation(NextOf(at, prefix).value, last.now)] else []
  }

  ghost predicate IsRunSlot(s: Settings, prefix: Prefix, t: int, config: Config)
    requires ValidConfig(config) && Schedulable(s)
  {
    IsSlotOf(if prefix == INVEST then s.invest else s.rebalance, s.hash, config, t)
  }

  /** What a visit leaves: the next run unmoved, or the first slot after the visit. */
  lemma VisitMoves(s: Settings, prefix: Prefix, visit: Visit, config: Config)
    requires ValidConfig(config) && Schedulable(s)
    ensures
      var next := NextOf(Served(s, visit.now, visit.outcomes, config), prefix);
      && (next == NextOf(s, prefix) || (IsRunDue(s, prefix, visit.now) && (next.Some? ==>
           next.value > visit.now && IsRunSlot(s, prefix, next.value, config))))
      && (Runs(s, prefix, visit) ==> next.None? || next.value > visit.now)
  {
    hide NextSlot, Usable, IsSlotOf;
    NextSlotIsFirst(s.invest, s.hash, visit.now, config);
    NextSlotIsFirst(s.rebalance, s.hash, visit.now, config);
  }

  ghost predicate Spaced(s: Settings, prefix: Prefix, done: seq<Evaluation>, config: Config)
    requires ValidConfig(config) && Schedulable(s)
  {
    && (forall i :: 0 <= i < |done| ==> IsRunSlot(s, prefix, done[i].slot, config) && done[i].slot <= done[i].now)
    && (forall i, j :: 0 <= i < j < |done| ==> done[i].now < done[j].slot)
  }

  /** However ticks fall and whatever is missed, an operation runs once for a slot: each evaluation takes a
      slot of its own, later than the evaluation before it. So between two evaluations lies a slot. */
  lemma {:induction false} OneEvaluationPerSlot(s: Settings, prefix: Prefix, visits: seq<Visit>, config: Config)
    requires ValidConfig(config) && Schedulable(s)
    requires NextOf(s, prefix).Some? ==> IsRunSlot(s, prefix, NextOf(s, prefix).value, config)
    ensures
      var done := Evaluations(s, prefix, visits, config);
      var next := NextOf(After(s, visits, config), prefix);
      && Spaced(s, prefix, done, config)
      && (next.Some? ==> IsRunSlot(s, prefix, next.value, config))
      && (next.Some? ==> forall i :: 0 <= i < |done| ==> done[i].now < next.value)
    decreases |visits|
  {
    hide Served, Usable, IsSlotOf;
    if visits != [] {
      var before := visits[..|visits| - 1];
      OneEvaluationPerSlot(s, prefix, before, config);
      VisitMoves(After(s, before, config), prefix, visits[|visits| - 1], config);
    }
  }
}
