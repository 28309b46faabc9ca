/** The proposal slot (core/rebalance.py, core/proposal_plan.py, core/db/proposals.py).

    Each `with context.sessions()` block is one atomic step; steps of different requests may come in
    any order. The last write of an approval is a step of its own: it runs after the evaluation
    released the user lock. */
module Proposals {
  import opened Wrappers
  import opened Sums
  import opened Reconcile
  import opened Planning

  // ----- The plan as it is stored ----------------------------------------------------

  /** A leg of the document. A noted leg is shown and not sent. */
  datatype DocLeg = DocLeg(asset: Asset, side: Side, amount: real, minimum: Option<real>, noted: bool)
  type Document = seq<DocLeg>
  type Key = (Asset, Side)

  function PlanDocument(legs: seq<PlannedLeg>): Document {
    seq(|legs|, i requires 0 <= i < |legs| =>
      DocLeg(legs[i].asset, legs[i].side, legs[i].amount, legs[i].minimum, legs[i].skipped))
  }

  /** The legs that would be sent, by asset and side. */
  function ToSend(document: Document): map<Key, DocLeg> {
    if document == [] then map[]
    else
      var last := document[|document| - 1];
      var before := ToSend(document[..|document| - 1]);
      if last.noted then before else before[(last.asset, last.side) := last]
  }

  predicate HasOrders(document: Document) {
    ToSend(document) != map[]
  }

  /** A leg that would be sent has a minimum: only one Kraken does not trade lacks it, and that one
      carries a note. */
  predicate Priced(document: Document) {
    forall key :: key in ToSend(document) ==> ToSend(document)[key].minimum.Some?
  }

  predicate IsMaterial(read: Document, today: Document)
    requires Priced(today)
  {
    var before, after := ToSend(read), ToSend(today);
    before.Keys != after.Keys
    || exists key :: key in after && Abs(after[key].amount - before[key].amount) > after[key].minimum.value
  }

  /** What an approval relies on: the same legs, each within its own minimum of what was read. */
  ghost predicate Follows(read: Document, executed: Document) {
    && ToSend(read).Keys == ToSend(executed).Keys
    && forall key :: key in ToSend(executed) ==>
         ToSend(executed)[key].minimum.Some?
         && Abs(ToSend(executed)[key].amount - ToSend(read)[key].amount) <= ToSend(executed)[key].minimum.value
  }

  /** A plan stands for the one read exactly when it is no material change. */
  lemma MaterialExactlyWhen(read: Document, today: Document)
    requires Priced(today)
    ensures IsMaterial(read, today) <==> !Follows(read, today)
  {
    hide ToSend;
  }

  lemma {:induction false} ToSendOf(document: Document)
    ensures forall key :: key in ToSend(document) ==> ToSend(document)[key] in document && !ToSend(document)[key].noted
  {
    if document != [] {
      ToSendOf(document[..|document| - 1]);
      assert document == document[..|document| - 1] + [document[|document| - 1]];
    }
  }

  lemma {:induction false} HasOrdersExactlyWhen(document: Document)
    ensures HasOrders(document) <==> exists i :: 0 <= i < |document| && !document[i].noted
  {
    if document != [] {
      var last := |document| - 1;
      HasOrdersExactlyWhen(document[..last]);
      if document[last].noted {
        assert forall i :: 0 <= i < last ==> document[..last][i] == document[i];
      } else {
        assert (document[last].asset, document[last].side) in ToSend(document);
      }
    }
  }

  /** Every plan the planner sizes makes a document whose orders are priced. */
  lemma PlansArePriced(legs: seq<Leg>, planned: seq<PlannedLeg>, account: Account)
    requires |planned| == |legs| && forall i :: 0 <= i < |legs| ==> Sized(legs[i], planned[i], account)
    ensures Priced(PlanDocument(planned))
  {
    var document := PlanDocument(planned);
    ToSendOf(document);
    forall key | key in ToSend(document) ensures ToSend(document)[key].minimum.Some? {
      var i :| 0 <= i < |document| && document[i] == ToSend(document)[key];
      assert Sized(legs[i], planned[i], account);
    }
  }

  // ----- The slot --------------------------------------------------------------------

  datatype Status = LIVE | EXECUTING | EXECUTED | WITHDRAWN
  datatype Trigger = MANUAL | SCHEDULED
  datatype Slot = Slot(version: nat, status: Status, trigger: Trigger, plan: Document)

  predicate IsLive(slot: Option<Slot>) {
    slot.Some? && slot.value.status == LIVE
  }

  function WithStatus(slot: Option<Slot>, status: Status): Option<Slot> {
    if slot.None? then None else Some(slot.value.(status := status))
  }

  /** `_keep`: the document becomes the live proposal, or leaves it standing, or withdraws it. */
  function Keep(slot: Option<Slot>, document: Document, trigger: Trigger): Option<Slot>
    requires Priced(document)
  {
    if !HasOrders(document) then (if IsLive(slot) then WithStatus(slot, WITHDRAWN) else slot)
    else if IsLive(slot) && !IsMaterial(slot.value.plan, document) then slot
    else Some(Slot(if slot.None? then 1 else slot.value.version + 1, LIVE, trigger, document))
  }

  datatype Step =
    | Propose(document: Document, trigger: Trigger)
    | Withdraw(version: nat)
    | Decide(version: nat, document: Document)   // an approval, under the lock
    | Rebalance(allowed: bool)                   // the automatic one, under the lock
    | Finish                                     // the last write of an approval that executed
    | Perish                                     // the process of such an approval dies before it

  datatype Order = Order(version: nat, document: Document)

  /** The slot, with its history: what was first published under each version, what was sent under
      which version, and how many approvals still have their last write to make. */
  datatype Desk = Desk(slot: Option<Slot>, published: map<nat, Document>, sent: seq<Order>, finishing: nat)

  const Empty: Desk := Desk(None, map[], [], 0)

  predicate CanTake(d: Desk, step: Step) {
    match step
    case Propose(document, trigger) => Priced(document)
    case Decide(version, document) => Priced(document)
    case Finish => d.finishing > 0
    case Perish => d.finishing > 0
    case _ => true
  }

  function Kept(d: Desk, document: Document, trigger: Trigger): Desk
    requires Priced(document)
  {
    var slot := Keep(d.slot, document, trigger);
    d.(slot := slot,
       published := if slot.Some? && (d.slot.None? || slot.value.version != d.slot.value.version)
                    then d.published[slot.value.version := slot.value.plan] else d.published)
  }

  function Take(d: Desk, step: Step): Desk
    requires CanTake(d, step)
  {
    match step
    case Propose(document, trigger) => Kept(d, document, trigger)
    case Withdraw(version) =>
      if IsLive(d.slot) && d.slot.value.version == version then d.(slot := WithStatus(d.slot, WITHDRAWN)) else d
    case Decide(version, document) =>
      if !IsLive(d.slot) || d.slot.value.version != version then d
      else if !HasOrders(document) || IsMaterial(d.slot.value.plan, document)
        then Kept(d, document, d.slot.value.trigger)
      else
        d.(slot := Some(Slot(version, EXECUTING, d.slot.value.trigger, document)),
           sent := d.sent + [Order(version, document)],
           finishing := d.finishing + 1)
    case Rebalance(allowed) => if allowed && IsLive(d.slot) then d.(slot := WithStatus(d.slot, WITHDRAWN)) else d
    case Finish => d.(slot := WithStatus(d.slot, EXECUTED), finishing := d.finishing - 1)
    case Perish => d.(finishing := d.finishing - 1)
  }

  // ----- The operations ---------------------------------------------------------------

  datatype Outcome<+T> = Answer(value: T) | NoProposal | StaleVersion(current: Slot)
  datatype Verdict = Send | PROPOSED | NOTHING_TO_DO | SUPERSEDED

  class ProposalDesk {
    var slot: Option<Slot>
    ghost var published: map<nat, Document>
    ghost var sent: seq<Order>
    ghost var finishing: nat

    ghost function State(): Desk
      reads this
    {
      Desk(slot, published, sent, finishing)
    }

    constructor ()
      ensures State() == Empty
    {
      slot, published, sent, finishing := None, map[], [], 0;
    }

    ghost method Note(next: Desk)
      modifies `published, `sent, `finishing
      ensures published == next.published && sent == next.sent && finishing == next.finishing
    {
      published, sent, finishing := next.published, next.sent, next.finishing;
    }

    method SaveProposal(plan: Document, trigger: Trigger, version: nat)
      modifies `slot
      ensures slot == Some(Slot(version, LIVE, trigger, plan))
    {
      slot := Some(Slot(version, LIVE, trigger, plan));
    }

    method SetStatus(status: Status)
      modifies `slot
      ensures slot == WithStatus(old(slot), status)
    {
      if slot.Some? {
        slot := Some(slot.value.(status := status));
      }
    }

    method KeepDocument(document: Document, trigger: Trigger)
      requires Priced(document)
      modifies `slot
      ensures slot == Keep(old(slot), document, trigger)
    {
      var live := IsLive(slot);
      if !HasOrders(document) {
        if live {
          SetStatus(WITHDRAWN);
        }
        return;
      }
      if live && !IsMaterial(slot.value.plan, document) {
        return;
      }
      SaveProposal(document, trigger, if slot.None? then 1 else slot.value.version + 1);
    }

    /** The user withdraws the version they read. The check and the write share the slot's row lock. */
    method WithdrawVersion(version: nat) returns (r: Outcome<bool>)
      modifies this
      ensures State() == Take(old(State()), Withdraw(version))
      ensures r == if !IsLive(old(slot)) then Answer(false)
        else if old(slot).value.version != version then StaleVersion(old(slot).value) else Answer(true)
      ensures slot == if r == Answer(true) then Some(old(slot).value.(status := WITHDRAWN)) else old(slot)
      ensures r == Answer(true) ==> old(slot).Some? && old(slot).value.version == version
    {
      if !IsLive(slot) {
        return Answer(false);
      }
      if slot.value.version != version {
        return StaleVersion(slot.value);
      }
      SetStatus(WITHDRAWN);
      return Answer(true);
    }

    /** The decision of `propose`: nothing is ever sent. */
    method DecideProposal(document: Document, trigger: Trigger) returns (verdict: Verdict)
      requires Priced(document)
      modifies this
      ensures State() == Take(old(State()), Propose(document, trigger))
      ensures verdict == if HasOrders(document) then PROPOSED else NOTHING_TO_DO
      ensures verdict == PROPOSED ==> IsLive(slot)
      ensures verdict == NOTHING_TO_DO ==>
        slot == if IsLive(old(slot)) then Some(old(slot).value.(status := WITHDRAWN)) else old(slot)
    {
      ghost var next := Take(State(), Propose(document, trigger));
      KeepDocument(document, trigger);
      Note(next);
      return if HasOrders(document) then PROPOSED else NOTHING_TO_DO;
    }

    /** The check an approval starts with, before anything is read. */
    method CheckVersion(version: nat) returns (r: Outcome<()>)
      ensures r == if !IsLive(slot) then NoProposal
        else if slot.value.version != version then StaleVersion(slot.value) else Answer(())
    {
      if !IsLive(slot) {
        return NoProposal;
      }
      if slot.value.version != version {
        return StaleVersion(slot.value);
      }
      return Answer(());
    }

    /** The decision of `approve`, under the lock: send today's plan, or keep it as the next version. */
    method DecideApproval(version: nat, document: Document) returns (verdict: Verdict)
      requires Priced(document)
      modifies this
      ensures State() == Take(old(State()), Decide(version, document))
      ensures verdict == Send <==> sent == old(sent) + [Order(version, document)]
      ensures verdict != Send ==> verdict == SUPERSEDED && sent == old(sent)
      ensures verdict == Send <==>
        && IsLive(old(slot)) && old(slot).value.version == version && HasOrders(document)
        && Follows(old(slot).value.plan, document)
      ensures verdict == Send ==> slot == Some(Slot(version, EXECUTING, old(slot).value.trigger, document))
    {
      hide IsMaterial, Follows, HasOrders, Priced;
      ghost var next := Take(State(), Decide(version, document));
      if !IsLive(slot) || slot.value.version != version {
        return SUPERSEDED;
      }
      MaterialExactlyWhen(slot.value.plan, document);
      if !HasOrders(document) {
        KeepDocument(document, slot.value.trigger);
        Note(next);
        return SUPERSEDED;
      }
      if IsMaterial(slot.value.plan, document) {
        KeepDocument(document, slot.value.trigger);
        Note(next);
        return SUPERSEDED;
      }
      SaveProposal(document, slot.value.trigger, version);
      SetStatus(EXECUTING);
      Note(next);
      return Send;
    }

    /** The `finally` of an approval that executed. */
    method FinishApproval()
      requires finishing > 0
      modifies this
      ensures State() == Take(old(State()), Finish)
    {
      SetStatus(EXECUTED);
      finishing := finishing - 1;
    }

    /** The decision of the automatic rebalance: a live proposal is withdrawn before anything is sent. */
    method DecideRebalance(enabled: bool, paused: bool) returns (verdict: Verdict)
      modifies this
      ensures State() == Take(old(State()), Rebalance(enabled && !paused))
      ensures verdict == if enabled && !paused then Send else NOTHING_TO_DO
      ensures slot == if verdict == Send && IsLive(old(slot)) then Some(old(slot).value.(status := WITHDRAWN))
        else old(slot)
    {
      if !enabled || paused {
        return NOTHING_TO_DO;
      }
      if IsLive(slot) {
        SetStatus(WITHDRAWN);
      }
      return Send;
    }
  }

  // ----- Every history ------------------------------------------------------------------

  ghost predicate Inv(d: Desk) {
    && (d.slot.None? ==> d.published == map[] && d.sent == [] && d.finishing == 0)
    && (d.slot.Some? ==> forall v :: v in d.published <==> 1 <= v <= d.slot.value.version)
    && (IsLive(d.slot) ==>
        d.slot.value.version in d.published && d.published[d.slot.value.version] == d.slot.value.plan)
    && (forall i :: 0 <= i < |d.sent| ==>
        d.sent[i].version in d.published && Follows(d.published[d.sent[i].version], d.sent[i].document))
    && (forall i, j :: 0 <= i < j < |d.sent| ==> d.sent[i].version < d.sent[j].version)
    && (d.slot.Some? && (d.slot.value.status == LIVE || d.slot.value.status == WITHDRAWN) ==>
          forall i :: 0 <= i < |d.sent| ==> d.sent[i].version < d.slot.value.version)
    && (d.slot.Some? && d.slot.value.status == EXECUTING ==> WasSent(d, d.slot.value.version))
  }

  ghost predicate WasSent(d: Desk, version: nat) {
    exists i :: 0 <= i < |d.sent| && d.sent[i].version == version
  }

  lemma KeptKeeps(d: Desk, document: Document, trigger: Trigger)
    requires Inv(d) && Priced(document)
    ensures Inv(Kept(d, document, trigger))
  {
    hide HasOrders, IsMaterial, Follows, Priced;
  }

  lemma SendKeeps(d: Desk, version: nat, document: Document)
    requires Inv(d) && Priced(document) && IsLive(d.slot) && d.slot.value.version == version
    requires HasOrders(document) && !IsMaterial(d.slot.value.plan, document)
    ensures Inv(Take(d, Decide(version, document)))
  {
    hide HasOrders, ToSend, Priced;
    assert Follows(d.slot.value.plan, document) by { MaterialExactlyWhen(d.slot.value.plan, document); }
    assert Take(d, Decide(version, document)).sent[|d.sent|].version == version;
  }

  lemma TakeKeeps(d: Desk, step: Step)
    requires Inv(d) && CanTake(d, step)
    ensures Inv(Take(d, step))
  {
    hide HasOrders, ToSend, IsMaterial, Follows, Priced, Keep;
    match step
    case Propose(document, trigger) => KeptKeeps(d, document, trigger);
    case Decide(version, document) =>
      if IsLive(d.slot) && d.slot.value.version == version {
        if !HasOrders(document) || IsMaterial(d.slot.value.plan, document) {
          KeptKeeps(d, document, d.slot.value.trigger);
        } else {
          SendKeeps(d, version, document);
        }
      }
    case _ =>
  }

  function Run(d: Desk, steps: seq<Step>): Option<Desk>
    decreases |steps|
  {
    if steps == [] then Some(d)
    else
      var before := Run(d, steps[..|steps| - 1]);
      if before.Some? && CanTake(before.value, steps[|steps| - 1]) then Some(Take(before.value, steps[|steps| - 1]))
      else None
  }

  lemma {:induction false} RunKeeps(d: Desk, steps: seq<Step>)
    requires Inv(d) && Run(d, steps).Some?
    ensures Inv(Run(d, steps).value)
    decreases |steps|
  {
    if steps != [] {
      RunKeeps(d, steps[..|steps| - 1]);
      TakeKeeps(Run(d, steps[..|steps| - 1]).value, steps[|steps| - 1]);
    }
  }

  /** No creeping approval: however many proposals came between, what was sent under a version has
      the legs first published as that version, each within its minimum of the amount then read. */
  lemma NoCreepingApproval(steps: seq<Step>, i: nat)
    requires Run(Empty, steps).Some? && i < |Run(Empty, steps).value.sent|
    ensures
      var d := Run(Empty, steps).value;
      d.sent[i].version in d.published && Follows(d.published[d.sent[i].version], d.sent[i].document)
  {
    RunKeeps(Empty, steps);
  }

  /** Orders are sent for a version at most once, and later approvals only for higher versions. */
  lemma SentAtMostOnce(steps: seq<Step>, i: nat, j: nat)
    requires Run(Empty, steps).Some? && i < j < |Run(Empty, steps).value.sent|
    ensures Run(Empty, steps).value.sent[i].version < Run(Empty, steps).value.sent[j].version
  {
    RunKeeps(Empty, steps);
  }

  /** A version names one plan for all time, and every new one takes the next number. */
  lemma {:induction false} VersionsAreForever(d: Desk, steps: seq<Step>, v: nat)
    requires Inv(d) && Run(d, steps).Some?
    ensures v in d.published ==>
      v in Run(d, steps).value.published && Run(d, steps).value.published[v] == d.published[v]
    ensures v in Run(d, steps).value.published && v !in d.published ==> forall u :: u in d.published ==> u < v
    decreases |steps|
  {
    hide HasOrders, IsMaterial, Follows, Priced;
    if steps != [] {
      VersionsAreForever(d, steps[..|steps| - 1], v);
      RunKeeps(d, steps[..|steps| - 1]);
      RunKeeps(d, steps);
    }
  }

  /** The document a step would publish, if the slot lets it. */
  function Offered(d: Desk, step: Step): Option<Document> {
    match step
    case Propose(document, trigger) => Some(document)
    case Decide(version, document) =>
      if IsLive(d.slot) && d.slot.value.version == version then Some(document) else None
    case _ => None
  }

  /** A step takes the next number exactly when it offers a plan with orders that does not follow a live one, and
      then that plan is live under it. Any other step leaves the version, and what was published, as they were. */
  lemma NewVersionExactlyWhen(d: Desk, step: Step)
    requires CanTake(d, step)
    ensures
      var after, offered := Take(d, step), Offered(d, step);
      if && offered.Some? && (exists i :: 0 <= i < |offered.value| && !offered.value[i].noted)
         && !(IsLive(d.slot) && Follows(d.slot.value.plan, offered.value))
      then
        && after.slot.Some? && after.slot.value.version == (if d.slot.None? then 1 else d.slot.value.version + 1)
        && IsLive(after.slot) && after.slot.value.plan == offered.value && after.sent == d.sent
        && after.slot.value.trigger == (if step.Propose? then step.trigger else d.slot.value.trigger)
        && after.published == d.published[after.slot.value.version := offered.value]
      else
        && after.slot.Some? == d.slot.Some? && after.published == d.published
        && (d.slot.Some? ==> after.slot.value.version == d.slot.value.version)
        && (IsLive(after.slot) ==> after.slot == d.slot)
  {
    hide HasOrders, IsMaterial, Follows, Priced;
    var offered := Offered(d, step);
    if offered.Some? {
      HasOrdersExactlyWhen(offered.value);
      if IsLive(d.slot) { MaterialExactlyWhen(d.slot.value.plan, offered.value); }
    }
  }

  /** A step that takes back the live version `v`: its withdrawal, a plan with nothing to send, or the automatic
      rebalance. */
  predicate TakesBack(step: Step, v: nat) {
    match step
    case Withdraw(version) => version == v
    case Propose(document, trigger) => forall i :: 0 <= i < |document| ==> document[i].noted
    case Decide(version, document) => version == v && forall i :: 0 <= i < |document| ==> document[i].noted
    case Rebalance(allowed) => allowed
    case _ => false
  }

  /** Version `v` is not live, and never will be again. */
  ghost predicate IsPast(d: Desk, v: nat) {
    d.slot.Some? && v <= d.slot.value.version && (v == d.slot.value.version ==> d.slot.value.status != LIVE)
  }

  ghost predicate NoneSentSince(before: seq<Order>, after: seq<Order>, v: nat) {
    before <= after && forall i :: |before| <= i < |after| ==> after[i].version != v
  }

  lemma PastStep(d: Desk, step: Step, v: nat)
    requires CanTake(d, step) && IsPast(d, v)
    ensures IsPast(Take(d, step), v) && NoneSentSince(d.sent, Take(d, step).sent, v)
  {
    hide HasOrders, IsMaterial, Follows, Priced;
  }

  lemma TakenBack(d: Desk, step: Step, v: nat)
    requires CanTake(d, step) && IsLive(d.slot) && d.slot.value.version == v && TakesBack(step, v)
    ensures Take(d, step).slot == Some(d.slot.value.(status := WITHDRAWN)) && Take(d, step).sent == d.sent
  {
    hide HasOrders, IsMaterial, Priced;
    if step.Propose? || step.Decide? { HasOrdersExactlyWhen(step.document); }
  }

  /** Along a history, a live version taken back is withdrawn, and however it goes on nothing more is sent for it. */
  lemma {:induction false} TakenBackForGood(steps: seq<Step>, k: nat, n: nat, v: nat)
    requires Run(Empty, steps).Some? && k < n <= |steps|
    requires At(steps, k).Some? && IsLive(At(steps, k).value.slot) && At(steps, k).value.slot.value.version == v
    requires TakesBack(steps[k], v)
    ensures At(steps, k + 1).Some? && At(steps, n).Some?
    ensures At(steps, k + 1).value.slot == Some(At(steps, k).value.slot.value.(status := WITHDRAWN))
    ensures IsPast(At(steps, n).value, v) && NoneSentSince(At(steps, k).value.sent, At(steps, n).value.sent, v)
    decreases n
  {
    hide Take, CanTake, Inv, Run, TakesBack;
    RunReaches(steps, k);
    TakenBack(At(steps, k).value, steps[k], v);
    if n > k + 1 {
      TakenBackForGood(steps, k, n - 1, v);
      RunReaches(steps, n - 1);
      PastStep(At(steps, n - 1).value, steps[n - 1], v);
    }
  }

  /** An approval nothing came between ends with its version executed, on the plan it sent. */
  lemma ApprovalEndsExecuted(d: Desk, version: nat, document: Document)
    requires Priced(document) && IsLive(d.slot) && d.slot.value.version == version
    requires Follows(d.slot.value.plan, document) && exists i :: 0 <= i < |document| && !document[i].noted
    ensures
      var after := Run(d, [Decide(version, document), Finish]);
      && after.Some? && after.value.slot == Some(Slot(version, EXECUTED, d.slot.value.trigger, document))
      && after.value.sent == d.sent + [Order(version, document)]
      && after.value.finishing == d.finishing && after.value.published == d.published
  {
    hide ToSend, Run, IsMaterial, HasOrders, Follows, Priced;
    HasOrdersExactlyWhen(document);
    MaterialExactlyWhen(d.slot.value.plan, document);
    RunStep(d, [], Decide(version, document));
    RunStep(d, [Decide(version, document)], Finish);
    assert [] + [Decide(version, document)] == [Decide(version, document)];
    assert [Decide(version, document)] + [Finish] == [Decide(version, document), Finish];
  }

  // ----- What the EXECUTED status is worth ---------------------------------------------------

  /** A last write that finds the slot taken by something its approval did not send: a proposal or a withdrawal. */
  predicate Misplaced(d: Desk, step: Step) {
    step == Finish && d.slot.Some? && d.slot.value.status in {LIVE, WITHDRAWN}
  }

  /** The history as it was before its k-th step. */
  function At(steps: seq<Step>, k: nat): Option<Desk>
    requires k <= |steps|
  {
    Run(Empty, steps[..k])
  }

  ghost predicate TellsTheTruth(d: Desk) {
    d.slot.Some? && d.slot.value.status == EXECUTED ==> WasSent(d, d.slot.value.version)
  }

  lemma {:induction false} RunReaches(steps: seq<Step>, k: nat)
    requires Run(Empty, steps).Some? && k <= |steps|
    ensures At(steps, k).Some? && Inv(At(steps, k).value)
    ensures k < |steps| ==>
      CanTake(At(steps, k).value, steps[k]) && At(steps, k + 1) == Some(Take(At(steps, k).value, steps[k]))
    decreases |steps| - k
  {
    hide Take, CanTake, Inv;
    assert Inv(Empty) by { TruthAtFirst(steps); }
    if k == |steps| {
      assert steps[..k] == steps;
      RunKeeps(Empty, steps);
    } else {
      RunReaches(steps, k + 1);
      assert steps[..k + 1][..k] == steps[..k];
      RunKeeps(Empty, steps[..k]);
    }
  }

  /** A step keeps the truth unless it is a misplaced last write, and such a write always breaks it. */
  lemma StepTellsTheTruth(d: Desk, step: Step)
    requires Inv(d) && CanTake(d, step)
    ensures TellsTheTruth(d) && !Misplaced(d, step) ==> TellsTheTruth(Take(d, step))
    ensures Misplaced(d, step) ==> !TellsTheTruth(Take(d, step))
  {
    hide HasOrders, IsMaterial, Follows, Priced, ToSend;
    var after := Take(d, step);
    if step.Decide? && |after.sent| > |d.sent| { assert after.sent[..|d.sent|] == d.sent; }
    if d.slot.Some? && after.slot.Some? && WasSent(d, d.slot.value.version) && after.sent == d.sent {
      var i :| 0 <= i < |d.sent| && d.sent[i].version == d.slot.value.version;
      assert after.sent[i].version == d.slot.value.version;
    }
  }

  lemma {:induction false} TruthUpTo(steps: seq<Step>, k: nat)
    requires Run(Empty, steps).Some? && k <= |steps|
    requires forall j :: 0 <= j <= |steps| ==> At(steps, j).Some?
    requires forall j :: 0 <= j < k ==> !Misplaced(At(steps, j).value, steps[j])
    ensures TellsTheTruth(At(steps, k).value)
  {
    hide Take, CanTake, Inv, Run, Misplaced, TellsTheTruth;
    if k == 0 {
      TruthAtFirst(steps);
    } else {
      TruthUpTo(steps, k - 1);
      RunReaches(steps, k - 1);
      StepTellsTheTruth(At(steps, k - 1).value, steps[k - 1]);
    }
  }

  lemma TruthAtFirst(steps: seq<Step>)
    ensures At(steps, 0) == Some(Empty) && TellsTheTruth(Empty) && Inv(Empty)
  {
  }

  /** Along a history, a slot that says EXECUTED always names a version that was sent exactly when no last
      write of an approval ever came upon a live or a withdrawn proposal. */
  lemma FinishTellsTheTruthExactlyWhen(steps: seq<Step>)
    requires Run(Empty, steps).Some?
    ensures
      (forall k :: 0 <= k <= |steps| ==> At(steps, k).Some? && TellsTheTruth(At(steps, k).value))
      <==> (forall k :: 0 <= k < |steps| ==> At(steps, k).Some? && !Misplaced(At(steps, k).value, steps[k]))
  {
    hide Take, CanTake, Inv, Run, Misplaced, TellsTheTruth, At;
    forall k | 0 <= k <= |steps| ensures At(steps, k).Some? { RunReaches(steps, k); }
    if k :| 0 <= k < |steps| && Misplaced(At(steps, k).value, steps[k]) {
      RunReaches(steps, k);
      StepTellsTheTruth(At(steps, k).value, steps[k]);
      assert !TellsTheTruth(At(steps, k + 1).value);
    } else {
      forall k | 0 <= k <= |steps| ensures TellsTheTruth(At(steps, k).value) { TruthUpTo(steps, k); }
    }
  }

  /** So EXECUTED may name a version nobody sent: a proposal published before that last write. */
  lemma ExecutedMayNameAnUnsentVersion(leg: DocLeg)
    requires !leg.noted && leg.minimum.Some? && leg.minimum.value >= 0.0
    ensures
      var d := Run(Empty, [Propose([leg], MANUAL), Decide(1, [leg]), Propose([leg], MANUAL), Finish]);
      d.Some? && d.value.slot == Some(Slot(2, EXECUTED, MANUAL, [leg])) && !WasSent(d.value, 2)
  {
    hide Run, ToSend;
    OneLeg(leg);
    var s := [Propose([leg], MANUAL), Decide(1, [leg]), Propose([leg], MANUAL), Finish];
    RunStep(Empty, [], s[0]);
    RunStep(Empty, [s[0]], s[1]);
    RunStep(Empty, [s[0], s[1]], s[2]);
    RunStep(Empty, [s[0], s[1], s[2]], s[3]);
    assert [] + [s[0]] == [s[0]] && [s[0]] + [s[1]] == [s[0], s[1]] && [s[0], s[1]] + [s[2]] == [s[0], s[1], s[2]];
    assert [s[0], s[1], s[2]] + [s[3]] == s;
    assert !IsMaterial([leg], [leg]);
  }

  lemma OneLeg(leg: DocLeg)
    requires !leg.noted
    ensures ToSend([leg]) == map[(leg.asset, leg.side) := leg]
    ensures HasOrders([leg])
  {
    assert [leg][..0] == [];
    assert (leg.asset, leg.side) in ToSend([leg]);
  }

  lemma RunStep(d: Desk, steps: seq<Step>, step: Step)
    ensures Run(d, []) == Some(d)
    ensures Run(d, steps + [step]) ==
      if Run(d, steps).Some? && CanTake(Run(d, steps).value, step) then Some(Take(Run(d, steps).value, step)) else None
  {
    assert (steps + [step])[..|steps|] == steps;
  }
}
