/**
 * The contract's entry points as functions of the stored state: `Init` builds
 * the state, `RequestRelease` and `ConfirmPayment` either reject a call or
 * return the new state and the event to log, `ViewMilestone` projects one
 * milestone. The imperative entry points of `Paylog.Registry` are proved
 * against these definitions.
 */
module Transitions {
  import opened Wrappers
  import opened Types

  // ---- The safety invariant ------------------------------------------------------

  /**
   * The stage flags and the optional fields agree: a milestone is released only
   * after it was requested, the request data is present exactly when it was
   * requested and the payment data exactly when it was released.
   */
  ghost predicate MilestoneInv(m: Milestone) {
    && (m.released ==> m.requested)
    && (m.workHash.Some? <==> m.requested)
    && (m.requestedAtMs.Some? <==> m.requested)
    && (m.pltTxHash.Some? <==> m.released)
    && (m.attestedAtMs.Some? <==> m.released)
  }

  /** Every milestone of the state satisfies `MilestoneInv`. */
  ghost predicate Inv(s: State) {
    forall i :: 0 <= i < |s.milestones| ==> MilestoneInv(s.milestones[i])
  }

  /** A milestone as `init` creates it: neither requested nor released, nothing recorded. */
  ghost predicate Unstarted(m: Milestone) {
    && !m.requested && !m.released
    && m.workHash == None && m.pltTxHash == None
    && m.requestedAtMs == None && m.attestedAtMs == None
  }

  /**
   * `s'` differs from `s` at most in its milestones, and has as many of them:
   * the principals and the display data are the same.
   */
  ghost predicate SameShape(s: State, s': State) {
    s' == s.(milestones := s'.milestones) && |s'.milestones| == |s.milestones|
  }

  /** `s'` differs from `s` at most in milestone `id`. */
  ghost predicate OnlyAt(s: State, s': State, id: nat) {
    && SameShape(s, s')
    && forall j :: 0 <= j < |s.milestones| && j != id ==> s'.milestones[j] == s.milestones[j]
  }

  /** True exactly when `sender` is the account `who` (contract senders never are). */
  predicate IsAccount(sender: Address, who: AccountAddress) {
    match sender
    case Account(a) => a == who
    case Contract(_) => false
  }

  // ---- init ------------------------------------------------------------------------

  /** One fresh milestone per configured amount, in order. */
  function InitMilestones(amounts: seq<U128>): (ms: seq<Milestone>)
    ensures |ms| == |amounts|
    ensures forall i :: 0 <= i < |ms| ==> ms[i].amountMinor == amounts[i] && Unstarted(ms[i])
  {
    if amounts == [] then []
    else [Milestone(amounts[0], false, false, None, None, None, None)] + InitMilestones(amounts[1..])
  }

  /**
   * The state `init` stores, or the rejection of an empty amount list. The
   * entry point rejects with the host's built-in parse-error reject
   * (`Reject::from(ParseError::default())`), not with a `ContractError`;
   * `ParseError` stands for that reject here.
   */
  function Init(p: InitParams): (r: Result<State, ContractError>)
    ensures r.Failure? <==> p.amounts == []
    ensures r.Failure? ==> r.error == ParseError
    ensures r.Success? ==>
      && r.value.projectId == p.projectId
      && r.value.client == p.client
      && r.value.freelancer == p.freelancer
      && r.value.oracle == p.oracle
      && r.value.pltDecimals == p.pltDecimals
      && |r.value.milestones| == |p.amounts|
      && forall i :: 0 <= i < |p.amounts| ==>
           r.value.milestones[i].amountMinor == p.amounts[i] && Unstarted(r.value.milestones[i])
    ensures r.Success? ==> Inv(r.value)
  {
    if p.amounts == [] then Failure(ParseError)
    else Success(State(p.projectId, p.client, p.freelancer, p.oracle, p.pltDecimals, InitMilestones(p.amounts)))
  }

  // ---- The two transitions ------------------------------------------------------------

  /** An accepted call: the new state and the one event it logs. */
  datatype Step = Step(state: State, event: Event)

  /**
   * `requestRelease`: the oracle account marks milestone `p.milestoneId` as
   * ready to pay, storing the work hash and the block time `now`.
   */
  function RequestRelease(s: State, sender: Address, p: RequestParam, now: Timestamp): (r: Result<Step, ContractError>)
    // Rejections, in the order the entry point checks them.
    ensures !IsAccount(sender, s.oracle) ==> r == Failure(Unauthorized)
    ensures IsAccount(sender, s.oracle) && p.milestoneId >= |s.milestones| ==> r == Failure(InvalidMilestone)
    ensures IsAccount(sender, s.oracle) && p.milestoneId < |s.milestones| ==>
      var m := s.milestones[p.milestoneId];
      && (m.released ==> r == Failure(AlreadyReleased))
      && (!m.released && m.requested ==> r == Failure(AlreadyRequested))
      && (!m.released && !m.requested ==> r.Success?)
    // An accepted request touches only its milestone and logs one event.
    ensures r.Success? ==>
      && p.milestoneId < |s.milestones|
      && OnlyAt(s, r.value.state, p.milestoneId)
      && r.value.state.milestones[p.milestoneId] ==
           s.milestones[p.milestoneId].(requested := true, workHash := Some(p.workHash), requestedAtMs := Some(now))
      && r.value.event == ReleaseRequestedEvent(s.projectId, p.milestoneId, p.workHash, now)
    ensures r.Success? && Inv(s) ==> Inv(r.value.state)
  {
    if !IsAccount(sender, s.oracle) then Failure(Unauthorized)
    else if p.milestoneId >= |s.milestones| then Failure(InvalidMilestone)
    else
      var m := s.milestones[p.milestoneId];
      if m.released then Failure(AlreadyReleased)
      else if m.requested then Failure(AlreadyRequested)
      else
        var m' := m.(requested := true, workHash := Some(p.workHash), requestedAtMs := Some(now));
        Success(Step(s.(milestones := s.milestones[p.milestoneId := m']),
                     ReleaseRequestedEvent(s.projectId, p.milestoneId, p.workHash, now)))
  }

  /**
   * `confirmPayment`: the client account finalizes a requested milestone,
   * storing the transfer hash and the block time `now`. The invariant is what
   * guarantees that the stored work hash exists when it is read.
   */
  function ConfirmPayment(s: State, sender: Address, p: ConfirmParam, now: Timestamp): (r: Result<Step, ContractError>)
    requires Inv(s)
    // Rejections, in the order the entry point checks them.
    ensures !IsAccount(sender, s.client) ==> r == Failure(Unauthorized)
    ensures IsAccount(sender, s.client) && p.milestoneId >= |s.milestones| ==> r == Failure(InvalidMilestone)
    ensures IsAccount(sender, s.client) && p.milestoneId < |s.milestones| ==>
      var m := s.milestones[p.milestoneId];
      && (!m.requested ==> r == Failure(NotRequested))
      && (m.requested && m.released ==> r == Failure(AlreadyReleased))
      && (m.requested && !m.released && p.paidAmountMinor != m.amountMinor ==> r == Failure(AmountMismatch))
      && (m.requested && !m.released && p.paidAmountMinor == m.amountMinor ==> r.Success?)
    // An accepted confirmation touches only its milestone, keeps what the
    // request stored, and logs the stored work hash and amount.
    ensures r.Success? ==>
      && p.milestoneId < |s.milestones|
      && OnlyAt(s, r.value.state, p.milestoneId)
      && r.value.state.milestones[p.milestoneId] ==
           s.milestones[p.milestoneId].(released := true, pltTxHash := Some(p.pltTxHash), attestedAtMs := Some(now))
      && r.value.event.AttestedEvent?
      && r.value.event.projectId == s.projectId
      && r.value.event.milestoneId == p.milestoneId
      && Some(r.value.event.workHash) == s.milestones[p.milestoneId].workHash
      && r.value.event.pltTxHash == p.pltTxHash
      && r.value.event.amountMinor == s.milestones[p.milestoneId].amountMinor == p.paidAmountMinor
      && r.value.event.blockTimeMs == now
    ensures r.Success? ==> Inv(r.value.state)
  {
    if !IsAccount(sender, s.client) then Failure(Unauthorized)
    else if p.milestoneId >= |s.milestones| then Failure(InvalidMilestone)
    else
      var m := s.milestones[p.milestoneId];
      if !m.requested then Failure(NotRequested)
      else if m.released then Failure(AlreadyReleased)
      else if p.paidAmountMinor != m.amountMinor then Failure(AmountMismatch)
      else
        assert MilestoneInv(m);
        var workHash := m.workHash.value;
        var m' := m.(released := true, pltTxHash := Some(p.pltTxHash), attestedAtMs := Some(now));
        Success(Step(s.(milestones := s.milestones[p.milestoneId := m']),
                     AttestedEvent(s.projectId, p.milestoneId, workHash, p.pltTxHash, m.amountMinor, now)))
  }

  // ---- viewMilestone -------------------------------------------------------------------

  /** The stored record of milestone `id`, or `None` when `id` is out of range. */
  function ViewMilestone(s: State, id: MilestoneId): (r: Option<MilestoneView>)
    ensures r.None? <==> id >= |s.milestones|
    ensures r.Some? ==>
      var m := s.milestones[id];
      && r.value.amountMinor == m.amountMinor
      && r.value.requested == m.requested
      && r.value.released == m.released
      && r.value.workHash == m.workHash
      && r.value.pltTxHash == m.pltTxHash
      && r.value.requestedAtMs == m.requestedAtMs
      && r.value.attestedAtMs == m.attestedAtMs
  {
    if id < |s.milestones| then
      var m := s.milestones[id];
      Some(MilestoneView(m.amountMinor, m.requested, m.released, m.workHash,
                         m.pltTxHash, m.requestedAtMs, m.attestedAtMs))
    else None
  }

  // ---- The ledger: state plus event log --------------------------------------------------

  /** What an observer sees: the stored state and the events logged so far. */
  datatype Ledger = Ledger(state: State, log: seq<Event>)

  /**
   * The ledger after a call with outcome `o`: an accepted call stores its state
   * and appends its event; a rejected call changes nothing.
   */
  function Commit(l: Ledger, o: Result<Step, ContractError>): (l': Ledger)
    ensures o.Success? ==> l'.state == o.value.state && l'.log == l.log + [o.value.event]
    ensures o.Failure? ==> l' == l
  {
    match o
    case Success(step) => Ledger(step.state, l.log + [step.event])
    case Failure(_) => l
  }

  /** What the entry point returns to its caller for outcome `o`. */
  function Status(o: Result<Step, ContractError>): (r: Result<(), ContractError>)
    ensures r.Success? <==> o.Success?
    ensures r.Failure? ==> r.error == o.error
  {
    match o
    case Success(_) => Success(())
    case Failure(e) => Failure(e)
  }
}
