/**
 * Sequences of calls against one deployed instance. The host serializes
 * calls, so a history is a list of calls applied one after the other to the
 * ledger; the lemmas here relate several calls: stages only move forward, the
 * stored request data is never overwritten, and the log holds at most one
 * request and one attestation per milestone, exactly matching its stage.
 */
module History {
  import opened Wrappers
  import opened Types
  import opened Transitions

  /** A call to one of the two mutating entry points. */
  datatype Call =
    | RequestCall(sender: Address, request: RequestParam, now: Timestamp)
    | ConfirmCall(sender: Address, confirm: ConfirmParam, now: Timestamp)

  /** The outcome of call `c` on state `s`. */
  function Outcome(s: State, c: Call): (o: Result<Step, ContractError>)
    requires Inv(s)
  {
    match c
    case RequestCall(sender, p, now) => RequestRelease(s, sender, p, now)
    case ConfirmCall(sender, p, now) => ConfirmPayment(s, sender, p, now)
  }

  /** The milestone targeted by call `c`. */
  function Target(c: Call): (id: MilestoneId) {
    match c
    case RequestCall(_, p, _) => p.milestoneId
    case ConfirmCall(_, p, _) => p.milestoneId
  }

  /**
   * A milestone only moves forward: its amount never changes, once requested
   * it stays requested with the same work hash and time, and once released it
   * never changes again.
   */
  ghost predicate Evolves(m: Milestone, m': Milestone) {
    && m'.amountMinor == m.amountMinor
    && (m.requested ==> m'.requested && m'.workHash == m.workHash && m'.requestedAtMs == m.requestedAtMs)
    && (m.released ==> m' == m)
  }

  /** The ledger after one call. */
  function Apply(l: Ledger, c: Call): (l': Ledger)
    requires Inv(l.state)
    ensures Inv(l'.state)
    ensures SameShape(l.state, l'.state)
    ensures forall i :: 0 <= i < |l.state.milestones| ==> Evolves(l.state.milestones[i], l'.state.milestones[i])
  {
    Commit(l, Outcome(l.state, c))
  }

  /** The ledger after the calls of `calls`, in order. */
  function Run(l: Ledger, calls: seq<Call>): (l': Ledger)
    requires Inv(l.state)
    ensures Inv(l'.state)
    ensures SameShape(l.state, l'.state)
    decreases |calls|
  {
    if calls == [] then l else Run(Apply(l, calls[0]), calls[1..])
  }

  /** Over any history, every milestone only moves forward. */
  lemma {:induction false} RunEvolves(l: Ledger, calls: seq<Call>, i: nat)
    requires Inv(l.state)
    requires i < |l.state.milestones|
    ensures Evolves(l.state.milestones[i], Run(l, calls).state.milestones[i])
    decreases |calls|
  {
    if calls != [] {
      var l1 := Apply(l, calls[0]);
      RunEvolves(l1, calls[1..], i);
    }
  }

  /** Once a work hash is stored, no later call can overwrite or remove it. */
  lemma WorkHashNeverOverwritten(l: Ledger, calls: seq<Call>, i: nat, h: Hash32)
    requires Inv(l.state)
    requires i < |l.state.milestones| && l.state.milestones[i].workHash == Some(h)
    ensures Run(l, calls).state.milestones[i].workHash == Some(h)
  {
    RunEvolves(l, calls, i);
  }

  // ---- The event log matches the stages ------------------------------------------------

  /** The number of `ReleaseRequestedEvent`s for milestone `id` in `log`. */
  function Requests(log: seq<Event>, id: nat): (n: nat) {
    if log == [] then 0
    else Requests(log[..|log| - 1], id)
         + (if log[|log| - 1].ReleaseRequestedEvent? && log[|log| - 1].milestoneId == id then 1 else 0)
  }

  /** The number of `AttestedEvent`s for milestone `id` in `log`. */
  function Attestations(log: seq<Event>, id: nat): (n: nat) {
    if log == [] then 0
    else Attestations(log[..|log| - 1], id)
         + (if log[|log| - 1].AttestedEvent? && log[|log| - 1].milestoneId == id then 1 else 0)
  }

  /**
   * Every logged event names an existing milestone, and each milestone has one
   * request event exactly when it is requested and one attestation exactly when
   * it is released.
   */
  ghost predicate Audited(l: Ledger) {
    && (forall k :: 0 <= k < |l.log| ==> l.log[k].milestoneId < |l.state.milestones|)
    && (forall i :: 0 <= i < |l.state.milestones| ==>
          && Requests(l.log, i) == (if l.state.milestones[i].requested then 1 else 0)
          && Attestations(l.log, i) == (if l.state.milestones[i].released then 1 else 0))
  }

  /** Appending one event adds one to the count of its own kind and milestone only. */
  lemma CountAppend(log: seq<Event>, e: Event, id: nat)
    ensures Requests(log + [e], id) == Requests(log, id) + (if e.ReleaseRequestedEvent? && e.milestoneId == id then 1 else 0)
    ensures Attestations(log + [e], id) == Attestations(log, id) + (if e.AttestedEvent? && e.milestoneId == id then 1 else 0)
  {
    assert (log + [e])[..|log|] == log;
  }

  /** A milestone that no logged event names has no events counted. */
  lemma {:induction false} CountAbsent(log: seq<Event>, id: nat)
    requires forall k :: 0 <= k < |log| ==> log[k].milestoneId != id
    ensures Requests(log, id) == 0 && Attestations(log, id) == 0
  {
    if log != [] {
      CountAbsent(log[..|log| - 1], id);
    }
  }

  /** Every call keeps the log in step with the stages. */
  lemma ApplyAudited(l: Ledger, c: Call)
    requires Inv(l.state) && Audited(l)
    ensures Audited(Apply(l, c))
  {
    var o := Outcome(l.state, c);
    if o.Success? {
      var l' := Apply(l, c);
      var e := o.value.event;
      assert l'.log == l.log + [e];
      assert e.milestoneId == Target(c) < |l.state.milestones|;
      forall i | 0 <= i < |l'.state.milestones|
        ensures Requests(l'.log, i) == (if l'.state.milestones[i].requested then 1 else 0)
        ensures Attestations(l'.log, i) == (if l'.state.milestones[i].released then 1 else 0)
      {
        CountAppend(l.log, e, i);
      }
    }
  }

  /** Every history keeps the log in step with the stages. */
  lemma {:induction false} RunAudited(l: Ledger, calls: seq<Call>)
    requires Inv(l.state) && Audited(l)
    ensures Audited(Run(l, calls))
    decreases |calls|
  {
    if calls != [] {
      ApplyAudited(l, calls[0]);
      RunAudited(Apply(l, calls[0]), calls[1..]);
    }
  }

  /**
   * From deployment on, whatever the calls, each milestone id is requested at
   * most once and attested at most once, and the stored stages agree with the
   * log.
   */
  lemma AtMostOnce(p: InitParams, calls: seq<Call>, id: nat)
    requires Init(p).Success?
    ensures var l := Run(Ledger(Init(p).value, []), calls);
      && Audited(l)
      && Requests(l.log, id) <= 1
      && Attestations(l.log, id) <= 1
  {
    var l0 := Ledger(Init(p).value, []);
    RunAudited(l0, calls);
    var l := Run(l0, calls);
    if id >= |l.state.milestones| {
      CountAbsent(l.log, id);
    }
  }

  // ---- Properties of single calls ---------------------------------------------------------

  /**
   * After an accepted request, a second request for the same milestone fails,
   * whoever sends it, and the stored work hash stays the first one.
   */
  lemma SecondRequestFails(s: State, p: RequestParam, now: Timestamp, sender: Address,
                           p': RequestParam, now': Timestamp, sender': Address)
    requires RequestRelease(s, sender, p, now).Success?
    requires p'.milestoneId == p.milestoneId
    ensures var s1 := RequestRelease(s, sender, p, now).value.state;
      && RequestRelease(s1, sender', p', now').Failure?
      && (IsAccount(sender', s.oracle) ==> RequestRelease(s1, sender', p', now').error == AlreadyRequested)
      && s1.milestones[p.milestoneId].workHash == Some(p.workHash)
  {
  }

  /** After an accepted confirmation, every confirmation for the same milestone fails. */
  lemma SecondConfirmFails(s: State, p: ConfirmParam, now: Timestamp, sender: Address,
                           p': ConfirmParam, now': Timestamp, sender': Address)
    requires Inv(s) && ConfirmPayment(s, sender, p, now).Success?
    requires p'.milestoneId == p.milestoneId
    ensures var s1 := ConfirmPayment(s, sender, p, now).value.state;
      && ConfirmPayment(s1, sender', p', now').Failure?
      && (IsAccount(sender', s.client) ==> ConfirmPayment(s1, sender', p', now').error == AlreadyReleased)
  {
  }

  /** A rejected call leaves the ledger as it was, so repeating it is rejected the same way. */
  lemma RejectionIsIdempotent(l: Ledger, c: Call)
    requires Inv(l.state) && Outcome(l.state, c).Failure?
    ensures Apply(l, c) == l
    ensures Outcome(Apply(l, c).state, c) == Outcome(l.state, c)
  {
  }

  /** When client and oracle differ, neither can make the other's call. */
  lemma CallerIsolation(s: State, rp: RequestParam, cp: ConfirmParam, now: Timestamp)
    requires Inv(s) && s.client != s.oracle
    ensures RequestRelease(s, Account(s.client), rp, now) == Failure(Unauthorized)
    ensures ConfirmPayment(s, Account(s.oracle), cp, now) == Failure(Unauthorized)
  {
  }

  /**
   * The happy path: one milestone of 10_000_000 minor units is requested by the
   * oracle and confirmed by the client; the log holds both events and the view
   * shows the digest, the transfer hash and both times.
   */
  lemma EndToEnd(client: AccountAddress, freelancer: AccountAddress, oracle: AccountAddress,
                 workHash: Hash32, txHash: TxHash, t1: Timestamp, t2: Timestamp)
    ensures var p := InitParams("project", client, freelancer, oracle, [10_000_000], 6);
      && Init(p).Success?
      && var l := Run(Ledger(Init(p).value, []),
                      [RequestCall(Account(oracle), RequestParam(0, workHash), t1),
                       ConfirmCall(Account(client), ConfirmParam(0, 10_000_000, txHash), t2)]);
      && l.log == [ReleaseRequestedEvent("project", 0, workHash, t1),
                   AttestedEvent("project", 0, workHash, txHash, 10_000_000, t2)]
      && ViewMilestone(l.state, 0) ==
           Some(MilestoneView(10_000_000, true, true, Some(workHash), Some(txHash), Some(t1), Some(t2)))
  {
    var p := InitParams("project", client, freelancer, oracle, [10_000_000], 6);
    var c1 := RequestCall(Account(oracle), RequestParam(0, workHash), t1);
    var c2 := ConfirmCall(Account(client), ConfirmParam(0, 10_000_000, txHash), t2);
    var l0 := Ledger(Init(p).value, []);
    var l1 := Apply(l0, c1);
    var l2 := Apply(l1, c2);
    assert [c1, c2][1..] == [c2];
    assert Run(l1, [c2]) == l2 by { assert [c2][1..] == []; }
  }
}
