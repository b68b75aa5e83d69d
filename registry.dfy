/**
 * The deployed contract instance. The principals and display data are fixed
 * at deployment; the milestone vector is updated in place by the two
 * mutating entry points, and accepted calls append to the event log.
 */
module Paylog {
  import opened Wrappers
  import opened Types
  import Transitions

  class Registry {
    const projectId: string
    const client: AccountAddress
    const freelancer: AccountAddress
    const oracle: AccountAddress
    const pltDecimals: U8
    var milestones: seq<Milestone>
    var events: seq<Event>

    /** The stored state as a value. */
    function Snapshot(): (s: State)
      reads this
    {
      State(projectId, client, freelancer, oracle, pltDecimals, milestones)
    }

    /** The stored state together with the event log. */
    function AsLedger(): (l: Transitions.Ledger)
      reads this
    {
      Transitions.Ledger(Snapshot(), events)
    }

    /** The safety invariant holds of the stored milestones. */
    ghost predicate Valid()
      reads this
    {
      Transitions.Inv(Snapshot())
    }

    /** Stores the state `init` returned; nothing has been logged yet. */
    constructor (s: State)
      requires Transitions.Inv(s)
      ensures Snapshot() == s && events == []
      ensures Valid()
    {
      projectId := s.projectId;
      client := s.client;
      freelancer := s.freelancer;
      oracle := s.oracle;
      pltDecimals := s.pltDecimals;
      milestones := s.milestones;
      events := [];
    }

    /** Runs `init` and, when it accepts, deploys an instance holding its state. */
    static method Deploy(p: InitParams) returns (r: Result<Registry, ContractError>)
      ensures r.Failure? <==> p.amounts == []
      ensures r.Failure? ==> r.error == ParseError
      ensures r.Success? ==>
        && Transitions.Init(p).Success?
        && fresh(r.value)
        && r.value.AsLedger() == Transitions.Ledger(Transitions.Init(p).value, [])
        && r.value.Valid()
    {
      match Transitions.Init(p)
      case Failure(e) =>
        r := Failure(e);
      case Success(s) =>
        var registry := new Registry(s);
        r := Success(registry);
    }

    /**
     * `requestRelease`, oracle only: checks the sender, the index and the
     * stage, then writes the target milestone in place and logs the event.
     */
    method RequestRelease(sender: Address, p: RequestParam, now: Timestamp) returns (r: Result<(), ContractError>)
      modifies this
      ensures var o := Transitions.RequestRelease(old(Snapshot()), sender, p, now);
        && r == Transitions.Status(o)
        && AsLedger() == Transitions.Commit(old(AsLedger()), o)
      ensures r.Failure? ==> milestones == old(milestones) && events == old(events)
      ensures old(Valid()) ==> Valid()
    {
      match sender {
        case Contract(_) =>
          return Failure(Unauthorized);
        case Account(a) =>
          if a != oracle {
            return Failure(Unauthorized);
          }
      }
      if p.milestoneId >= |milestones| {
        return Failure(InvalidMilestone);
      }
      var ms := milestones[p.milestoneId];
      if ms.released {
        return Failure(AlreadyReleased);
      }
      if ms.requested {
        return Failure(AlreadyRequested);
      }
      ms := ms.(requested := true);
      ms := ms.(workHash := Some(p.workHash));
      ms := ms.(requestedAtMs := Some(now));
      milestones := milestones[p.milestoneId := ms];
      events := events + [ReleaseRequestedEvent(projectId, p.milestoneId, p.workHash, now)];
      r := Success(());
    }

    /**
     * `confirmPayment`, client only: checks the sender, the index, the stage
     * and the amount, then writes the target milestone in place and logs the
     * attestation with the work hash stored at request time.
     */
    method ConfirmPayment(sender: Address, p: ConfirmParam, now: Timestamp) returns (r: Result<(), ContractError>)
      requires Valid()
      modifies this
      ensures var o := Transitions.ConfirmPayment(old(Snapshot()), sender, p, now);
        && r == Transitions.Status(o)
        && AsLedger() == Transitions.Commit(old(AsLedger()), o)
      ensures r.Failure? ==> milestones == old(milestones) && events == old(events)
      ensures Valid()
    {
      match sender {
        case Contract(_) =>
          return Failure(Unauthorized);
        case Account(a) =>
          if a != client {
            return Failure(Unauthorized);
          }
      }
      if p.milestoneId >= |milestones| {
        return Failure(InvalidMilestone);
      }
      var ms := milestones[p.milestoneId];
      if !ms.requested {
        return Failure(NotRequested);
      }
      if ms.released {
        return Failure(AlreadyReleased);
      }
      if p.paidAmountMinor != ms.amountMinor {
        return Failure(AmountMismatch);
      }
      assert Transitions.MilestoneInv(ms);
      var workHash := ms.workHash.value;
      var amountMinor := ms.amountMinor;
      ms := ms.(released := true);
      ms := ms.(pltTxHash := Some(p.pltTxHash));
      ms := ms.(attestedAtMs := Some(now));
      milestones := milestones[p.milestoneId := ms];
      events := events + [AttestedEvent(projectId, p.milestoneId, workHash, p.pltTxHash, amountMinor, now)];
      r := Success(());
    }
  }
}
