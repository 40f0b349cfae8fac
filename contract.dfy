/**
 * The deployed WarningFlags contract as an object whose calls update its
 * storage in place: the owner and the nominee of the ownership protocol,
 * the flag mapping and the append-only event log. Every method does the
 * read-compare-write the contract does and is proved to agree with the
 * transition of the same name in WarningFlagsSpec; the object invariant is
 * that the log is faithful to the flags.
 */
module WarningFlagsContract {
  import opened Owned
  import opened WarningFlagsSpec

  class WarningFlags {
    var owner: Address
    var pendingOwner: Option<Address>
    var flags: map<Address, bool>
    var events: seq<Event>

    /** The storage as a value of the specification. */
    ghost function Snapshot(): State
      reads this
    {
      State(Ownership(owner, pendingOwner), flags, events)
    }

    /** Object invariant: the event log records exactly the flag transitions. */
    ghost predicate Valid()
      reads this
    {
      Faithful(Snapshot())
    }

    /** Deployment: the deploying account becomes the owner. */
    constructor (deployer: Address)
      ensures Valid()
      ensures Snapshot() == Deploy(deployer)
      ensures owner == deployer
      ensures forall s :: !GetWarningFlag(s)
    {
      owner := deployer;
      pendingOwner := None;
      flags := map[];
      events := [];
      DeployFaithful(deployer);
    }

    /** The public read: the subject's flag, false if never written; anyone may call it. */
    function GetWarningFlag(subject: Address): (r: bool)
      reads this
      ensures r == WarningFlagsSpec.GetWarningFlag(Snapshot(), subject)
      ensures Valid() ==> r == LastFlag(FlagHistory(events, subject))
    {
      subject in flags && flags[subject]
    }

    /** Raise the subject's flag; owner only; emits WarningFlagOn only on a real change. */
    method SetWarningFlagOn(caller: Address, subject: Address) returns (status: Result<()>)
      requires Valid()
      modifies this
      ensures Valid()
      ensures status == Apply(old(Snapshot()), Call.SetWarningFlagOn(caller, subject)).Status()
      ensures Snapshot() == Commit(old(Snapshot()), Apply(old(Snapshot()), Call.SetWarningFlagOn(caller, subject)))
    {
      ApplyKeepsFaithful(Snapshot(), Call.SetWarningFlagOn(caller, subject));
      if caller != owner {
        return Revert(OnlyCallableByOwner);
      }
      var raised := subject in flags && flags[subject];
      if !raised {
        flags := flags[subject := true];
        events := events + [WarningFlagOn(subject)];
      }
      status := Ok(());
    }

    /** Lower the subject's flag; owner only; emits WarningFlagOff only on a real change. */
    method SetWarningFlagOff(caller: Address, subject: Address) returns (status: Result<()>)
      requires Valid()
      modifies this
      ensures Valid()
      ensures status == Apply(old(Snapshot()), Call.SetWarningFlagOff(caller, subject)).Status()
      ensures Snapshot() == Commit(old(Snapshot()), Apply(old(Snapshot()), Call.SetWarningFlagOff(caller, subject)))
    {
      ApplyKeepsFaithful(Snapshot(), Call.SetWarningFlagOff(caller, subject));
      if caller != owner {
        return Revert(OnlyCallableByOwner);
      }
      var raised := subject in flags && flags[subject];
      if raised {
        flags := flags[subject := false];
        events := events + [WarningFlagOff(subject)];
      }
      status := Ok(());
    }

    /** The owner nominates `to` as the next owner. */
    method TransferOwnership(caller: Address, to: Address) returns (status: Result<()>)
      requires Valid()
      modifies this
      ensures Valid()
      ensures status == Apply(old(Snapshot()), TransferOwnershipTo(caller, to)).Status()
      ensures Snapshot() == Commit(old(Snapshot()), Apply(old(Snapshot()), TransferOwnershipTo(caller, to)))
    {
      ApplyKeepsFaithful(Snapshot(), TransferOwnershipTo(caller, to));
      if caller != owner {
        return Revert(OnlyCallableByOwner);
      }
      pendingOwner := Some(to);
      events := events + [OwnershipChange(OwnershipTransferRequested(owner, to))];
      status := Ok(());
    }

    /** The nominee takes over ownership. */
    method AcceptOwnership(caller: Address) returns (status: Result<()>)
      requires Valid()
      modifies this
      ensures Valid()
      ensures status == Apply(old(Snapshot()), AcceptOwnershipBy(caller)).Status()
      ensures Snapshot() == Commit(old(Snapshot()), Apply(old(Snapshot()), AcceptOwnershipBy(caller)))
    {
      ApplyKeepsFaithful(Snapshot(), AcceptOwnershipBy(caller));
      if pendingOwner.None? {
        return Revert(NoPendingTransfer);
      }
      if caller != pendingOwner.value {
        return Revert(NotProposedOwner);
      }
      var oldOwner := owner;
      owner := caller;
      pendingOwner := None;
      events := events + [OwnershipChange(OwnershipTransferred(oldOwner, caller))];
      status := Ok(());
    }
  }

  // The contract's test cases, one method per `describe` group, written as
  // clients of the class. Each `it` case starts from its own deployment by
  // `nelly`, followed by the calls of the `beforeEach` blocks that enclose it;
  // `norbert` is the questionable subject and `neil` an account that is not
  // the owner. A receipt is the part of the log that one call appended.

  /**
   * setWarningFlagOn called by the owner: the flag reads false before and true
   * after; the receipt holds one WarningFlagOn for the subject; once the flag
   * has been raised, raising it again emits nothing.
   */
  method SetOnByOwnerCases(nelly: Address, norbert: Address)
    returns (before: bool, after: bool, receipt: seq<Event>, repeated: seq<Event>)
    ensures !before && after
    ensures receipt == [WarningFlagOn(norbert)]
    ensures repeated == []
  {
    // it updates the warning flag
    var c := new WarningFlags(nelly);
    before := c.GetWarningFlag(norbert);
    var status := c.SetWarningFlagOn(nelly, norbert);
    after := c.GetWarningFlag(norbert);

    // it emits an event log
    c := new WarningFlags(nelly);
    var n := |c.events|;
    status := c.SetWarningFlagOn(nelly, norbert);
    receipt := c.events[n..];

    // if a flag has already been raised: it emits no event log
    c := new WarningFlags(nelly);
    status := c.SetWarningFlagOn(nelly, norbert);
    n := |c.events|;
    status := c.SetWarningFlagOn(nelly, norbert);
    repeated := c.events[n..];
  }

  /** setWarningFlagOn called by a non-owner reverts with "Only callable by owner" and changes nothing. */
  method SetOnByNonOwnerCase(nelly: Address, neil: Address, norbert: Address)
    returns (status: Result<()>, reason: string, flagged: bool, log: seq<Event>)
    requires neil != nelly
    ensures status == Revert(OnlyCallableByOwner) && reason == "Only callable by owner"
    ensures !flagged && log == []
  {
    var c := new WarningFlags(nelly);
    status := c.SetWarningFlagOn(neil, norbert);
    reason := if status.Revert? then Reason(status.error) else "";
    flagged := c.GetWarningFlag(norbert);
    log := c.events;
  }

  /**
   * setWarningFlagOff called by the owner, after the owner raised the flag:
   * the flag reads true before and false after; the receipt holds one
   * WarningFlagOff for the subject; once the flag has been lowered, lowering
   * it again emits nothing.
   */
  method SetOffByOwnerCases(nelly: Address, norbert: Address)
    returns (before: bool, after: bool, receipt: seq<Event>, repeated: seq<Event>)
    ensures before && !after
    ensures receipt == [WarningFlagOff(norbert)]
    ensures repeated == []
  {
    // it updates the warning flag
    var c := new WarningFlags(nelly);
    var status := c.SetWarningFlagOn(nelly, norbert);
    before := c.GetWarningFlag(norbert);
    status := c.SetWarningFlagOff(nelly, norbert);
    after := c.GetWarningFlag(norbert);

    // it emits an event log
    c := new WarningFlags(nelly);
    status := c.SetWarningFlagOn(nelly, norbert);
    var n := |c.events|;
    status := c.SetWarningFlagOff(nelly, norbert);
    receipt := c.events[n..];

    // once the flag has been lowered: it emits no event log
    c := new WarningFlags(nelly);
    status := c.SetWarningFlagOn(nelly, norbert);
    status := c.SetWarningFlagOff(nelly, norbert);
    n := |c.events|;
    status := c.SetWarningFlagOff(nelly, norbert);
    repeated := c.events[n..];
  }

  /** setWarningFlagOff called by a non-owner reverts with "Only callable by owner"; the flag stays raised. */
  method SetOffByNonOwnerCase(nelly: Address, neil: Address, norbert: Address)
    returns (status: Result<()>, reason: string, flagged: bool)
    requires neil != nelly
    ensures status == Revert(OnlyCallableByOwner) && reason == "Only callable by owner"
    ensures flagged
  {
    var c := new WarningFlags(nelly);
    status := c.SetWarningFlagOn(nelly, norbert);
    status := c.SetWarningFlagOff(neil, norbert);
    reason := if status.Revert? then Reason(status.error) else "";
    flagged := c.GetWarningFlag(norbert);
  }
}
