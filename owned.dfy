/**
 * The ownership half of the WarningFlags contract: a single current owner
 * that gates every mutating call, and a two-step handoff in which the owner
 * nominates a candidate and the candidate must accept.
 *
 * Only the gate (`RequireOwner`) is pinned down by the contract's tests. The
 * tests name `transferOwnership` and `acceptOwnership` but never call them, so
 * their behaviour here is assumed: the usual nominate/accept handoff, in which
 * only the owner nominates and `acceptOwnership` by anyone but the nominee
 * reverts.
 */
module Owned {

  /** An account. Addresses are compared for equality and nothing else. */
  type Address(==, !new)

  /** Why a call reverted. */
  datatype Error =
    | OnlyCallableByOwner   // the caller is not the current owner
    | NotProposedOwner      // acceptOwnership by someone other than the nominee
    | NoPendingTransfer     // acceptOwnership while nobody is nominated

  /**
   * The revert reason string carried by each error. Only the owner gate's
   * reason is fixed by the tests; the other two are assumed.
   */
  function Reason(e: Error): (r: string)
    ensures r == "Only callable by owner" <==> e == OnlyCallableByOwner
  {
    match e
    case OnlyCallableByOwner => "Only callable by owner"
    case NotProposedOwner => "Must be proposed owner"
    case NoPendingTransfer => "No pending transfer"
  }

  /**
   * The result of a call: either it commits with a value, or it reverts
   * with an error and has no effect at all.
   */
  datatype Result<T> = Ok(value: T) | Revert(error: Error)
  {
    /** What a caller observes: success or the revert error, without the value. */
    function Status(): Result<()>
    {
      match this
      case Ok(_) => Ok(())
      case Revert(e) => Revert(e)
    }
  }

  datatype Option<T> = None | Some(value: T)

  /** The current owner and the nominated next owner, if any. */
  datatype Ownership = Ownership(owner: Address, pending: Option<Address>)

  /** Notifications emitted by the ownership protocol. */
  datatype OwnershipEvent =
    | OwnershipTransferRequested(from: Address, to: Address)
    | OwnershipTransferred(from: Address, to: Address)

  /** The ownership a freshly deployed contract has: the deployer, nobody nominated. */
  function Deployed(deployer: Address): (o: Ownership)
    ensures o.owner == deployer && o.pending.None?
  {
    Ownership(deployer, None)
  }

  /** The gate every mutating call passes first. */
  function RequireOwner(o: Ownership, caller: Address): (r: Result<()>)
    ensures r.Ok? <==> caller == o.owner
    ensures r.Revert? ==> r.error == OnlyCallableByOwner
  {
    if caller == o.owner then Ok(()) else Revert(OnlyCallableByOwner)
  }

  /**
   * The owner nominates `to`; a later nomination replaces an earlier one.
   * The owner itself does not change.
   */
  function TransferOwnership(o: Ownership, caller: Address, to: Address)
    : (r: Result<(Ownership, OwnershipEvent)>)
    ensures r.Ok? <==> caller == o.owner
    ensures r.Revert? ==> r.error == OnlyCallableByOwner
    ensures r.Ok? ==> r.value.0.owner == o.owner && r.value.0.pending == Some(to)
    ensures r.Ok? ==> r.value.1 == OwnershipTransferRequested(o.owner, to)
  {
    match RequireOwner(o, caller)
    case Revert(e) => Revert(e)
    case Ok(_) => Ok((Ownership(o.owner, Some(to)), OwnershipTransferRequested(o.owner, to)))
  }

  /**
   * The nominee takes over: it becomes the owner and the nomination is
   * cleared. Nobody else can complete the handoff.
   */
  function AcceptOwnership(o: Ownership, caller: Address)
    : (r: Result<(Ownership, OwnershipEvent)>)
    ensures r.Ok? <==> o.pending == Some(caller)
    ensures o.pending.None? ==> r == Revert(NoPendingTransfer)
    ensures o.pending.Some? && o.pending.value != caller ==> r == Revert(NotProposedOwner)
    ensures r.Ok? ==> r.value.0 == Ownership(caller, None)
    ensures r.Ok? ==> r.value.1 == OwnershipTransferred(o.owner, caller)
  {
    match o.pending
    case None => Revert(NoPendingTransfer)
    case Some(nominee) =>
      if caller != nominee then Revert(NotProposedOwner)
      else Ok((Ownership(caller, None), OwnershipTransferred(o.owner, caller)))
  }

  /**
   * A completed handoff from `a` to `b`: after `a` nominates `b`, `b` is not
   * yet the owner; once `b` accepts, `b` is the owner and `a` no longer passes
   * the gate.
   */
  lemma HandoffNeedsAcceptance(o: Ownership, a: Address, b: Address)
    requires o.owner == a && a != b
    ensures TransferOwnership(o, a, b).Ok?
    ensures var n := TransferOwnership(o, a, b).value.0;
      RequireOwner(n, b) == Revert(OnlyCallableByOwner) &&
      AcceptOwnership(n, b).Ok? &&
      var m := AcceptOwnership(n, b).value.0;
      m.owner == b && RequireOwner(m, a) == Revert(OnlyCallableByOwner)
  {
  }
}
