/**
 * The WarningFlags contract as a pure state machine: the owner, a mapping
 * from subject address to warning flag (unset reads false), and the event
 * log. Each external call is a transition that either commits a new state
 * or reverts and leaves the state exactly as it was.
 *
 * The central rule: a flag mutator appends an event only when the stored
 * flag really changes, so the log is a faithful record of transitions. The
 * lemmas at the end prove this of every state reachable from deployment.
 */
module WarningFlagsSpec {
  import opened Owned

  /** Entries of the contract's event log. */
  datatype Event =
    | WarningFlagOn(subject: Address)
    | WarningFlagOff(subject: Address)
    | OwnershipChange(change: OwnershipEvent)

  datatype State = State(ownership: Ownership, flags: map<Address, bool>, events: seq<Event>)

  /** The mutating entry points of the public interface, each with its caller. */
  datatype Call =
    | SetWarningFlagOn(caller: Address, subject: Address)
    | SetWarningFlagOff(caller: Address, subject: Address)
    | TransferOwnershipTo(caller: Address, to: Address)
    | AcceptOwnershipBy(caller: Address)

  /** The state right after `deployer` deploys the contract. */
  function Deploy(deployer: Address): (st: State)
    ensures st.ownership.owner == deployer && st.ownership.pending.None?
    ensures forall s :: !GetWarningFlag(st, s)
    ensures st.events == []
  {
    State(Deployed(deployer), map[], [])
  }

  /** The stored flag of `subject`; a subject never written reads false. */
  function GetWarningFlag(st: State, subject: Address): (r: bool)
    ensures subject !in st.flags ==> !r
    ensures subject in st.flags ==> r == st.flags[subject]
  {
    subject in st.flags && st.flags[subject]
  }

  /** The events one committed call appended: what its receipt lists. */
  function Receipt(before: State, after: State): (r: seq<Event>)
    requires before.events <= after.events
    ensures after.events == before.events + r
  {
    after.events[|before.events|..]
  }

  /** Raise the flag of `subject`: owner only; a no-op when already raised. */
  function Raise(st: State, caller: Address, subject: Address): (r: Result<State>)
    ensures r.Revert? <==> caller != st.ownership.owner
    ensures r.Revert? ==> r.error == OnlyCallableByOwner
    ensures r.Ok? ==> GetWarningFlag(r.value, subject)
    ensures r.Ok? ==> forall t :: t != subject ==> GetWarningFlag(r.value, t) == GetWarningFlag(st, t)
    ensures r.Ok? ==> r.value.ownership == st.ownership && st.flags.Keys <= r.value.flags.Keys
    ensures r.Ok? ==> st.events <= r.value.events
    ensures r.Ok? ==> Receipt(st, r.value) == if GetWarningFlag(st, subject) then [] else [WarningFlagOn(subject)]
    ensures r.Ok? && GetWarningFlag(st, subject) ==> r.value == st
  {
    match RequireOwner(st.ownership, caller)
    case Revert(e) => Revert(e)
    case Ok(_) =>
      if GetWarningFlag(st, subject) then Ok(st)
      else Ok(st.(flags := st.flags[subject := true], events := st.events + [WarningFlagOn(subject)]))
  }

  /** Lower the flag of `subject`: owner only; a no-op when already lowered. */
  function Lower(st: State, caller: Address, subject: Address): (r: Result<State>)
    ensures r.Revert? <==> caller != st.ownership.owner
    ensures r.Revert? ==> r.error == OnlyCallableByOwner
    ensures r.Ok? ==> !GetWarningFlag(r.value, subject)
    ensures r.Ok? ==> forall t :: t != subject ==> GetWarningFlag(r.value, t) == GetWarningFlag(st, t)
    ensures r.Ok? ==> r.value.ownership == st.ownership && st.flags.Keys <= r.value.flags.Keys
    ensures r.Ok? ==> st.events <= r.value.events
    ensures r.Ok? ==> Receipt(st, r.value) == if GetWarningFlag(st, subject) then [WarningFlagOff(subject)] else []
    ensures r.Ok? && !GetWarningFlag(st, subject) ==> r.value == st
  {
    match RequireOwner(st.ownership, caller)
    case Revert(e) => Revert(e)
    case Ok(_) =>
      if !GetWarningFlag(st, subject) then Ok(st)
      else Ok(st.(flags := st.flags[subject := false], events := st.events + [WarningFlagOff(subject)]))
  }

  /** An ownership step on the whole state: flags untouched, its event logged. */
  function WithOwnership(st: State, r: Result<(Ownership, OwnershipEvent)>): (q: Result<State>)
    ensures q.Revert? <==> r.Revert?
    ensures q.Revert? ==> q.error == r.error
    ensures q.Ok? ==> q.value.ownership == r.value.0 && q.value.flags == st.flags
    ensures q.Ok? ==> q.value.events == st.events + [OwnershipChange(r.value.1)]
  {
    match r
    case Revert(e) => Revert(e)
    case Ok((o, e)) => Ok(st.(ownership := o, events := st.events + [OwnershipChange(e)]))
  }

  /** The outcome of one call made against `st`. */
  function Apply(st: State, call: Call): (r: Result<State>)
    ensures r.Ok? ==> st.events <= r.value.events && |r.value.events| <= |st.events| + 1
    ensures r.Ok? ==> st.flags.Keys <= r.value.flags.Keys
    ensures (call.SetWarningFlagOn? || call.SetWarningFlagOff?) ==>
      (r.Revert? <==> call.caller != st.ownership.owner)
  {
    match call
    case SetWarningFlagOn(caller, subject) => Raise(st, caller, subject)
    case SetWarningFlagOff(caller, subject) => Lower(st, caller, subject)
    case TransferOwnershipTo(caller, to) => WithOwnership(st, TransferOwnership(st.ownership, caller, to))
    case AcceptOwnershipBy(caller) => WithOwnership(st, AcceptOwnership(st.ownership, caller))
  }

  /** The state after a call: the committed state, or the old one on a revert. */
  function Commit(st: State, r: Result<State>): State
  {
    match r
    case Ok(next) => next
    case Revert(_) => st
  }

  /** The state after a sequence of calls, one at a time. */
  function Run(st: State, calls: seq<Call>): State
    decreases |calls|
  {
    if calls == [] then st else Run(Commit(st, Apply(st, calls[0])), calls[1..])
  }

  // ---------------------------------------------------------------------
  // The event log as a record of flag transitions

  /** What `e` says about the flag of `subject`: [true], [false] or nothing. */
  function EventFlag(e: Event, subject: Address): seq<bool>
  {
    match e
    case WarningFlagOn(s) => if s == subject then [true] else []
    case WarningFlagOff(s) => if s == subject then [false] else []
    case OwnershipChange(_) => []
  }

  /** The flag values the log announces for `subject`, oldest first. */
  function FlagHistory(events: seq<Event>, subject: Address): seq<bool>
    decreases |events|
  {
    if events == [] then []
    else FlagHistory(events[..|events| - 1], subject) + EventFlag(events[|events| - 1], subject)
  }

  /** The flag a history ends in; false when there is none. */
  function LastFlag(h: seq<bool>): bool
  {
    if h == [] then false else h[|h| - 1]
  }

  /** A history of real transitions: it starts by raising and never repeats a value. */
  ghost predicate Alternates(h: seq<bool>)
  {
    (|h| > 0 ==> h[0]) && forall i :: 0 < i < |h| ==> h[i] != h[i - 1]
  }

  /**
   * The log is faithful to the flags: for every subject the flag events
   * alternate, and the stored flag is the last one announced.
   */
  ghost predicate Faithful(st: State)
  {
    forall s :: Alternates(FlagHistory(st.events, s)) && GetWarningFlag(st, s) == LastFlag(FlagHistory(st.events, s))
  }

  // The four helpers below each hold without their bodies, which only spell
  // out the argument. They are stated as lemmas because ApplyKeepsFaithful
  // runs out of resource unless it calls them for the subject at hand.

  lemma FlagHistoryAppend(events: seq<Event>, e: Event, subject: Address)
    ensures FlagHistory(events + [e], subject) == FlagHistory(events, subject) + EventFlag(e, subject)
  {
    assert (events + [e])[..|events|] == events;
  }

  /** Appending a value that differs from the last one keeps a history alternating. */
  lemma AlternatesSnoc(h: seq<bool>, b: bool)
    requires Alternates(h) && b != LastFlag(h)
    ensures Alternates(h + [b])
  {
    var g := h + [b];
    forall i | 0 < i < |g| ensures g[i] != g[i - 1] {
      if i == |h| {
        assert g[i - 1] == h[|h| - 1];
      } else {
        assert g[i] == h[i] && g[i - 1] == h[i - 1];
      }
    }
  }

  /** Appending an event about another subject, or an ownership event, changes no history. */
  lemma AppendKeepsOtherFlags(st: State, next: State, e: Event, subject: Address)
    requires Faithful(st)
    requires next.events == st.events + [e] && EventFlag(e, subject) == []
    requires GetWarningFlag(next, subject) == GetWarningFlag(st, subject)
    ensures Alternates(FlagHistory(next.events, subject))
    ensures GetWarningFlag(next, subject) == LastFlag(FlagHistory(next.events, subject))
  {
    FlagHistoryAppend(st.events, e, subject);
    assert FlagHistory(next.events, subject) == FlagHistory(st.events, subject);
  }

  /** A flag event that really changes `subject`'s flag keeps the log faithful for it. */
  lemma AppendTransition(st: State, next: State, b: bool, subject: Address)
    requires Faithful(st)
    requires next.events == st.events + [if b then WarningFlagOn(subject) else WarningFlagOff(subject)]
    requires GetWarningFlag(st, subject) != b && GetWarningFlag(next, subject) == b
    ensures Alternates(FlagHistory(next.events, subject))
    ensures GetWarningFlag(next, subject) == LastFlag(FlagHistory(next.events, subject))
  {
    var e := if b then WarningFlagOn(subject) else WarningFlagOff(subject);
    FlagHistoryAppend(st.events, e, subject);
    var h := FlagHistory(st.events, subject);
    assert FlagHistory(next.events, subject) == h + [b];
    AlternatesSnoc(h, b);
  }

  /** The freshly deployed contract has an empty, hence faithful, log. */
  lemma DeployFaithful(deployer: Address)
    ensures Faithful(Deploy(deployer))
  {
  }

  /** Every call, committed or reverted, keeps the log faithful. */
  lemma ApplyKeepsFaithful(st: State, call: Call)
    requires Faithful(st)
    ensures Faithful(Commit(st, Apply(st, call)))
  {
    var r := Apply(st, call);
    if r.Ok? {
      var next := r.value;
      forall s
        ensures Alternates(FlagHistory(next.events, s))
        ensures GetWarningFlag(next, s) == LastFlag(FlagHistory(next.events, s))
      {
        match call
        case SetWarningFlagOn(_, x) =>
          if GetWarningFlag(st, x) {
            assert next == st;
          } else if s == x {
            AppendTransition(st, next, true, x);
          } else {
            AppendKeepsOtherFlags(st, next, WarningFlagOn(x), s);
          }
        case SetWarningFlagOff(_, x) =>
          if !GetWarningFlag(st, x) {
            assert next == st;
          } else if s == x {
            AppendTransition(st, next, false, x);
          } else {
            AppendKeepsOtherFlags(st, next, WarningFlagOff(x), s);
          }
        case TransferOwnershipTo(caller, to) =>
          var e := TransferOwnership(st.ownership, caller, to).value.1;
          AppendKeepsOtherFlags(st, next, OwnershipChange(e), s);
        case AcceptOwnershipBy(caller) =>
          var e := AcceptOwnership(st.ownership, caller).value.1;
          AppendKeepsOtherFlags(st, next, OwnershipChange(e), s);
      }
    }
  }

  /** Any sequence of calls keeps the log faithful. */
  lemma {:induction false} RunKeepsFaithful(st: State, calls: seq<Call>)
    requires Faithful(st)
    ensures Faithful(Run(st, calls))
    decreases |calls|
  {
    if calls != [] {
      ApplyKeepsFaithful(st, calls[0]);
      RunKeepsFaithful(Commit(st, Apply(st, calls[0])), calls[1..]);
    }
  }

  /**
   * In every state reachable from deployment, the log never announces the
   * same flag value twice in a row for a subject, its first announcement
   * raises the flag, and the stored flag is the last value announced.
   */
  lemma ReachableLogIsFaithful(deployer: Address, calls: seq<Call>, subject: Address)
    ensures var h := FlagHistory(Run(Deploy(deployer), calls).events, subject);
      (|h| > 0 ==> h[0]) &&
      (forall i :: 0 < i < |h| ==> h[i] != h[i - 1]) &&
      GetWarningFlag(Run(Deploy(deployer), calls), subject) == LastFlag(h)
  {
    DeployFaithful(deployer);
    RunKeepsFaithful(Deploy(deployer), calls);
  }

  /**
   * The log is append-only and the flag mapping never loses an entry,
   * whatever calls are made.
   */
  lemma {:induction false} RunOnlyGrows(st: State, calls: seq<Call>)
    ensures st.events <= Run(st, calls).events
    ensures st.flags.Keys <= Run(st, calls).flags.Keys
    decreases |calls|
  {
    if calls != [] {
      var mid := Commit(st, Apply(st, calls[0]));
      RunOnlyGrows(mid, calls[1..]);
    }
  }

  /**
   * An account that is neither the owner nor the nominee changes nothing,
   * however many calls it makes: each of them reverts.
   */
  lemma {:induction false} StrangerChangesNothing(st: State, stranger: Address, calls: seq<Call>)
    requires stranger != st.ownership.owner && st.ownership.pending != Some(stranger)
    requires forall i :: 0 <= i < |calls| ==> calls[i].caller == stranger
    ensures Run(st, calls) == st
    decreases |calls|
  {
    if calls != [] {
      assert Apply(st, calls[0]).Revert?;
      assert forall i :: 0 <= i < |calls[1..]| ==> calls[1..][i].caller == calls[i + 1].caller;
      StrangerChangesNothing(st, stranger, calls[1..]);
    }
  }

  /**
   * Raising twice is raising once: the second call neither writes nor emits,
   * so the two calls together emit exactly one WarningFlagOn event.
   */
  lemma RaiseTwice(st: State, subject: Address)
    requires !GetWarningFlag(st, subject)
    ensures var once := Raise(st, st.ownership.owner, subject);
      once.Ok? && Raise(once.value, st.ownership.owner, subject) == once &&
      Receipt(st, once.value) == [WarningFlagOn(subject)]
  {
  }

  /**
   * Lowering twice is lowering once: the second call neither writes nor emits,
   * so the two calls together emit exactly one WarningFlagOff event.
   */
  lemma LowerTwice(st: State, subject: Address)
    requires GetWarningFlag(st, subject)
    ensures var once := Lower(st, st.ownership.owner, subject);
      once.Ok? && Lower(once.value, st.ownership.owner, subject) == once &&
      Receipt(st, once.value) == [WarningFlagOff(subject)]
  {
  }

  /**
   * Deploy as `alice`; `bob` reads false; `alice` raises `bob` (one event)
   * and raises again (no event); `carol` tries to lower `bob`'s flag and is
   * refused, leaving it raised.
   */
  lemma Scenario(alice: Address, bob: Address, carol: Address)
    requires carol != alice
    ensures var s0 := Deploy(alice);
      !GetWarningFlag(s0, bob) &&
      var s1 := Commit(s0, Apply(s0, SetWarningFlagOn(alice, bob)));
      GetWarningFlag(s1, bob) && s1.events == [WarningFlagOn(bob)] &&
      var s2 := Commit(s1, Apply(s1, SetWarningFlagOn(alice, bob)));
      s2 == s1 &&
      Apply(s2, SetWarningFlagOff(carol, bob)) == Revert(OnlyCallableByOwner) &&
      GetWarningFlag(Commit(s2, Apply(s2, SetWarningFlagOff(carol, bob))), bob)
  {
  }
}
