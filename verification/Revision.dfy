/** Official reconciliation of conflicting provider groups: a proposal has to bind the complete
    conflict closure (_closure in src/ashare_quant/data/economic_event_revision_resolution.py). */
module Revision {
  import opened Basics
  import opened Review

  datatype RevisionFault =
    | EventNotFound
    | ExactConflictRequired
    | GroupMissing
    | GroupSet
    | RawHashSet
    | SupplementSet
    | SupplementRequired
    | EventIdentity

  /** The published conflict lists of the groups. */
  type Conflicts = map<GroupId, set<GroupId>>

  ghost predicate ClosedUnder(conflicts: Conflicts, s: set<GroupId>) {
    forall g :: g in s ==> g in conflicts && conflicts[g] <= s
  }

  /** A set of groups of the table that holds the start and all their conflicts. */
  ghost predicate Closes(conflicts: Conflicts, exact: set<GroupId>, s: set<GroupId>) {
    exact <= s && ClosedUnder(conflicts, s)
  }

  /** Inside every closed set around the start. */
  ghost predicate Needed(conflicts: Conflicts, exact: set<GroupId>, closure: set<GroupId>) {
    forall s :: Closes(conflicts, exact, s) ==> closure <= s
  }

  lemma StartIsNeeded(conflicts: Conflicts, exact: set<GroupId>)
    ensures Needed(conflicts, exact, exact)
    ensures !(exact <= conflicts.Keys) ==> forall s :: !Closes(conflicts, exact, s)
  {}

  lemma ListIsNeeded(conflicts: Conflicts, exact: set<GroupId>, closure: set<GroupId>, g: GroupId)
    requires Needed(conflicts, exact, closure) && g in closure && g in conflicts
    ensures Needed(conflicts, exact, closure + conflicts[g])
    ensures !(conflicts[g] <= conflicts.Keys) ==> forall s :: !Closes(conflicts, exact, s)
  {}

  /** Everything but the pending groups has been followed. */
  ghost predicate Followed(conflicts: Conflicts, closure: set<GroupId>, pending: set<GroupId>) {
    pending <= closure <= conflicts.Keys && forall g :: g in closure - pending ==> g in conflicts && conflicts[g] <= closure
  }

  lemma FollowOne(conflicts: Conflicts, closure: set<GroupId>, pending: set<GroupId>, g: GroupId, more: set<GroupId>)
    requires Followed(conflicts, closure, pending) && g in pending && g in conflicts
    requires conflicts[g] <= conflicts.Keys && more == conflicts[g] - closure
    ensures closure + more == closure + conflicts[g]
    ensures Followed(conflicts, closure + more, (pending - {g}) + more)
    ensures more == {} || |conflicts.Keys - (closure + more)| < |conflicts.Keys - closure|
    ensures more == {} ==> closure + more == closure && |(pending - {g}) + more| < |pending|
  {
    if more != {} {
      RoomShrinks(conflicts.Keys, closure, more);
    } else {
      assert (pending - {g}) + more == pending - {g};
    }
  }

  /** The worklist: everything reachable over conflict lists. The result is the least set that
      contains the start and is closed; it fails exactly if a group is missing on the way. */
  method ConflictClosure(conflicts: Conflicts, exact: set<GroupId>) returns (r: Result<set<GroupId>, RevisionFault>)
    ensures r.Ok? ==> Closes(conflicts, exact, r.value) && Needed(conflicts, exact, r.value)
    ensures r.Err? ==> r.error == GroupMissing && forall s :: !Closes(conflicts, exact, s)
  {
    hide Needed, Followed, Closes;
    StartIsNeeded(conflicts, exact);
    if !(exact <= conflicts.Keys) {
      return Err(GroupMissing);
    }
    var closure, pending := exact, exact;
    assert Followed(conflicts, closure, pending) by { StartIsPending(conflicts, exact); }
    while pending != {}
      invariant exact <= closure && Followed(conflicts, closure, pending)
      invariant Needed(conflicts, exact, closure)
      decreases |conflicts.Keys - closure|, |pending|
    {
      var g :| g in pending;
      PendingIsListed(conflicts, closure, pending, g);
      var others := conflicts[g];
      ListIsNeeded(conflicts, exact, closure, g);
      if !(others <= conflicts.Keys) {
        return Err(GroupMissing);
      }
      var more := others - closure;
      FollowOne(conflicts, closure, pending, g, more);
      closure := closure + more;
      pending := (pending - {g}) + more;
    }
    AllFollowed(conflicts, exact, closure);
    return Ok(closure);
  }

  lemma StartIsPending(conflicts: Conflicts, exact: set<GroupId>)
    requires exact <= conflicts.Keys
    ensures Followed(conflicts, exact, exact)
  {}

  lemma PendingIsListed(conflicts: Conflicts, closure: set<GroupId>, pending: set<GroupId>, g: GroupId)
    requires Followed(conflicts, closure, pending) && g in pending
    ensures g in closure && g in conflicts
  {}

  lemma AllFollowed(conflicts: Conflicts, exact: set<GroupId>, closure: set<GroupId>)
    requires Followed(conflicts, closure, {}) && exact <= closure
    ensures Closes(conflicts, exact, closure)
  {}

  /** The least closed set around a set is the set itself exactly if that is closed. */
  lemma LeastIsStart(conflicts: Conflicts, exact: set<GroupId>, closure: set<GroupId>)
    requires Closes(conflicts, exact, closure) && Needed(conflicts, exact, closure)
    ensures closure == exact <==> ClosedUnder(conflicts, exact)
  {
    if ClosedUnder(conflicts, exact) {
      assert Closes(conflicts, exact, exact);
    }
  }

  lemma RoomShrinks(all: set<GroupId>, closure: set<GroupId>, more: set<GroupId>)
    requires more <= all && more != {} && more !! closure
    ensures |all - (closure + more)| < |all - closure|
  {
    assert all - (closure + more) == (all - closure) - more;
    assert |(all - closure) - more| + |more| == |all - closure|;
  }

  /** A table as revision_groups publishes it for some of the provider groups: each group with all
      its conflicts. */
  ghost predicate Publishes(conflicts: Conflicts, provider: Groups) {
    forall g :: g in conflicts ==> conflicts[g] == ConflictsOf(provider.Keys, g)
  }

  /** The proposal's own sets, which it has to repeat exactly. */
  datatype Proposal = Proposal(event: EventId, code: Code, end: Date, record: Date, ex: Date,
                               groups: seq<GroupId>, hashes: seq<nat>, supplements: seq<nat>)

  datatype Supplement = Supplement(hash: nat, event: EventId, group: GroupId)

  predicate ExactSet<T(==)>(values: seq<T>, expected: set<T>) {
    NoDuplicates(values) && Elements(values) == expected
  }

  function HashesIn(groups: Groups, closure: set<GroupId>): set<nat> {
    set g, h | g in closure && g in groups && h in groups[g].hashes :: h
  }

  function LinkedTo(supplements: seq<Supplement>, event: EventId, closure: set<GroupId>): set<nat> {
    set s | s in supplements && s.event == event && s.group in closure :: s.hash
  }

  predicate SameIdentity(p: Proposal, g: GroupId) {
    g.code == p.code && g.end == Some(p.end) && g.terms.record == Some(p.record) && g.terms.ex == Some(p.ex)
  }

  // ----- what a proposal has to say -----

  /** An audited event with more than one exact group. */
  ghost predicate Contested(p: Proposal, queue: Queue) {
    && p.event in queue && p.event.AuditEvent?
    && exists a, b :: a in queue[p.event].exact && b in queue[p.event].exact && a != b
  }

  /** The groups are listed, disagree with each other, and with no other group. */
  ghost predicate SelfContained(conflicts: Conflicts, exact: set<GroupId>) {
    && (forall g :: g in exact ==> g in conflicts && forall other :: other in conflicts[g] ==> other in exact)
    && exists g, other :: g in exact && g in conflicts && other in conflicts[g]
  }

  ghost predicate GroupsBound(p: Proposal, exact: set<GroupId>) {
    NoDuplicates(p.groups) && forall g :: g in p.groups <==> g in exact
  }

  ghost predicate IsHashOf(groups: Groups, exact: set<GroupId>, h: nat) {
    exists g :: g in exact && g in groups && h in groups[g].hashes
  }

  ghost predicate HashesBound(p: Proposal, groups: Groups, exact: set<GroupId>) {
    NoDuplicates(p.hashes) && forall h :: h in p.hashes <==> IsHashOf(groups, exact, h)
  }

  ghost predicate Supplements(supplements: seq<Supplement>, event: EventId, exact: set<GroupId>, h: nat) {
    exists s :: s in supplements && s.event == event && s.group in exact && s.hash == h
  }

  ghost predicate SupplementsBound(p: Proposal, supplements: seq<Supplement>, exact: set<GroupId>) {
    NoDuplicates(p.supplements) && forall h :: h in p.supplements <==> Supplements(supplements, p.event, exact, h)
  }

  ghost predicate IdentityBound(p: Proposal, exact: set<GroupId>) {
    forall g :: g in exact ==>
      g.code == p.code && g.end == Some(p.end) && g.terms.record == Some(p.record) && g.terms.ex == Some(p.ex)
  }

  /** What an accepted proposal amounts to: an audited event with conflicting exact groups that are
      conflict-closed by themselves, and exactly those groups, rows and supplements. */
  ghost predicate Binds(p: Proposal, queue: Queue, groups: Groups, conflicts: Conflicts, supplements: seq<Supplement>) {
    && Contested(p, queue)
    && var exact := queue[p.event].exact;
       && SelfContained(conflicts, exact) && GroupsBound(p, exact) && HashesBound(p, groups, exact)
       && SupplementsBound(p, supplements, exact) && p.supplements != [] && IdentityBound(p, exact)
  }

  /** Which fault is the first. */
  ghost predicate IsFault(p: Proposal, queue: Queue, groups: Groups, conflicts: Conflicts, supplements: seq<Supplement>, fault: RevisionFault) {
    if p.event !in queue then fault == EventNotFound
    else
      var exact := queue[p.event].exact;
      if !Contested(p, queue) then fault == ExactConflictRequired
      else if forall s :: !Closes(conflicts, exact, s) then fault == GroupMissing
      else if !SelfContained(conflicts, exact) then fault == ExactConflictRequired
      else if !GroupsBound(p, exact) then fault == GroupSet
      else if !HashesBound(p, groups, exact) then fault == RawHashSet
      else if !SupplementsBound(p, supplements, exact) then fault == SupplementSet
      else if p.supplements == [] then fault == SupplementRequired
      else fault == EventIdentity && !IdentityBound(p, exact)
  }

  lemma ExactSetIff<T>(values: seq<T>, expected: set<T>)
    ensures ExactSet(values, expected) <==> NoDuplicates(values) && forall x :: x in values <==> x in expected
  {
    if ExactSet(values, expected) {
      assert forall x :: x in values <==> x in Elements(values);
    }
  }

  /** What the checks of a proposal say. */
  lemma BoundIff(p: Proposal, groups: Groups, supplements: seq<Supplement>, exact: set<GroupId>)
    ensures ExactSet(p.groups, exact) <==> GroupsBound(p, exact)
    ensures ExactSet(p.hashes, HashesIn(groups, exact)) <==> HashesBound(p, groups, exact)
    ensures ExactSet(p.supplements, LinkedTo(supplements, p.event, exact)) <==> SupplementsBound(p, supplements, exact)
    ensures SupplementsBound(p, supplements, exact) ==> (LinkedTo(supplements, p.event, exact) == {} <==> p.supplements == [])
  {
    hide ExactSet, NoDuplicates;
    ExactSetIff(p.groups, exact);
    ExactSetIff(p.hashes, HashesIn(groups, exact));
    ExactSetIff(p.supplements, LinkedTo(supplements, p.event, exact));
    FirstIsMember(p.supplements);
    forall h
      ensures h in LinkedTo(supplements, p.event, exact) <==> Supplements(supplements, p.event, exact, h)
    {}
  }

  lemma SelfContainedIff(conflicts: Conflicts, exact: set<GroupId>)
    ensures SelfContained(conflicts, exact) <==>
            ClosedUnder(conflicts, exact) && exists g :: g in exact && g in conflicts && conflicts[g] != {}
  {
    if g :| g in exact && g in conflicts && conflicts[g] != {} {
      var other :| other in conflicts[g];
    }
  }

  /** _closure: the proposal names an audited event whose exact groups conflict, and binds exactly
      the groups, rows and supplements of their conflict closure; otherwise the first fault is reported.
      A group is missing exactly if the table has no conflict-closed set around the exact groups. */
  method CheckClosure(p: Proposal, queue: Queue, groups: Groups, conflicts: Conflicts, supplements: seq<Supplement>)
    returns (fault: Option<RevisionFault>)
    ensures fault.None? <==> Binds(p, queue, groups, conflicts, supplements)
    ensures fault.Some? ==> IsFault(p, queue, groups, conflicts, supplements, fault.value)
  {
    hide ConflictsOf, HashesIn, LinkedTo, ExactSet, SelfContained, GroupsBound, HashesBound, SupplementsBound, Closes, Needed, ClosedUnder;
    if p.event !in queue {
      return Some(EventNotFound);
    }
    var exact := queue[p.event].exact;
    SeveralIff(exact);
    if !p.event.AuditEvent? || |exact| < 2 {
      return Some(ExactConflictRequired);
    }
    var closed := ConflictClosure(conflicts, exact);
    SelfContainedIff(conflicts, exact);
    if closed.Err? {
      if ClosedUnder(conflicts, exact) {
        ClosedCloses(conflicts, exact);
      }
      return Some(GroupMissing);
    }
    var closure := closed.value;
    assert exists s :: Closes(conflicts, exact, s);
    LeastIsStart(conflicts, exact, closure);
    if !(exists g | g in exact :: g in conflicts && conflicts[g] != {}) || closure != exact {
      return Some(ExactConflictRequired);
    }
    BoundIff(p, groups, supplements, exact);
    if !ExactSet(p.groups, closure) {
      return Some(GroupSet);
    }
    if !ExactSet(p.hashes, HashesIn(groups, closure)) {
      return Some(RawHashSet);
    }
    var linked := LinkedTo(supplements, p.event, closure);
    if !ExactSet(p.supplements, linked) {
      return Some(SupplementSet);
    }
    if linked == {} {
      return Some(SupplementRequired);
    }
    assert forall g :: g in exact <==> g in p.groups by { BoundGroups(p, exact); }
    if exists g | g in p.groups :: !SameIdentity(p, g) {
      return Some(EventIdentity);
    }
    return None;
  }

  lemma ClosedCloses(conflicts: Conflicts, exact: set<GroupId>)
    requires ClosedUnder(conflicts, exact)
    ensures Closes(conflicts, exact, exact)
  {}

  lemma BoundGroups(p: Proposal, exact: set<GroupId>)
    requires GroupsBound(p, exact)
    ensures forall g :: g in exact <==> g in p.groups
  {}

  /** No provider group outside an accepted proposal disagrees with one inside it, whichever groups
      the table leaves out. */
  lemma AcceptedBindsAllConflicts(p: Proposal, queue: Queue, groups: Groups, conflicts: Conflicts, supplements: seq<Supplement>,
      provider: Groups, g: GroupId, other: GroupId)
    requires Binds(p, queue, groups, conflicts, supplements) && Publishes(conflicts, provider)
    requires g in p.groups && other in provider && other !in p.groups
    ensures !Conflict(g, other) && !Conflict(other, g)
  {
    hide HashesBound, SupplementsBound, IdentityBound, NoDuplicates;
    assert other !in ConflictsOf(provider.Keys, g);
  }
}
