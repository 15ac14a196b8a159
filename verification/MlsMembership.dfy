/**
 Who is in the group: the change each operation makes to the members and their leaves, for every
 library behaviour, whatever histories, queues and backlogs look like.
 */
module MlsMembership {
  import opened Wrappers
  import opened MlsModel
  import opened MlsLiveness

  // ----- One operation -----

  /** The creator of a group is alone in it, at its start; a group that exists is not created again. */
  lemma {:induction false} GroupCreated(s: State, raw: nat, lib: CreateLib)
    requires s.Valid()
    ensures var host, t := raw % |s.groups|, CreateGroup(s, raw, lib);
            if s.active == [] && lib.created
            then t.active == [host] && (forall i :: t.HistoryOf(i) == []) && t.leafOf == s.leafOf[host := lib.leaf]
            else t == s
  {
    if s.active == [] {
      assert forall i | 0 <= i < |s.groups| :: s.groups[i].None?;
    }
  }

  /**
   A removal takes its target, and nobody else, out of the group, and the target may join again; it happens exactly
   when the target is a member with a known leaf, not the coordinator, not offline, and the commit succeeds.
   */
  lemma {:induction false} RemovedLeaves(s: State, raw: nat, committed: bool)
    requires s.Valid()
    ensures var target, t := raw % |s.groups|, Remove(s, raw, committed);
            if |s.active| >= 2 && target in s.active && target != s.active[0] && s.excluded != Some(target)
               && s.leafOf[target].Some? && committed
            then
              && (forall i :: i in t.active <==> i in s.active && i != target)
              && |t.active| == |s.active| - 1 && t.active[0] == s.active[0]
              && t.groups[target].None? && t.leafOf == s.leafOf[target := None]
              && JoinProceeds(t, raw)
            else t == s
  {
    if RemoveProceeds(s, raw) && committed {
      WithoutMeaning(s.active, s.Norm(raw));
      WithoutLength(s.active, s.Norm(raw));
    }
  }

  lemma {:induction false} WithoutLength(active: seq<nat>, target: nat)
    requires NoDuplicates(active)
    ensures |Without(active, target)| == if target in active then |active| - 1 else |active|
    ensures active != [] && active[0] != target ==>
              Without(active, target) != [] && Without(active, target)[0] == active[0]
  {
    if active != [] {
      var rest := active[1..];
      assert forall k | 0 <= k < |rest| :: rest[k] == active[k + 1];
      assert active == [active[0]] + rest;
      WithoutLength(rest, target);
    }
  }

  /** In a settled group everybody who stays moves on to the coordinator's next history. */
  lemma {:induction false} MemberRemoved(s: State, raw: nat)
    requires Settled(s) && RemoveProceeds(s, raw)
    ensures var t := Remove(s, raw, true);
            && Settled(t)
            && forall i | i in t.active :: t.HistoryOf(i) == s.HistoryOf(s.active[0]) + [s.nextId]
  {
    LeaveSettles(s, raw, true);
    RemovedLeaves(s, raw, true);
    var t := Remove(s, raw, true);
    assert t.active[0] in t.active && t.HistoryOf(t.active[0]) == s.HistoryOf(s.active[0]) + [s.nextId];
  }

  /** Joining by external commit when nothing goes wrong: two commits later everybody agrees, the joiner included. */
  lemma {:induction false} MemberJoined(s: State, raw: nat, lib: JoinLib)
    requires Settled(s) && JoinProceeds(s, raw) && lib.committed && lib.bundleComplete && lib.joined
    ensures var t, joiner := Join(s, raw, lib), s.Norm(raw);
            && Settled(t) && t.active == s.active + [joiner] && t.leafOf == s.leafOf[joiner := lib.leaf]
            && t.nextId == s.nextId + 2
            && forall i | i in t.active :: t.HistoryOf(i) == s.HistoryOf(s.active[0]) + [s.nextId, s.nextId + 1]
  {
    JoinSettles(s, raw, lib);
    var t, joiner := Join(s, raw, lib), s.Norm(raw);
    assert joiner in t.active;
    assert t.HistoryOf(joiner) == s.HistoryOf(s.active[0]) + [s.nextId, s.nextId + 1];
  }

  /** An update, once flushed, puts everybody on its author's next history. */
  lemma {:induction false} MemberUpdated(s: State, raw: nat)
    requires Settled(s) && s.Norm(raw) in s.active
    ensures var t := DeliverAll(Update(s, raw, true));
            && Settled(t) && t.active == s.active && t.leafOf == s.leafOf
            && forall i | i in t.active :: t.HistoryOf(i) == s.HistoryOf(s.Norm(raw)) + [s.nextId]
  {
    UpdateSettles(s, raw, true);
    var queued := Update(s, raw, true);
    var t := DeliverAll(queued);
    assert DeliverAll(queued) == DeliverAll(DeliverNext(queued)) == DeliverNext(queued);
    assert s.Norm(raw) in t.active && t.HistoryOf(s.Norm(raw)) == s.HistoryOf(s.Norm(raw)) + [s.nextId];
  }

  /** A flush keeps the queued messages, in order, at the end of the delivery history. */
  lemma {:induction false} FlushIsRecorded(s: State)
    ensures var t := DeliverAll(s);
            && t.pending == [] && t.history == s.history + s.pending
            && t.active == s.active && t.leafOf == s.leafOf && |t.groups| == |s.groups|
            && t.nextId == s.nextId && t.excluded == s.excluded
    decreases |s.pending|
  {
    if s.pending != [] {
      FlushIsRecorded(DeliverNext(s));
      assert s.pending == [s.pending[0]] + s.pending[1..];
    }
  }

  // ----- Whole runs -----

  /** The members seen from outside: the coordinator, the others in no order, and the leaves known. */
  datatype Roster = Roster(clients: nat, coordinator: Option<nat>, others: set<nat>, leaves: map<nat, nat>)
  {
    predicate Has(i: nat) { coordinator == Some(i) || i in others }

    function Admitted(i: nat, leaf: Option<nat>): Roster {
      Roster(clients, coordinator, others + {i}, if leaf.Some? then leaves[i := leaf.value] else leaves - {i})
    }
  }

  function RosterOf(s: State): Roster {
    Roster(
      |s.groups|,
      if s.active == [] then None else Some(s.active[0]),
      set i | i in s.active && i != s.active[0],
      map i | 0 <= i < |s.leafOf| && s.leafOf[i].Some? :: s.leafOf[i].value)
  }

  /** What an operation does to the roster while `away`, if any, is offline. */
  function Changed(r: Roster, away: Option<nat>, op: Op): Roster
    requires r.clients > 0
  {
    match op
    case JoinOp(raw, lib) =>
      var joiner := raw % r.clients;
      if r.coordinator.Some? && !r.Has(joiner) && lib.committed && lib.bundleComplete && lib.joined
      then r.Admitted(joiner, lib.leaf) else r
    case AddOp(adder, addee, lib) =>
      if r.Has(adder % r.clients) && !r.Has(addee % r.clients)
         && lib.keyPackage && lib.committed && lib.bundleComplete && lib.joined
      then r.Admitted(addee % r.clients, lib.leaf) else r
    case UpdateOp(_, _) => r
    case LeaveOp(raw, committed) =>
      var target := raw % r.clients;
      if target in r.others && target in r.leaves && away != Some(target) && committed
      then r.(others := r.others - {target}, leaves := r.leaves - {target}) else r
  }

  lemma {:induction false} RosterHas(s: State, i: nat)
    requires s.Valid()
    ensures RosterOf(s).Has(i) <==> i in s.active
  {
  }

  lemma {:induction false} EnrollChanges(s: State, s2: State, i: nat, h: History, leaf: Option<nat>)
    requires s.Valid() && i < |s.groups| && i !in s.active && s.active != []
    requires s2.active == s.active && s2.leafOf == s.leafOf && |s2.groups| == |s.groups|
    ensures RosterOf(s2.Enroll(i, h, leaf)) == RosterOf(s).Admitted(i, leaf)
  {
    var t := s2.Enroll(i, h, leaf);
    assert t.active[0] == s.active[0];
    assert forall j :: j in t.active <==> j in s.active || j == i;
    assert RosterOf(t).others == RosterOf(s).others + {i};
    assert RosterOf(t).leaves == RosterOf(s).Admitted(i, leaf).leaves;
  }

  lemma {:induction false} JoinChanges(s: State, raw: nat, lib: JoinLib)
    requires s.Valid()
    ensures RosterOf(Join(s, raw, lib)) == Changed(RosterOf(s), s.excluded, JoinOp(raw, lib))
  {
    var joiner := s.Norm(raw);
    RosterHas(s, joiner);
    if JoinProceeds(s, raw) && lib.committed && lib.bundleComplete && lib.joined {
      var (s1, update) := s.CommitBy(s.active[0]);
      var s2 := s1.Send({s.active[0]}, update);
      var base := update.base + [update.id];
      var s3 := s2.(nextId := s2.nextId + 1).Send({}, Commit(base, s2.nextId));
      EnrollChanges(s, s3, joiner, base + [s2.nextId], lib.leaf);
    }
  }

  lemma {:induction false} AddChanges(s: State, adder: nat, addee: nat, lib: AddLib)
    requires s.Valid()
    ensures RosterOf(AddMember(s, adder, addee, lib)) == Changed(RosterOf(s), s.excluded, AddOp(adder, addee, lib))
  {
    RosterHas(s, s.Norm(adder));
    RosterHas(s, s.Norm(addee));
    if AddProceeds(s, adder, addee) && lib.keyPackage && lib.committed && lib.bundleComplete && lib.joined {
      var (s1, add) := s.CommitBy(s.Norm(adder));
      EnrollChanges(s, s1.Send({s.Norm(adder)}, add), s.Norm(addee), add.base + [add.id], lib.leaf);
    }
  }

  lemma {:induction false} LeaveChanges(s: State, raw: nat, committed: bool)
    requires s.Valid()
    ensures RosterOf(Remove(s, raw, committed)) == Changed(RosterOf(s), s.excluded, LeaveOp(raw, committed))
  {
    var t, target := Remove(s, raw, committed), s.Norm(raw);
    RemovedLeaves(s, raw, committed);
    RosterHas(s, target);
    if target in RosterOf(s).others && committed {
      OtherThanFirst(s.active, target);
      if s.leafOf[target].Some? && s.excluded != Some(target) {
        assert RosterOf(t).others == RosterOf(s).others - {target};
        assert RosterOf(t).leaves == RosterOf(s).leaves - {target};
      }
    }
  }

  lemma {:induction false} OtherThanFirst(active: seq<nat>, i: nat)
    requires i in active && i != active[0]
    ensures |active| >= 2
  {
  }

  /** One round of a run changes the roster exactly as the operation says; the flush leaves it alone. */
  lemma {:induction false} RoundChanges(s: State, op: Op)
    requires s.Valid()
    ensures RosterOf(Round(s, op)) == Changed(RosterOf(s), s.excluded, op) && Round(s, op).excluded == s.excluded
  {
    FlushIsRecorded(Apply(s, op));
    match op
    case JoinOp(joiner, lib) => JoinChanges(s, joiner, lib);
    case AddOp(adder, addee, lib) => AddChanges(s, adder, addee, lib);
    case UpdateOp(_, _) =>
    case LeaveOp(leaver, removed) => LeaveChanges(s, leaver, removed);
  }

  /** The roster after a sequence of operations, computed from the roster alone. */
  function RosterAfter(r: Roster, away: Option<nat>, ops: seq<Op>): (t: Roster)
    requires r.clients > 0
    ensures t.clients == r.clients && t.coordinator == r.coordinator
  {
    if ops == [] then r else Changed(RosterAfter(r, away, ops[..|ops| - 1]), away, ops[|ops| - 1])
  }

  /**
   Over every run and library behaviour, divided or not, the members and their leaves are those of the roster: no join
   or removal is lost, nobody else enters or leaves, and the coordinator never changes.
   */
  lemma {:induction false} RosterOverRuns(s: State, ops: seq<Op>)
    requires s.Valid()
    ensures RosterOf(Run(s, ops)) == RosterAfter(RosterOf(s), s.excluded, ops)
    ensures Run(s, ops).excluded == s.excluded
    ensures forall i :: i in Run(s, ops).active <==> RosterAfter(RosterOf(s), s.excluded, ops).Has(i)
  {
    if ops != [] {
      var front := ops[..|ops| - 1];
      RosterOverRuns(s, front);
      RoundChanges(Run(s, front), ops[|ops| - 1]);
    }
  }
}
