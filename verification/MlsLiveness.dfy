/**
 Agreement under reliable broadcast: after every membership operation the queue is flushed. Every
 reachable state has all active members on one history, unless a join hits the early return between
 the coordinator's merge and the delivery of its commit while other members are present.
 */
module MlsLiveness {
  import opened Wrappers
  import opened MlsModel

  /** One operation of a run, with what the library does during it. */
  datatype Op =
    | JoinOp(joiner: nat, joinLib: JoinLib)
    | AddOp(adder: nat, addee: nat, addLib: AddLib)
    | UpdateOp(member: nat, updated: bool)
    | LeaveOp(leaver: nat, removed: bool)

  function Apply(s: State, op: Op): State
    requires s.Valid()
  {
    match op
    case JoinOp(joiner, lib) => Join(s, joiner, lib)
    case AddOp(adder, addee, lib) => AddMember(s, adder, addee, lib)
    case UpdateOp(member, updated) => Update(s, member, updated)
    case LeaveOp(leaver, removed) => Remove(s, leaver, removed)
  }

  lemma {:induction false} ApplyKeepsValid(s: State, op: Op)
    requires s.Valid()
    ensures Apply(s, op).Valid()
  {
    match op
    case JoinOp(joiner, lib) => JoinKeepsValid(s, joiner, lib);
    case AddOp(adder, addee, lib) => AddMemberKeepsValid(s, adder, addee, lib);
    case UpdateOp(member, updated) => UpdateKeepsValid(s, member, updated);
    case LeaveOp(leaver, removed) => RemoveKeepsValid(s, leaver, removed);
  }

  /** One round of the run: an operation, then every queued commit to everyone. */
  function Round(s: State, op: Op): (t: State)
    requires s.Valid()
    ensures t.Valid() && t.pending == []
  {
    ApplyKeepsValid(s, op);
    DeliverAllKeepsValid(Apply(s, op));
    DeliverAll(Apply(s, op))
  }

  function Run(s: State, ops: seq<Op>): (t: State)
    requires s.Valid()
    ensures t.Valid()
  {
    if ops == [] then s else Round(Run(s, ops[..|ops| - 1]), ops[|ops| - 1])
  }

  /** What the run asserts after each round: no two active members disagree. */
  ghost predicate AllConverged(s: State) {
    forall i, j | i in s.active && j in s.active :: s.HistoryOf(i) == s.HistoryOf(j)
  }

  /** A converged state between rounds. */
  ghost predicate Settled(s: State) {
    s.Valid() && s.excluded.None? && s.pending == [] && AllConverged(s)
  }

  /** The guard of the branch that loses a commit: merged by the coordinator, never delivered. */
  predicate LosesCommit(s: State, op: Op)
    requires s.Valid()
  {
    op.JoinOp? && JoinProceeds(s, op.joiner) && op.joinLib.committed && !op.joinLib.bundleComplete
  }

  /** A round divides the group exactly when the coordinator's commit is lost and someone else is there. */
  predicate Splits(s: State, op: Op)
    requires s.Valid()
  {
    LosesCommit(s, op) && |s.active| >= 2
  }

  // ----- One round -----

  /** A commit by one member of a settled group, sent to the rest, is applied by everybody. */
  lemma {:induction false} CommitAndSend(s: State, committer: nat)
    requires s.Valid() && s.excluded.None? && AllConverged(s) && committer in s.active
    ensures var (s1, msg) := s.CommitBy(committer);
            var s2 := s1.Send({committer}, msg);
            s2.Valid() && s2.active == s.active && s2.pending == s.pending && s2.excluded.None?
            && AllConverged(s2) && (forall i | i in s.active :: s2.HistoryOf(i) == msg.base + [msg.id])
  {
    CommitByKeepsValid(s, committer);
    var (s1, msg) := s.CommitBy(committer);
    SendKeepsValid(s1, {committer}, msg);
    var s2 := s1.Send({committer}, msg);
    forall i | i in s.active
      ensures s2.HistoryOf(i) == msg.base + [msg.id]
    {
      assert s.HistoryOf(i) == s.HistoryOf(committer);
      assert s2.groups[i] == if s1.Reaches(i, {committer}) then Decrypt(s1.groups[i], msg) else s1.groups[i];
    }
  }

  /** An external commit built on the common history is applied by everybody. */
  lemma {:induction false} SendToAll(s: State, msg: Commit)
    requires s.Valid() && s.excluded.None?
    requires forall i | i in s.active :: s.HistoryOf(i) == msg.base
    ensures var t := s.Send({}, msg);
            t.Valid() && t.active == s.active && t.pending == s.pending && t.excluded.None?
            && forall i | i in s.active :: t.HistoryOf(i) == msg.base + [msg.id]
  {
    SendKeepsValid(s, {}, msg);
    var t := s.Send({}, msg);
    forall i | i in s.active
      ensures t.HistoryOf(i) == msg.base + [msg.id]
    {
      assert s.Reaches(i, {}) && t.groups[i] == Decrypt(s.groups[i], msg);
    }
  }

  /** A newcomer holding the common history keeps the group in agreement. */
  lemma {:induction false} EnrollConverges(s: State, i: nat, h: History, leaf: Option<nat>)
    requires s.Valid() && i < |s.groups| && i !in s.active
    requires forall j | j in s.active :: s.HistoryOf(j) == h
    ensures AllConverged(s.Enroll(i, h, leaf))
  {
    var t := s.Enroll(i, h, leaf);
    forall j | j in t.active
      ensures t.HistoryOf(j) == h
    {
      if j != i {
        assert j in s.active;
      }
    }
  }

  /** Alone in the group, the coordinator agrees with itself whatever it commits. */
  lemma {:induction false} LoneCommitSettles(s: State)
    requires s.Valid() && |s.active| == 1
    ensures AllConverged(s.CommitBy(s.active[0]).0)
  {
  }

  /** The joiner's external commit, sent to everybody, and the joiner's enrolment. */
  lemma {:induction false} ExternalJoinConverges(s: State, joiner: nat, base: History, leaf: Option<nat>)
    requires s.Valid() && s.excluded.None? && joiner < |s.groups| && joiner !in s.active
    requires forall i | i in s.active :: s.HistoryOf(i) == base
    ensures var external := Commit(base, s.nextId);
            AllConverged(s.(nextId := s.nextId + 1).Send({}, external).Enroll(joiner, base + [external.id], leaf))
  {
    var external, next := Commit(base, s.nextId), s.(nextId := s.nextId + 1);
    assert forall i | i in next.active :: next.HistoryOf(i) == s.HistoryOf(i);
    SendToAll(next, external);
    EnrollConverges(next.Send({}, external), joiner, base + [external.id], leaf);
  }

  lemma {:induction false} CompleteJoinConverges(s: State, raw: nat, lib: JoinLib)
    requires Settled(s) && JoinProceeds(s, raw) && lib.committed && lib.bundleComplete
    ensures AllConverged(Join(s, raw, lib))
  {
    var coordinator := s.active[0];
    CommitAndSend(s, coordinator);
    var (s1, update) := s.CommitBy(coordinator);
    if lib.joined {
      ExternalJoinConverges(s1.Send({coordinator}, update), s.Norm(raw), update.base + [update.id], lib.leaf);
    }
  }

  lemma {:induction false} JoinSettles(s: State, raw: nat, lib: JoinLib)
    requires Settled(s) && !Splits(s, JoinOp(raw, lib))
    ensures Settled(Join(s, raw, lib))
  {
    JoinKeepsValid(s, raw, lib);
    if JoinProceeds(s, raw) && lib.committed {
      if lib.bundleComplete {
        CompleteJoinConverges(s, raw, lib);
      } else {
        LoneCommitSettles(s);
      }
    }
  }

  lemma {:induction false} AddSettles(s: State, adderRaw: nat, addeeRaw: nat, lib: AddLib)
    requires Settled(s)
    ensures Settled(AddMember(s, adderRaw, addeeRaw, lib))
  {
    AddMemberKeepsValid(s, adderRaw, addeeRaw, lib);
    if AddProceeds(s, adderRaw, addeeRaw) && lib.keyPackage && lib.committed {
      var adder := s.Norm(adderRaw);
      CommitAndSend(s, adder);
      var (s1, add) := s.CommitBy(adder);
      if lib.bundleComplete && lib.joined {
        EnrollConverges(s1.Send({adder}, add), s.Norm(addeeRaw), add.base + [add.id], lib.leaf);
      }
    }
  }

  lemma {:induction false} LeaveSettles(s: State, raw: nat, committed: bool)
    requires Settled(s)
    ensures Settled(Remove(s, raw, committed))
  {
    RemoveKeepsValid(s, raw, committed);
    if RemoveProceeds(s, raw) && committed {
      var coordinator, target := s.active[0], s.Norm(raw);
      CommitAndSend(s, coordinator);
      var (s1, removal) := s.CommitBy(coordinator);
      var s2 := s1.Send({coordinator}, removal);
      WithoutMeaning(s2.active, target);
      var t := Evict(s2, target);
      forall i, j | i in t.active && j in t.active
        ensures t.HistoryOf(i) == t.HistoryOf(j)
      {
        assert t.HistoryOf(i) == s2.HistoryOf(i) && t.HistoryOf(j) == s2.HistoryOf(j);
      }
    }
  }

  /** An update is queued rather than sent; the flush that follows sends it. */
  lemma {:induction false} UpdateSettles(s: State, raw: nat, committed: bool)
    requires Settled(s)
    ensures Settled(DeliverAll(Update(s, raw, committed)))
  {
    UpdateKeepsValid(s, raw, committed);
    var m := s.Norm(raw);
    if m in s.active && committed {
      CommitAndSend(s, m);
      var (s1, update) := s.CommitBy(m);
      var queued := Update(s, raw, committed);
      var sent := s1.Send({m}, update);
      DeliverNextKeepsValid(queued);
      var t := DeliverNext(queued);
      assert queued.(pending := queued.pending[1..]) == s1;
      assert t == sent.(history := sent.history + [QueuedMsg(m, update)]);
      assert forall i :: t.HistoryOf(i) == sent.HistoryOf(i);
      assert DeliverAll(queued) == DeliverAll(t) == t;
    }
  }

  lemma {:induction false} RoundSettles(s: State, op: Op)
    requires Settled(s) && !Splits(s, op)
    ensures Settled(Round(s, op))
  {
    match op
    case JoinOp(joiner, lib) => JoinSettles(s, joiner, lib);
    case AddOp(adder, addee, lib) => AddSettles(s, adder, addee, lib);
    case UpdateOp(member, updated) => UpdateSettles(s, member, updated);
    case LeaveOp(leaver, removed) => LeaveSettles(s, leaver, removed);
  }

  lemma {:induction false} SplitRoundDiverges(s: State, op: Op)
    requires Settled(s) && Splits(s, op)
    ensures !AllConverged(Round(s, op))
  {
    var t := Apply(s, op);
    var coordinator, other := s.active[0], s.active[1];
    assert t.pending == [] && Round(s, op) == t;
    assert s.HistoryOf(coordinator) == s.HistoryOf(other);
    assert |t.HistoryOf(coordinator)| == |t.HistoryOf(other)| + 1;
  }

  // ----- Whole runs -----

  /** The run passes its assertion at the start and after every round. */
  ghost predicate ConvergedThroughout(s: State, ops: seq<Op>)
    requires s.Valid()
  {
    AllConverged(Run(s, ops)) && (ops != [] ==> ConvergedThroughout(s, ops[..|ops| - 1]))
  }

  /** No round of the run meets the losing branch with another member present. */
  predicate NeverSplits(s: State, ops: seq<Op>)
    requires s.Valid()
  {
    ops == [] || (NeverSplits(s, ops[..|ops| - 1]) && !Splits(Run(s, ops[..|ops| - 1]), ops[|ops| - 1]))
  }

  lemma {:induction false} UnsplitRunSettles(s: State, ops: seq<Op>)
    requires Settled(s) && NeverSplits(s, ops)
    ensures Settled(Run(s, ops))
  {
    if ops != [] {
      UnsplitRunSettles(s, ops[..|ops| - 1]);
      RoundSettles(Run(s, ops[..|ops| - 1]), ops[|ops| - 1]);
    }
  }

  /** For every run and every library behaviour: agreement throughout, exactly when no round splits. */
  lemma {:induction false} AgreementOverRuns(s: State, ops: seq<Op>)
    requires Settled(s)
    ensures ConvergedThroughout(s, ops) <==> NeverSplits(s, ops)
  {
    if ops != [] {
      var front, last := ops[..|ops| - 1], ops[|ops| - 1];
      AgreementOverRuns(s, front);
      if NeverSplits(s, front) {
        UnsplitRunSettles(s, front);
        if Splits(Run(s, front), last) {
          SplitRoundDiverges(Run(s, front), last);
        } else {
          RoundSettles(Run(s, front), last);
        }
      }
    }
  }

  /** The environment as the run starts it: `n` clients, then client 0 creates the group. */
  function Fresh(n: nat): State {
    State(seq(n, _ => None), seq(n, _ => None), [], [], [], None, [], 0)
  }

  lemma {:induction false} FreshIsSettled(n: nat, lib: CreateLib)
    requires 1 <= n <= 8
    ensures Fresh(n).Valid() && Settled(CreateGroup(Fresh(n), 0, lib))
  {
    CreateGroupKeepsValid(Fresh(n), 0, lib);
  }

  /** Adding a member when nothing goes wrong. */
  lemma {:induction false} MemberAdded(s: State, adderRaw: nat, addeeRaw: nat, lib: AddLib)
    requires Settled(s) && AddProceeds(s, adderRaw, addeeRaw)
    requires lib.keyPackage && lib.committed && lib.bundleComplete && lib.joined
    ensures var t := AddMember(s, adderRaw, addeeRaw, lib);
            && Settled(t) && t.active == s.active + [s.Norm(addeeRaw)] && |t.groups| == |s.groups|
            && t.nextId == s.nextId + 1
            && forall i | i in t.active :: t.HistoryOf(i) == s.HistoryOf(s.Norm(adderRaw)) + [s.nextId]
  {
    AddSettles(s, adderRaw, addeeRaw, lib);
    var t := AddMember(s, adderRaw, addeeRaw, lib);
    assert s.Norm(addeeRaw) in t.active;
    assert t.HistoryOf(s.Norm(addeeRaw)) == s.HistoryOf(s.Norm(adderRaw)) + [s.nextId];
  }

  /** A concrete run that the losing branch divides: one member added, then a join whose bundle is incomplete. */
  lemma {:induction false} IncompleteBundleDivides()
    ensures var created := CreateGroup(Fresh(8), 0, CreateLib(true, Some(0)));
            && created.Valid()
            && var two := Round(created, AddOp(0, 1, AddLib(true, true, true, true, Some(1))));
               !AllConverged(Round(two, JoinOp(2, JoinLib(true, false, false, None))))
  {
    FreshIsSettled(8, CreateLib(true, Some(0)));
    var created := CreateGroup(Fresh(8), 0, CreateLib(true, Some(0)));
    assert created.active == [0] && |created.groups| == 8;
    var lib := AddLib(true, true, true, true, Some(1));
    MemberAdded(created, 0, 1, lib);
    var two := Round(created, AddOp(0, 1, lib));
    assert two == AddMember(created, 0, 1, lib);
    SplitRoundDiverges(two, JoinOp(2, JoinLib(true, false, false, None)));
  }
}
