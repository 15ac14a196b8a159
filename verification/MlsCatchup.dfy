/**
 Catching up after being offline. While every commit is made by an up-to-date member, and immediate
 operations only with an empty queue, the backlog is exactly the missing suffix of one canonical
 chain, so replaying it in order ends in agreement.
 */
module MlsCatchup {
  import opened Wrappers
  import opened MlsModel
  import opened MlsLiveness

  // ----- The canonical chain -----

  /** The commits that lead from the first `from` entries of a chain to its first `to` entries. */
  function Entries(chain: History, from: nat, to: nat): (msgs: seq<Commit>)
    requires from <= to <= |chain|
    ensures |msgs| == to - from
  {
    seq(to - from, j requires 0 <= j < to - from => Commit(chain[..from + j], chain[from + j]))
  }

  lemma {:induction false} EntriesJoin(chain: History, from: nat, mid: nat, to: nat)
    requires from <= mid <= to <= |chain|
    ensures Entries(chain, from, mid) + Entries(chain, mid, to) == Entries(chain, from, to)
  {
  }

  lemma {:induction false} EntriesExtend(chain: History, id: CommitId, from: nat, to: nat)
    requires from <= to <= |chain|
    ensures Entries(chain + [id], from, to) == Entries(chain, from, to)
    ensures Entries(chain + [id], |chain|, |chain| + 1) == [Commit(chain, id)]
  {
    forall j | 0 <= j < to - from
      ensures Entries(chain + [id], from, to)[j] == Entries(chain, from, to)[j]
    {
      assert (chain + [id])[..from + j] == chain[..from + j];
    }
    assert (chain + [id])[..|chain|] == chain;
  }

  lemma {:induction false} ReplayEntries(chain: History, from: nat, to: nat)
    requires from <= to <= |chain|
    ensures Replay(chain[..from], Entries(chain, from, to)) == Some(chain[..to])
    decreases |chain| - from
  {
    if from < to {
      ReplayEntries(chain, from + 1, to);
      assert Entries(chain, from, to)[1..] == Entries(chain, from + 1, to);
      assert chain[..from] + [chain[from]] == chain[..from + 1];
    }
  }

  function Queue(who: nat, msgs: seq<Commit>): (q: seq<QueuedMsg>)
    ensures |q| == |msgs|
  {
    seq(|msgs|, j requires 0 <= j < |msgs| => QueuedMsg(who, msgs[j]))
  }

  /** How far the members that have not issued the queued commits have come. */
  function DeliveredTo(s: State, chain: History): History {
    if |s.pending| <= |chain| then chain[..|chain| - |s.pending|] else []
  }

  /**
   One canonical chain while `late` is offline: the queue holds its last commits, all issued by `who`;
   everyone else has applied all but those; and `late` is missing exactly the backlog.
   */
  ghost predicate OnChain(s: State, chain: History, late: nat, who: nat) {
    && s.Valid() && Away(s, late)
    && QueueOnChain(s, chain, who)
    && MembersOnChain(s, chain, late, who)
    && LateOnChain(s, chain, late, who)
    && (forall id | id in chain :: id < s.nextId)
  }

  ghost predicate Away(s: State, late: nat) {
    s.excluded == Some(late) && late in s.active && s.active[0] != late
  }

  ghost predicate QueueOnChain(s: State, chain: History, who: nat) {
    && |s.pending| <= |chain|
    && (s.pending != [] ==> who in s.active)
    && s.pending == Queue(who, Entries(chain, |chain| - |s.pending|, |chain|))
  }

  ghost predicate MembersOnChain(s: State, chain: History, late: nat, who: nat) {
    forall i | i in s.active && i != late ::
      s.HistoryOf(i) == if s.pending != [] && i == who then chain else DeliveredTo(s, chain)
  }

  ghost predicate LateOnChain(s: State, chain: History, late: nat, who: nat) {
    if s.pending != [] && who == late then
      s.HistoryOf(late) == chain && s.backlog == []
    else
      && |s.HistoryOf(late)| <= |DeliveredTo(s, chain)| <= |chain|
      && s.HistoryOf(late) == chain[..|s.HistoryOf(late)|]
      && s.backlog == Entries(chain, |s.HistoryOf(late)|, |DeliveredTo(s, chain)|)
  }

  /** Replaying the backlog accepts every entry and leaves `late` agreeing with every active member. */
  ghost predicate CatchesUp(s: State) {
    && s.excluded.Some?
    && var late := s.excluded.value;
       var reached := Replay(s.HistoryOf(late), s.backlog);
       && reached.Some?
       && forall i | i in s.active && i != late :: s.HistoryOf(i) == reached.value
  }

  // ----- The discipline -----

  /** Whether an operation makes a commit, and by whom. */
  predicate Commits(s: State, op: Op)
    requires s.Valid()
  {
    match op
    case JoinOp(joiner, lib) => JoinProceeds(s, joiner) && lib.committed
    case AddOp(adder, addee, lib) => AddProceeds(s, adder, addee) && lib.keyPackage && lib.committed
    case UpdateOp(member, updated) => s.Norm(member) in s.active && updated
    case LeaveOp(leaver, removed) => RemoveProceeds(s, leaver) && removed
  }

  function Committer(s: State, op: Op): nat
    requires s.Valid() && Commits(s, op)
  {
    match op
    case JoinOp(_, _) => s.active[0]
    case AddOp(adder, _, _) => s.Norm(adder)
    case UpdateOp(member, _) => s.Norm(member)
    case LeaveOp(_, _) => s.active[0]
  }

  /** Member `i` has applied every commit made so far: all queued ones are its own, and none was withheld from it. */
  predicate UpToDate(s: State, i: nat) {
    && (forall q | q in s.pending :: q.sender == i)
    && (s.excluded == Some(i) ==> s.backlog == [])
  }

  /** What a caller has to check before an operation: the issuer is up to date, only updates go behind a
      nonempty queue, and no join loses its commit. */
  predicate Disciplined(s: State, op: Op)
    requires s.Valid()
  {
    Commits(s, op) ==>
      UpToDate(s, Committer(s, op)) && (op.UpdateOp? || s.pending == []) && !LosesCommit(s, op)
  }

  // ----- Going offline starts a chain; delivery follows it -----

  lemma {:induction false} GoingOfflineStartsChain(s: State, raw: nat, chain: History)
    requires Settled(s) && SetExcluded(s, raw).excluded.Some?
    requires forall i | i in s.active :: s.HistoryOf(i) == chain
    requires forall id | id in chain :: id < s.nextId
    ensures OnChain(SetExcluded(s, raw), chain, s.Norm(raw), 0)
  {
    var t := SetExcluded(s, raw);
    assert chain[..|chain|] == chain;
    assert t.pending == Queue(0, Entries(chain, |chain|, |chain|));
    assert t.backlog == Entries(chain, |chain|, |chain|);
  }

  /** The queued message at the head is the next entry of the chain, and the rest stay queued. */
  lemma {:induction false} QueueHead(s: State, chain: History, late: nat, who: nat)
    requires OnChain(s, chain, late, who) && s.pending != []
    ensures var d := |chain| - |s.pending|;
            && s.pending[0] == QueuedMsg(who, Commit(chain[..d], chain[d]))
            && s.pending[1..] == Queue(who, Entries(chain, d + 1, |chain|))
            && chain[..d] + [chain[d]] == chain[..d + 1]
            && DeliveredTo(s, chain) == chain[..d]
  {
  }

  lemma {:induction false} DeliveryKeepsQueue(s: State, chain: History, late: nat, who: nat)
    requires OnChain(s, chain, late, who) && s.pending != []
    ensures QueueOnChain(DeliverNext(s), chain, who)
    ensures DeliveredTo(DeliverNext(s), chain) == chain[..|chain| - |s.pending| + 1]
  {
    QueueHead(s, chain, late, who);
  }

  lemma {:induction false} DeliveryReachesMembers(s: State, chain: History, late: nat, who: nat)
    requires OnChain(s, chain, late, who) && s.pending != []
    ensures MembersOnChain(DeliverNext(s), chain, late, who)
  {
    QueueHead(s, chain, late, who);
    DeliveryKeepsQueue(s, chain, late, who);
    var t, rest := DeliverNext(s), s.(pending := s.pending[1..]);
    assert chain[..|chain|] == chain;
    forall i | i in t.active && i != late
      ensures t.HistoryOf(i) == if i == who then chain else chain[..|chain| - |s.pending| + 1]
    {
      if i != who {
        assert rest.Reaches(i, {who}) && t.groups[i] == Decrypt(s.groups[i], s.pending[0].msg);
      }
    }
  }

  lemma {:induction false} DeliveryExtendsBacklog(s: State, chain: History, late: nat, who: nat)
    requires OnChain(s, chain, late, who) && s.pending != []
    ensures LateOnChain(DeliverNext(s), chain, late, who)
  {
    QueueHead(s, chain, late, who);
    DeliveryKeepsQueue(s, chain, late, who);
    var d := |chain| - |s.pending|;
    assert chain[..|chain|] == chain;
    if who != late {
      EntriesJoin(chain, |s.HistoryOf(late)|, d, d + 1);
      assert Entries(chain, d, d + 1) == [s.pending[0].msg];
    }
  }

  lemma {:induction false} DeliveryFollowsChain(s: State, chain: History, late: nat, who: nat)
    requires OnChain(s, chain, late, who)
    ensures OnChain(DeliverNext(s), chain, late, who)
  {
    DeliverNextKeepsValid(s);
    if s.pending != [] {
      DeliveryKeepsQueue(s, chain, late, who);
      DeliveryReachesMembers(s, chain, late, who);
      DeliveryExtendsBacklog(s, chain, late, who);
    }
  }

  lemma {:induction false} FlushFollowsChain(s: State, chain: History, late: nat, who: nat)
    requires OnChain(s, chain, late, who)
    ensures OnChain(DeliverAll(s), chain, late, who) && DeliverAll(s).pending == []
    decreases |s.pending|
  {
    if s.pending != [] {
      DeliveryFollowsChain(s, chain, late, who);
      FlushFollowsChain(DeliverNext(s), chain, late, who);
    }
  }

  /** With the queue flushed, the backlog is the missing suffix, and replaying it reaches the chain. */
  lemma {:induction false} ChainCatchesUp(s: State, chain: History, late: nat, who: nat)
    requires OnChain(s, chain, late, who) && s.pending == []
    ensures CatchesUp(s) && Replay(s.HistoryOf(late), s.backlog) == Some(chain)
    ensures s.HistoryOf(late) == chain[..|s.HistoryOf(late)|]
    ensures s.backlog == Entries(chain, |s.HistoryOf(late)|, |chain|)
  {
    assert chain[..|chain|] == chain;
    ReplayEntries(chain, |s.HistoryOf(late)|, |chain|);
  }

  // ----- Disciplined operations extend the chain -----

  /** An up-to-date member holds the whole chain. */
  lemma {:induction false} UpToDateHoldsChain(s: State, chain: History, late: nat, who: nat, a: nat)
    requires OnChain(s, chain, late, who) && a in s.active && UpToDate(s, a)
    ensures s.HistoryOf(a) == chain
    ensures s.pending != [] ==> a == who
  {
    assert chain[..|chain|] == chain;
    if s.pending != [] {
      assert s.pending[0] in s.pending;
      QueueHead(s, chain, late, who);
    } else if a == late {
      assert |Entries(chain, |s.HistoryOf(late)|, |chain|)| == 0;
    }
  }

  lemma {:induction false} UpdateExtendsChain(s: State, chain: History, late: nat, who: nat, op: Op)
    requires OnChain(s, chain, late, who) && op.UpdateOp? && Commits(s, op) && Disciplined(s, op)
    ensures OnChain(Apply(s, op), chain + [s.nextId], late, s.Norm(op.member))
  {
    UpdateKeepsValid(s, op.member, op.updated);
    var a, t := s.Norm(op.member), Apply(s, op);
    UpToDateHoldsChain(s, chain, late, who, a);
    QueueExtends(s, chain, late, who, a);
    assert t.pending == s.pending + [QueuedMsg(a, Commit(chain, s.nextId))];
    UpdateKeepsMembers(s, chain, late, who, a);
    UpdateKeepsLate(s, chain, late, who, a);
  }

  /** The state an update leaves: the issuer has moved on, and its commit waits at the end of the queue. */
  function Queued(s: State, a: nat): State
    requires a < |s.groups|
  {
    var (s1, msg) := s.CommitBy(a);
    s1.(pending := s1.pending + [QueuedMsg(a, msg)])
  }

  lemma {:induction false} QueuedDelivers(s: State, chain: History, a: nat)
    requires a < |s.groups| && |s.pending| <= |chain|
    ensures DeliveredTo(Queued(s, a), chain + [s.nextId]) == DeliveredTo(s, chain)
  {
    var d := |chain| - |s.pending|;
    assert (chain + [s.nextId])[..d] == chain[..d];
  }

  /** Queued but not delivered, an update moves its issuer and nobody else. */
  lemma {:induction false} UpdateKeepsMembers(s: State, chain: History, late: nat, who: nat, a: nat)
    requires OnChain(s, chain, late, who) && a in s.active && s.HistoryOf(a) == chain
    requires s.pending != [] ==> a == who
    ensures MembersOnChain(Queued(s, a), chain + [s.nextId], late, a)
  {
    QueuedDelivers(s, chain, a);
    forall i | i in s.active && i != late
      ensures Queued(s, a).HistoryOf(i) == if i == a then chain + [s.nextId] else DeliveredTo(s, chain)
    {
      assert i != a ==> Queued(s, a).groups[i] == s.groups[i];
    }
  }

  lemma {:induction false} UpdateKeepsLate(s: State, chain: History, late: nat, who: nat, a: nat)
    requires OnChain(s, chain, late, who) && a in s.active && s.HistoryOf(a) == chain
    requires s.pending != [] ==> a == who
    requires a == late ==> s.backlog == []
    ensures LateOnChain(Queued(s, a), chain + [s.nextId], late, a)
  {
    QueuedDelivers(s, chain, a);
    if a != late {
      var extended, l := chain + [s.nextId], |s.HistoryOf(late)|;
      assert Queued(s, a).groups[late] == s.groups[late];
      assert extended[..l] == chain[..l];
      EntriesExtend(chain, s.nextId, l, |chain| - |s.pending|);
    }
  }

  lemma {:induction false} QueueExtends(s: State, chain: History, late: nat, who: nat, a: nat)
    requires OnChain(s, chain, late, who) && (s.pending != [] ==> a == who)
    ensures var d := |chain| - |s.pending|;
            s.pending + [QueuedMsg(a, Commit(chain, s.nextId))] == Queue(a, Entries(chain + [s.nextId], d, |chain| + 1))
  {
    var d := |chain| - |s.pending|;
    EntriesExtend(chain, s.nextId, d, |chain|);
    EntriesJoin(chain + [s.nextId], d, |chain|, |chain| + 1);
  }

  /** A commit by a member on the chain reaches everybody online. */
  lemma {:induction false} CommitReaches(s: State, chain: History, late: nat, who: nat, a: nat)
    requires OnChain(s, chain, late, who) && s.pending == [] && a in s.active && s.HistoryOf(a) == chain
    ensures var (s1, msg) := s.CommitBy(a);
            MembersOnChain(s1.Send({a}, msg), chain + [s.nextId], late, who)
  {
    var (s1, msg) := s.CommitBy(a);
    var s2, extended := s1.Send({a}, msg), chain + [s.nextId];
    assert chain[..|chain|] == chain && extended[..|extended|] == extended;
    forall i | i in s.active && i != late
      ensures s2.HistoryOf(i) == extended
    {
      if i != a {
        assert s1.Reaches(i, {a}) && s2.groups[i] == Decrypt(s1.groups[i], msg);
      }
    }
  }

  /** What it leaves for the offline member, who may be the committer. */
  lemma {:induction false} CommitLeavesLate(s: State, chain: History, late: nat, who: nat, a: nat)
    requires OnChain(s, chain, late, who) && s.pending == [] && a in s.active && UpToDate(s, a)
    ensures var (s1, msg) := s.CommitBy(a);
            LateOnChain(s1.Send({a}, msg), chain + [s.nextId], late, who)
  {
    UpToDateHoldsChain(s, chain, late, who, a);
    assert chain[..|chain|] == chain;
    var extended, l := chain + [s.nextId], |s.HistoryOf(late)|;
    assert extended[..|extended|] == extended && extended[..l] == chain[..l];
    EntriesExtend(chain, s.nextId, l, |chain|);
    EntriesJoin(extended, l, |chain|, |chain| + 1);
  }

  /** A commit by an up-to-date member over an empty queue, sent at once, extends the chain. */
  lemma {:induction false} CommitExtendsChain(s: State, chain: History, late: nat, who: nat, a: nat)
    requires OnChain(s, chain, late, who) && s.pending == [] && a in s.active && UpToDate(s, a)
    ensures var (s1, msg) := s.CommitBy(a);
            var s2 := s1.Send({a}, msg);
            msg == Commit(chain, s.nextId) && OnChain(s2, chain + [s.nextId], late, who) && s2.active == s.active
  {
    CommitByKeepsValid(s, a);
    UpToDateHoldsChain(s, chain, late, who, a);
    CommitReaches(s, chain, late, who, a);
    CommitLeavesLate(s, chain, late, who, a);
    var (s1, msg) := s.CommitBy(a);
    SendKeepsValid(s1, {a}, msg);
    var s2, extended := s1.Send({a}, msg), chain + [s.nextId];
    assert s2.pending == Queue(who, Entries(extended, |extended|, |extended|));
    assert QueueOnChain(s2, extended, who);
  }

  /** The joiner's external commit, built on the whole chain, extends it too. */
  lemma {:induction false} ExternalExtendsChain(s: State, chain: History, late: nat, who: nat)
    requires OnChain(s, chain, late, who) && s.pending == []
    ensures var t := s.(nextId := s.nextId + 1).Send({}, Commit(chain, s.nextId));
            OnChain(t, chain + [s.nextId], late, who) && t.active == s.active
  {
    assert chain[..|chain|] == chain;
    var s1, msg := s.(nextId := s.nextId + 1), Commit(chain, s.nextId);
    SendKeepsValid(s1, {}, msg);
    var t := s1.Send({}, msg);
    var extended := chain + [s.nextId];
    assert extended[..|extended|] == extended;
    forall i | i in t.active && i != late
      ensures t.HistoryOf(i) == extended
    {
      assert s1.Reaches(i, {}) && t.groups[i] == Decrypt(s1.groups[i], msg);
    }
    assert t.pending == Queue(who, Entries(extended, |extended|, |extended|));
    var l := |s.HistoryOf(late)|;
    EntriesExtend(chain, s.nextId, l, |chain|);
    assert extended[..l] == chain[..l];
    EntriesJoin(extended, l, |chain|, |chain| + 1);
  }

  lemma {:induction false} EnrollKeepsChain(s: State, chain: History, late: nat, who: nat, i: nat, leaf: Option<nat>)
    requires OnChain(s, chain, late, who) && s.pending == [] && i < |s.groups| && i !in s.active
    ensures OnChain(s.Enroll(i, chain, leaf), chain, late, who)
  {
    EnrollKeepsValid(s, i, chain, leaf);
    var t := s.Enroll(i, chain, leaf);
    assert chain[..|chain|] == chain;
    assert t.active[0] == s.active[0];
    assert late in t.active;
    forall j | j in t.active && j != late
      ensures t.HistoryOf(j) == chain
    {
      if j != i {
        assert j in s.active;
      }
    }
  }

  lemma {:induction false} EvictKeepsChain(s: State, chain: History, late: nat, who: nat, target: nat)
    requires OnChain(s, chain, late, who) && s.pending == [] && target < |s.groups|
    requires target != late && target != s.active[0]
    ensures OnChain(Evict(s, target), chain, late, who)
  {
    EvictKeepsValid(s, target);
    WithoutMeaning(s.active, target);
    var t := Evict(s, target);
    assert t.active[0] == s.active[0];
    forall j | j in t.active && j != late
      ensures t.HistoryOf(j) == DeliveredTo(t, chain)
    {
      assert t.HistoryOf(j) == s.HistoryOf(j);
    }
  }

  lemma {:induction false} JoinExtendsChain(s: State, chain: History, late: nat, who: nat, op: Op)
    returns (extended: History)
    requires OnChain(s, chain, late, who) && op.JoinOp? && Commits(s, op) && Disciplined(s, op)
    ensures OnChain(Apply(s, op), extended, late, who) && chain < extended
  {
    CommitExtendsChain(s, chain, late, who, s.active[0]);
    var (s1, update) := s.CommitBy(s.active[0]);
    var s2 := s1.Send({s.active[0]}, update);
    extended := chain + [s.nextId];
    if op.joinLib.joined {
      ExternalExtendsChain(s2, extended, late, who);
      var s3 := s2.(nextId := s2.nextId + 1).Send({}, Commit(extended, s2.nextId));
      extended := extended + [s2.nextId];
      EnrollKeepsChain(s3, extended, late, who, s.Norm(op.joiner), op.joinLib.leaf);
    }
  }

  lemma {:induction false} AddExtendsChain(s: State, chain: History, late: nat, who: nat, op: Op)
    requires OnChain(s, chain, late, who) && op.AddOp? && Commits(s, op) && Disciplined(s, op)
    ensures OnChain(Apply(s, op), chain + [s.nextId], late, who)
  {
    var adder := s.Norm(op.adder);
    CommitExtendsChain(s, chain, late, who, adder);
    var (s1, add) := s.CommitBy(adder);
    if op.addLib.bundleComplete && op.addLib.joined {
      EnrollKeepsChain(s1.Send({adder}, add), chain + [s.nextId], late, who, s.Norm(op.addee), op.addLib.leaf);
    }
  }

  lemma {:induction false} LeaveExtendsChain(s: State, chain: History, late: nat, who: nat, op: Op)
    requires OnChain(s, chain, late, who) && op.LeaveOp? && Commits(s, op) && Disciplined(s, op)
    ensures OnChain(Apply(s, op), chain + [s.nextId], late, who)
  {
    CommitExtendsChain(s, chain, late, who, s.active[0]);
    var (s1, removal) := s.CommitBy(s.active[0]);
    EvictKeepsChain(s1.Send({s.active[0]}, removal), chain + [s.nextId], late, who, s.Norm(op.leaver));
  }

  lemma {:induction false} DisciplinedExtendsChain(s: State, chain: History, late: nat, who: nat, op: Op)
    returns (extended: History, issuer: nat)
    requires OnChain(s, chain, late, who) && Disciplined(s, op)
    ensures OnChain(Apply(s, op), extended, late, issuer) && chain <= extended
  {
    extended, issuer := chain, who;
    if Commits(s, op) {
      extended := chain + [s.nextId];
      match op {
        case JoinOp(_, _) => extended := JoinExtendsChain(s, chain, late, who, op);
        case AddOp(_, _, _) => AddExtendsChain(s, chain, late, who, op);
        case UpdateOp(member, _) => issuer := s.Norm(member); UpdateExtendsChain(s, chain, late, who, op);
        case LeaveOp(_, _) => LeaveExtendsChain(s, chain, late, who, op);
      }
    }
  }

  // ----- Whole offline periods -----

  /** What the group does while the member is away. */
  datatype Churn = Member(op: Op) | DeliverOne | DeliverQueue

  function ChurnStep(s: State, step: Churn): (t: State)
    requires s.Valid()
    ensures t.Valid()
  {
    match step
    case Member(op) => ApplyKeepsValid(s, op); Apply(s, op)
    case DeliverOne => DeliverNextKeepsValid(s); DeliverNext(s)
    case DeliverQueue => DeliverAllKeepsValid(s); DeliverAll(s)
  }

  function ChurnRun(s: State, steps: seq<Churn>): (t: State)
    requires s.Valid()
    ensures t.Valid()
  {
    if steps == [] then s else ChurnStep(ChurnRun(s, steps[..|steps| - 1]), steps[|steps| - 1])
  }

  /** Every operation of the period is disciplined at the state it meets. */
  predicate DisciplinedRun(s: State, steps: seq<Churn>)
    requires s.Valid()
  {
    steps == []
    || (var before, last := ChurnRun(s, steps[..|steps| - 1]), steps[|steps| - 1];
        DisciplinedRun(s, steps[..|steps| - 1]) && (last.Member? ==> Disciplined(before, last.op)))
  }

  lemma {:induction false} ChurnFollowsChain(s: State, steps: seq<Churn>, chain: History, late: nat, who: nat)
    returns (extended: History, issuer: nat)
    requires OnChain(s, chain, late, who) && DisciplinedRun(s, steps)
    ensures OnChain(ChurnRun(s, steps), extended, late, issuer) && chain <= extended
  {
    extended, issuer := chain, who;
    if steps != [] {
      var last := steps[|steps| - 1];
      extended, issuer := ChurnFollowsChain(s, steps[..|steps| - 1], chain, late, who);
      var before := ChurnRun(s, steps[..|steps| - 1]);
      match last {
        case Member(op) => extended, issuer := DisciplinedExtendsChain(before, extended, late, issuer, op);
        case DeliverOne => DeliveryFollowsChain(before, extended, late, issuer);
        case DeliverQueue => FlushFollowsChain(before, extended, late, issuer);
      }
    }
  }

  /**
   Catch-up over any disciplined offline period: after the final flush the backlog holds exactly the
   commits of the canonical chain that the member is missing, in order; replay accepts them all and
   ends with the member and every peer on that chain.
   */
  lemma {:induction false} OfflinePeriodCatchesUp(s: State, steps: seq<Churn>, chain: History, late: nat, who: nat)
    returns (extended: History)
    requires OnChain(s, chain, late, who) && DisciplinedRun(s, steps)
    ensures var t := DeliverAll(ChurnRun(s, steps));
            && CatchesUp(t) && t.excluded == Some(late) && chain <= extended
            && Replay(t.HistoryOf(late), t.backlog) == Some(extended)
            && |t.HistoryOf(late)| <= |extended| && t.HistoryOf(late) == extended[..|t.HistoryOf(late)|]
            && t.backlog == Entries(extended, |t.HistoryOf(late)|, |extended|)
            && forall i | i in t.active && i != late :: t.HistoryOf(i) == extended
  {
    var issuer;
    extended, issuer := ChurnFollowsChain(s, steps, chain, late, who);
    FlushFollowsChain(ChurnRun(s, steps), extended, late, issuer);
    ChainCatchesUp(DeliverAll(ChurnRun(s, steps)), extended, late, issuer);
    assert extended[..|extended|] == extended;
  }
}
