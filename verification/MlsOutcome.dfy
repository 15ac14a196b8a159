/**
 What catching up reports at the end of an offline period, for every period and every library behaviour: agreement
 exactly when every operation was disciplined, a rejection exactly when some commit was built on another history than
 the offline member will have reached, and a divergence exactly when the coordinator lost a commit and is at the
 epoch the offline member reaches.
 */
module MlsOutcome {
  import opened Wrappers
  import opened MlsModel
  import opened MlsLiveness
  import opened MlsCatchup

  // ----- What is owed to a member -----

  /** The queued messages that member `i` will be sent: all but its own. */
  function Foreign(i: nat, q: seq<QueuedMsg>): seq<Commit> {
    if q == [] then []
    else if q[0].sender == i then Foreign(i, q[1..])
    else [q[0].msg] + Foreign(i, q[1..])
  }

  /** A member's history after being sent messages one by one. */
  function DecryptAll(h: History, msgs: seq<Commit>): History
    decreases |msgs|
  {
    if msgs == [] then h else DecryptAll(if msgs[0].base == h then h + [msgs[0].id] else h, msgs[1..])
  }

  lemma {:induction false} DecryptAllExtends(h: History, msgs: seq<Commit>)
    ensures h <= DecryptAll(h, msgs)
    decreases |msgs|
  {
    if msgs != [] {
      DecryptAllExtends(if msgs[0].base == h then h + [msgs[0].id] else h, msgs[1..]);
    }
  }

  lemma {:induction false} DecryptEntries(chain: History, from: nat, to: nat)
    requires from <= to <= |chain|
    ensures DecryptAll(chain[..from], Entries(chain, from, to)) == chain[..to]
    decreases |chain| - from
  {
    if from < to {
      DecryptEntries(chain, from + 1, to);
      assert Entries(chain, from, to)[1..] == Entries(chain, from + 1, to);
      assert chain[..from] + [chain[from]] == chain[..from + 1];
    }
  }

  /** One delivery, as an online member sees it. */
  lemma {:induction false} DeliveryMeaning(s: State, late: nat, i: nat)
    requires s.Valid() && s.excluded == Some(late) && s.pending != [] && i in s.active && i != late
    ensures var next := DeliverNext(s);
            DecryptAll(next.HistoryOf(i), Foreign(i, next.pending)) == DecryptAll(s.HistoryOf(i), Foreign(i, s.pending))
  {
    var rest, head := s.(pending := s.pending[1..]), s.pending[0];
    var next := DeliverNext(s);
    if head.sender != i {
      assert rest.Reaches(i, {head.sender}) && next.groups[i] == Decrypt(s.groups[i], head.msg);
      assert Foreign(i, s.pending)[1..] == Foreign(i, next.pending);
    }
  }

  /** What a flush does to one active member and to the backlog. */
  lemma {:induction false} FlushMeaning(s: State, late: nat)
    requires s.Valid() && s.excluded == Some(late) && late in s.active
    ensures var t := DeliverAll(s);
            && t.Valid() && t.active == s.active && t.excluded == s.excluded
            && t.HistoryOf(late) == s.HistoryOf(late)
            && t.backlog == s.backlog + Foreign(late, s.pending)
            && forall i | i in s.active && i != late ::
                 t.HistoryOf(i) == DecryptAll(s.HistoryOf(i), Foreign(i, s.pending))
    decreases |s.pending|
  {
    if s.pending != [] {
      var next := DeliverNext(s);
      DeliverNextKeepsValid(s);
      FlushMeaning(next, late);
      assert next.active == s.active && next.pending == s.pending[1..];
      forall i | i in s.active && i != late
        ensures DecryptAll(next.HistoryOf(i), Foreign(i, next.pending)) ==
            DecryptAll(s.HistoryOf(i), Foreign(i, s.pending))
      {
        DeliveryMeaning(s, late, i);
      }
    }
  }

  lemma {:induction false} ForeignQueue(i: nat, who: nat, msgs: seq<Commit>)
    ensures Foreign(i, Queue(who, msgs)) == if who == i then [] else msgs
    decreases |msgs|
  {
    if msgs != [] {
      assert Queue(who, msgs)[1..] == Queue(who, msgs[1..]);
      ForeignQueue(i, who, msgs[1..]);
    }
  }

  lemma {:induction false} ForeignAppend(i: nat, q: seq<QueuedMsg>, last: QueuedMsg)
    ensures Foreign(i, q + [last]) == Foreign(i, q) + if last.sender == i then [] else [last.msg]
    decreases |q|
  {
    if q == [] {
      assert q + [last] == [last];
    } else {
      assert (q + [last])[1..] == q[1..] + [last];
      ForeignAppend(i, q[1..], last);
    }
  }

  /** Everything the offline member will have to replay, in order: what was withheld, then what is queued. */
  function Owed(s: State, late: nat): seq<Commit> { s.backlog + Foreign(late, s.pending) }

  /** What an online member's history becomes once the queue is flushed. */
  function Settling(s: State, i: nat): History { DecryptAll(s.HistoryOf(i), Foreign(i, s.pending)) }

  ghost predicate Offline(s: State, late: nat) { s.Valid() && Away(s, late) }

  lemma {:induction false} FlushStaysOffline(s: State, late: nat)
    requires Offline(s, late)
    ensures var t := DeliverAll(s);
            && Offline(t, late) && t.active == s.active && t.pending == []
            && t.HistoryOf(late) == s.HistoryOf(late) && t.backlog == Owed(s, late)
            && forall i | i in s.active && i != late :: t.HistoryOf(i) == Settling(s, i)
  {
    FlushMeaning(s, late);
    DeliverAllKeepsValid(s);
  }

  // ----- Every message so far carries known ids -----

  ghost predicate KnownIds(h: History, n: nat) { forall id <- h :: id < n }

  ghost predicate KnownCommit(m: Commit, n: nat) { m.id < n && KnownIds(m.base, n) }

  ghost predicate AllKnown(msgs: seq<Commit>, n: nat) { forall m <- msgs :: KnownCommit(m, n) }

  ghost predicate Known(s: State) {
    && (forall i: nat :: KnownIds(s.HistoryOf(i), s.nextId))
    && (forall q <- s.pending :: KnownCommit(q.msg, s.nextId))
    && AllKnown(s.backlog, s.nextId)
  }

  function Ids(msgs: seq<Commit>): (ids: seq<CommitId>)
    ensures |ids| == |msgs| && forall k | 0 <= k < |ids| :: ids[k] == msgs[k].id
  {
    seq(|msgs|, k requires 0 <= k < |msgs| => msgs[k].id)
  }

  lemma {:induction false} DecryptAllIds(h: History, msgs: seq<Commit>)
    ensures forall id <- DecryptAll(h, msgs) :: id in h || id in Ids(msgs)
    decreases |msgs|
  {
    if msgs != [] {
      var next := if msgs[0].base == h then h + [msgs[0].id] else h;
      DecryptAllIds(next, msgs[1..]);
      assert forall id <- Ids(msgs[1..]) :: id in Ids(msgs) by {
        assert forall k | 0 <= k < |msgs| - 1 :: Ids(msgs[1..])[k] == Ids(msgs)[k + 1];
      }
      assert Ids(msgs)[0] == msgs[0].id;
    }
  }

  lemma {:induction false} DecryptAllAppend(h: History, msgs: seq<Commit>, m: Commit)
    ensures DecryptAll(h, msgs + [m])
            == if DecryptAll(h, msgs) == m.base then DecryptAll(h, msgs) + [m.id] else DecryptAll(h, msgs)
    decreases |msgs|
  {
    if msgs == [] {
      assert msgs + [m] == [m];
    } else {
      assert (msgs + [m])[1..] == msgs[1..] + [m];
      DecryptAllAppend(if msgs[0].base == h then h + [msgs[0].id] else h, msgs[1..], m);
    }
  }

  // ----- What one operation does -----

  /** The commits an immediate operation sends round, oldest first. */
  function Sent(s: State, op: Op): seq<Commit>
    requires s.Valid() && Commits(s, op)
  {
    var first := Commit(s.HistoryOf(Committer(s, op)), s.nextId);
    if op.JoinOp? && op.joinLib.joined then [first, Commit(first.base + [first.id], s.nextId + 1)] else [first]
  }

  /** The history an immediate operation leads its issuer to. */
  function Issued(s: State, op: Op): History
    requires s.Valid() && Commits(s, op)
  {
    s.HistoryOf(Committer(s, op)) + Ids(Sent(s, op))
  }

  /**
   An immediate operation in progress: `a` and the newcomers have applied all of `sent`, everyone online has been sent
   it, and the offline member's copy was withheld.
   */
  ghost predicate SentRound(s: State, t: State, late: nat, a: nat, sent: seq<Commit>) {
    && s.active != [] && Offline(t, late) && t.active[0] == s.active[0] && t.pending == s.pending
    && t.nextId == s.nextId + |sent|
    && t.backlog == s.backlog + (if a == late then [] else sent)
    && (forall i | i in t.active :: t.HistoryOf(i) == RoundHistory(s, late, a, sent, i))
  }

  function RoundHistory(s: State, late: nat, a: nat, sent: seq<Commit>, i: nat): History {
    if i == a || i !in s.active then s.HistoryOf(a) + Ids(sent)
    else if i == late then s.HistoryOf(late)
    else DecryptAll(s.HistoryOf(i), sent)
  }

  lemma {:induction false} FirstRound(s: State, late: nat, a: nat)
    requires Offline(s, late) && a in s.active
    ensures var (s1, msg) := s.CommitBy(a);
            SentRound(s, s1.Send({a}, msg), late, a, [msg]) && s1.Send({a}, msg).active == s.active
  {
    CommitByKeepsValid(s, a);
    var (s1, msg) := s.CommitBy(a);
    SendKeepsValid(s1, {a}, msg);
    var t := s1.Send({a}, msg);
    assert Ids([msg]) == [s.nextId];
    forall i | i in t.active
      ensures t.HistoryOf(i) == RoundHistory(s, late, a, [msg], i)
    {
      assert DecryptAll(s.HistoryOf(i), [msg]) == Decrypt(Some(s.HistoryOf(i)), msg).value;
      assert t.groups[i] == if s1.Reaches(i, {a}) then Decrypt(s1.groups[i], msg) else s1.groups[i];
    }
  }

  lemma {:induction false} ExternalRound(s: State, t: State, late: nat, a: nat, first: Commit)
    requires SentRound(s, t, late, a, [first]) && t.active == s.active && a != late
    requires first == Commit(s.HistoryOf(a), s.nextId)
    ensures var external := Commit(first.base + [first.id], t.nextId);
            var u := t.(nextId := t.nextId + 1).Send({}, external);
            SentRound(s, u, late, a, [first, external]) && u.active == s.active
  {
    var external, next := Commit(first.base + [first.id], t.nextId), t.(nextId := t.nextId + 1);
    SendKeepsValid(next, {}, external);
    var u := next.Send({}, external);
    assert Ids([first]) == [first.id] && Ids([first, external]) == [first.id, external.id];
    assert [first] + [external] == [first, external];
    forall i | i in u.active
      ensures u.HistoryOf(i) == RoundHistory(s, late, a, [first, external], i)
    {
      assert u.groups[i] == if next.Reaches(i, {}) then Decrypt(t.groups[i], external) else t.groups[i];
      DecryptAllAppend(s.HistoryOf(i), [first], external);
    }
  }

  lemma {:induction false} EnrollRound(s: State, t: State, late: nat, a: nat, sent: seq<Commit>, i: nat,
        leaf: Option<nat>)
    requires SentRound(s, t, late, a, sent) && i < |t.groups| && i !in t.active && i !in s.active
    ensures SentRound(s, t.Enroll(i, s.HistoryOf(a) + Ids(sent), leaf), late, a, sent)
  {
    EnrollKeepsValid(t, i, s.HistoryOf(a) + Ids(sent), leaf);
    var u := t.Enroll(i, s.HistoryOf(a) + Ids(sent), leaf);
    assert u.active[0] == t.active[0];
    assert late in u.active;
    forall j | j in u.active
      ensures u.HistoryOf(j) == RoundHistory(s, late, a, sent, j)
    {
      if j != i {
        assert j in t.active;
      }
    }
  }

  lemma {:induction false} EvictRound(s: State, t: State, late: nat, a: nat, sent: seq<Commit>, target: nat)
    requires SentRound(s, t, late, a, sent) && target < |t.groups| && target != late && target != t.active[0]
    ensures SentRound(s, Evict(t, target), late, a, sent)
  {
    EvictKeepsValid(t, target);
    WithoutMeaning(t.active, target);
    var u := Evict(t, target);
    assert u.active[0] == t.active[0];
    forall j | j in u.active
      ensures u.HistoryOf(j) == RoundHistory(s, late, a, sent, j)
    {
      assert u.HistoryOf(j) == t.HistoryOf(j);
    }
  }

  lemma {:induction false} JoinRound(s: State, late: nat, op: Op)
    requires Offline(s, late) && op.JoinOp? && Commits(s, op) && !LosesCommit(s, op)
    ensures SentRound(s, Apply(s, op), late, s.active[0], Sent(s, op))
  {
    var c := s.active[0];
    FirstRound(s, late, c);
    var (s1, msg) := s.CommitBy(c);
    var s2 := s1.Send({c}, msg);
    if op.joinLib.joined {
      var base := msg.base + [msg.id];
      var external := Commit(base, s2.nextId);
      ExternalRound(s, s2, late, c, msg);
      var s3 := s2.(nextId := s2.nextId + 1).Send({}, external);
      assert base + [external.id] == s.HistoryOf(c) + Ids([msg, external]);
      EnrollRound(s, s3, late, c, [msg, external], s.Norm(op.joiner), op.joinLib.leaf);
    }
  }

  lemma {:induction false} AddRound(s: State, late: nat, op: Op)
    requires Offline(s, late) && op.AddOp? && Commits(s, op)
    ensures SentRound(s, Apply(s, op), late, s.Norm(op.adder), Sent(s, op))
  {
    var a := s.Norm(op.adder);
    FirstRound(s, late, a);
    var (s1, msg) := s.CommitBy(a);
    if op.addLib.bundleComplete && op.addLib.joined {
      assert msg.base + [msg.id] == s.HistoryOf(a) + Ids([msg]);
      EnrollRound(s, s1.Send({a}, msg), late, a, [msg], s.Norm(op.addee), op.addLib.leaf);
    }
  }

  /** Every immediate operation that is not lost is a round of the commits it sends. */
  lemma {:induction false} ImmediateRound(s: State, late: nat, op: Op)
    requires Offline(s, late) && Commits(s, op) && !op.UpdateOp? && !LosesCommit(s, op)
    ensures SentRound(s, Apply(s, op), late, Committer(s, op), Sent(s, op))
  {
    match op
    case JoinOp(_, _) => JoinRound(s, late, op);
    case AddOp(_, _, _) => AddRound(s, late, op);
    case LeaveOp(_, _) =>
      var c := s.active[0];
      FirstRound(s, late, c);
      var (s1, msg) := s.CommitBy(c);
      EvictRound(s, s1.Send({c}, msg), late, c, [msg], s.Norm(op.leaver));
  }

  /** The operations that send nothing at once: no commit, a queued one, a lost one. */
  lemma {:induction false} QuietMeaning(s: State, late: nat, op: Op)
    requires Offline(s, late)
    ensures !Commits(s, op) ==> Apply(s, op) == s
    ensures LosesCommit(s, op) ==> Apply(s, op) == s.CommitBy(s.active[0]).0
    ensures Commits(s, op) && op.UpdateOp? ==> Apply(s, op) == Queued(s, Committer(s, op))
  {
  }

  lemma {:induction false} ApplyStaysOffline(s: State, late: nat, op: Op)
    requires Offline(s, late)
    ensures Offline(Apply(s, op), late) && Apply(s, op).active[0] == s.active[0]
  {
    ApplyKeepsValid(s, op);
    QuietMeaning(s, late, op);
    if Commits(s, op) && !op.UpdateOp? && !LosesCommit(s, op) {
      ImmediateRound(s, late, op);
    }
  }

  /** The commits of an operation are fresh, and each is built on the one before it. */
  lemma {:induction false} SentMeaning(s: State, op: Op)
    requires s.Valid() && Commits(s, op)
    ensures var base, sent := s.HistoryOf(Committer(s, op)), Sent(s, op);
            && 1 <= |sent| <= 2 && sent[0] == Commit(base, s.nextId) && Ids(sent)[0] == s.nextId
            && (forall id <- Ids(sent) :: s.nextId <= id < s.nextId + |sent|)
            && (forall k | 0 <= k < |sent| :: |sent[k].base| >= |base|)
            && Replay(base, sent) == Some(Issued(s, op))
            && DecryptAll(base, sent) == Issued(s, op)
  {
    var base, sent := s.HistoryOf(Committer(s, op)), Sent(s, op);
    assert Ids(sent)[0] == sent[0].id;
    var once := base + [s.nextId];
    if |sent| == 2 {
      assert Ids(sent) == [s.nextId, s.nextId + 1];
      assert sent[1..] == [sent[1]] && sent[1..][1..] == [];
      assert Replay(once, sent[1..]) == Replay(once + [s.nextId + 1], []);
      assert DecryptAll(once, sent[1..]) == DecryptAll(once + [s.nextId + 1], []);
      assert once + [s.nextId + 1] == base + Ids(sent);
    } else {
      assert Ids(sent) == [s.nextId] && sent[1..] == [];
    }
  }

  lemma {:induction false} SentKnown(s: State, op: Op)
    requires s.Valid() && Commits(s, op) && Known(s)
    ensures AllKnown(Sent(s, op), s.nextId + |Sent(s, op)|) && KnownIds(Issued(s, op), s.nextId + |Sent(s, op)|)
  {
    SentMeaning(s, op);
  }

  lemma {:induction false} RoundKnown(s: State, t: State, late: nat, op: Op)
    requires Offline(s, late) && Commits(s, op) && Known(s)
    requires SentRound(s, t, late, Committer(s, op), Sent(s, op))
    ensures Known(t)
  {
    SentKnown(s, op);
    SentMeaning(s, op);
    var sent := Sent(s, op);
    forall i: nat
      ensures KnownIds(t.HistoryOf(i), t.nextId)
    {
      if i in t.active {
        DecryptAllIds(s.HistoryOf(i), sent);
      }
    }
  }

  lemma {:induction false} CommitKnown(s: State, a: nat)
    requires s.Valid() && a < |s.groups| && Known(s)
    ensures Known(s.CommitBy(a).0) && Known(Queued(s, a))
  {
    forall i: nat
      ensures KnownIds(s.CommitBy(a).0.HistoryOf(i), s.nextId + 1) && KnownIds(Queued(s, a).HistoryOf(i), s.nextId + 1)
    {
      assert i != a ==> s.CommitBy(a).0.HistoryOf(i) == s.HistoryOf(i);
    }
  }

  lemma {:induction false} ApplyKnown(s: State, late: nat, op: Op)
    requires Offline(s, late) && Known(s)
    ensures Known(Apply(s, op))
  {
    QuietMeaning(s, late, op);
    if Commits(s, op) {
      if op.UpdateOp? || LosesCommit(s, op) {
        CommitKnown(s, Committer(s, op));
      } else {
        ImmediateRound(s, late, op);
        RoundKnown(s, Apply(s, op), late, op);
      }
    }
  }

  lemma {:induction false} DeliveryKnown(s: State, late: nat)
    requires Offline(s, late) && Known(s)
    ensures Offline(DeliverNext(s), late) && Known(DeliverNext(s))
  {
    DeliverNextKeepsValid(s);
    if s.pending != [] {
      var head, t := s.pending[0], DeliverNext(s);
      assert head in s.pending;
      var rest := s.(pending := s.pending[1..]);
      forall i: nat
        ensures KnownIds(t.HistoryOf(i), t.nextId)
      {
        if i < |s.groups| {
          assert KnownIds(s.HistoryOf(i), s.nextId);
          assert t.groups[i] == if rest.Reaches(i, {head.sender}) then Decrypt(s.groups[i], head.msg) else s.groups[i];
          assert t.HistoryOf(i) == s.HistoryOf(i) || t.HistoryOf(i) == s.HistoryOf(i) + [head.msg.id];
        }
      }
      assert forall q <- t.pending :: q in s.pending;
    }
  }

  // ----- Two kinds of fatal state -----

  /** The offline member will meet an entry it has to reject. */
  predicate Stuck(s: State, late: nat) { Replay(s.HistoryOf(late), Owed(s, late)).None? }

  /** One of the coordinator and the offline member has applied a commit that can no longer reach the other. */
  predicate Lost(s: State, late: nat, x: CommitId)
    requires s.active != []
  {
    && x < s.nextId
    && (x in s.HistoryOf(s.active[0]) <==> x !in s.HistoryOf(late))
    && (forall q <- s.pending :: q.msg.id != x)
    && (forall m <- s.backlog :: m.id != x)
  }

  lemma {:induction false} LostStays(s: State, late: nat, op: Op, x: CommitId)
    requires Offline(s, late) && Lost(s, late, x)
    ensures Offline(Apply(s, op), late) && Lost(Apply(s, op), late, x)
  {
    ApplyStaysOffline(s, late, op);
    QuietMeaning(s, late, op);
    var c, t := s.active[0], Apply(s, op);
    if Commits(s, op) && !op.UpdateOp? && !LosesCommit(s, op) {
      var a, sent := Committer(s, op), Sent(s, op);
      ImmediateRound(s, late, op);
      SentMeaning(s, op);
      DecryptAllIds(s.HistoryOf(c), sent);
      DecryptAllExtends(s.HistoryOf(c), sent);
      assert x !in Ids(sent);
      assert t.HistoryOf(c) == RoundHistory(s, late, a, sent, c);
      assert t.HistoryOf(late) == RoundHistory(s, late, a, sent, late);
      forall m | m in sent
        ensures m.id != x
      {
        var k :| 0 <= k < |sent| && sent[k] == m;
        assert Ids(sent)[k] == m.id;
      }
    }
  }

  lemma {:induction false} LostStaysInDelivery(s: State, late: nat, x: CommitId)
    requires Offline(s, late) && Lost(s, late, x)
    ensures Offline(DeliverNext(s), late) && Lost(DeliverNext(s), late, x)
  {
    DeliverNextKeepsValid(s);
    if s.pending != [] {
      var head, c, t := s.pending[0], s.active[0], DeliverNext(s);
      assert head in s.pending && head.msg.id != x;
      var rest := s.(pending := s.pending[1..]);
      assert t.groups[c] == if rest.Reaches(c, {head.sender}) then Decrypt(s.groups[c], head.msg) else s.groups[c];
      assert t.groups[late] == s.groups[late];
      assert forall q <- t.pending :: q in s.pending;
    }
  }

  /** Delivery only moves what is owed from the queue to the backlog. */
  lemma {:induction false} DeliveryOwes(s: State, late: nat)
    requires Offline(s, late)
    ensures var t := DeliverNext(s);
            Owed(t, late) == Owed(s, late) && t.HistoryOf(late) == s.HistoryOf(late) && t.active == s.active
  {
    if s.pending != [] {
      var head := s.pending[0];
      var head' := if head.sender == late then [] else [head.msg];
      assert Foreign(late, s.pending) == head' + Foreign(late, s.pending[1..]);
    }
  }

  lemma {:induction false} ForeignKnown(i: nat, q: seq<QueuedMsg>, n: nat)
    requires forall m <- q :: KnownCommit(m.msg, n)
    ensures AllKnown(Foreign(i, q), n)
    decreases |q|
  {
    if q != [] {
      assert q[0] in q;
      assert forall m <- q[1..] :: m in q;
      ForeignKnown(i, q[1..], n);
    }
  }

  lemma {:induction false} OwedKnown(s: State, late: nat)
    requires Known(s)
    ensures AllKnown(Owed(s, late), s.nextId)
  {
    ForeignKnown(late, s.pending, s.nextId);
  }

  /** Entries that know nothing of a new commit cannot be replayed on top of it. */
  lemma {:induction false} UnknownBase(h: History, k: nat, msgs: seq<Commit>, n: nat)
    requires AllKnown(msgs, n) && msgs != [] && k < |h| && h[k] >= n
    ensures Replay(h, msgs).None?
  {
    assert msgs[0] in msgs && h[k] in h;
  }

  /** The guard that rejects: the commit is not built on the history that the offline member will have reached. */
  predicate Rejects(s: State, late: nat, op: Op)
    requires s.Valid()
  {
    Commits(s, op) && !LosesCommit(s, op) &&
      var a := Committer(s, op);
      if a == late then Owed(s, late) != []
      else
        || (!op.UpdateOp? && Foreign(late, s.pending) != [])
        || Some(s.HistoryOf(a)) != Replay(s.HistoryOf(late), Owed(s, late))
  }

  /** What the offline member will reach once an operation that it does not reject is done. */
  function ReachedAfter(s: State, op: Op, reached: History): History
    requires s.Valid()
  {
    if !Commits(s, op) || LosesCommit(s, op) then reached
    else if op.UpdateOp? then reached + [s.nextId]
    else reached + Ids(Sent(s, op))
  }

  /** The effect of an operation on what the offline member has to replay. */
  lemma {:induction false} OpOwes(s: State, late: nat, op: Op)
    requires Offline(s, late)
    ensures var t := Apply(s, op);
            if !Commits(s, op) || LosesCommit(s, op) then
              Owed(t, late) == Owed(s, late) && t.HistoryOf(late) == s.HistoryOf(late)
            else if Committer(s, op) == late then
              && Owed(t, late) == Owed(s, late) && |Sent(s, op)| == 1
              && t.HistoryOf(late) == s.HistoryOf(late) + [s.nextId]
            else if op.UpdateOp? then
              && Owed(t, late) == Owed(s, late) + [Commit(s.HistoryOf(Committer(s, op)), s.nextId)]
              && t.HistoryOf(late) == s.HistoryOf(late)
            else
              && Owed(t, late) == s.backlog + Sent(s, op) + Foreign(late, s.pending)
              && t.HistoryOf(late) == s.HistoryOf(late)
  {
    QuietMeaning(s, late, op);
    if Commits(s, op) && !LosesCommit(s, op) {
      var a := Committer(s, op);
      if op.UpdateOp? {
        var last := QueuedMsg(a, Commit(s.HistoryOf(a), s.nextId));
        ForeignAppend(late, s.pending, last);
      } else {
        ImmediateRound(s, late, op);
        assert Apply(s, op).HistoryOf(late) == RoundHistory(s, late, a, Sent(s, op), late);
        SentMeaning(s, op);
        if a == late {
          assert Ids(Sent(s, op)) == [s.nextId];
        }
      }
    }
  }

  lemma {:induction false} StuckStays(s: State, late: nat, op: Op)
    requires Offline(s, late) && Known(s) && Stuck(s, late)
    ensures Stuck(Apply(s, op), late)
  {
    OpOwes(s, late, op);
    OwedKnown(s, late);
    ForeignKnown(late, s.pending, s.nextId);
    if Commits(s, op) && !LosesCommit(s, op) {
      var a, h, t := Committer(s, op), s.HistoryOf(late), Apply(s, op);
      if a == late {
        assert (h + [s.nextId])[|h|] == s.nextId;
        UnknownBase(h + [s.nextId], |h|, Owed(s, late), s.nextId);
      } else if op.UpdateOp? {
        ReplayAppend(h, Owed(s, late), [Commit(s.HistoryOf(a), s.nextId)]);
      } else {
        InsertedStuck(s, late, op);
      }
    }
  }

  lemma {:induction false} ReplayThree(h: History, a: seq<Commit>, b: seq<Commit>, c: seq<Commit>)
    ensures Replay(h, a + b + c)
            == match Replay(h, a)
               case None => None
               case Some(x) => match Replay(x, b) case None => None case Some(y) => Replay(y, c)
  {
    ReplayAppend(h, a + b, c);
    ReplayAppend(h, a, b);
  }

  lemma IdsCons(msgs: seq<Commit>)
    requires msgs != []
    ensures Ids(msgs) == [msgs[0].id] + Ids(msgs[1..])
  {
  }

  lemma AppendTwice(h: History, id: CommitId, more: History)
    ensures h + [id] + more == h + ([id] + more)
  {
  }

  /** Replaying commits that are all accepted appends their ids. */
  lemma {:induction false} ReplayHolds(h: History, msgs: seq<Commit>)
    requires Replay(h, msgs).Some?
    ensures Replay(h, msgs).value == h + Ids(msgs)
    decreases |msgs|
  {
    if msgs == [] {
      assert h + Ids(msgs) == h;
    } else {
      ReplayHolds(h + [msgs[0].id], msgs[1..]);
      IdsCons(msgs);
      AppendTwice(h, msgs[0].id, Ids(msgs[1..]));
    }
  }

  /** Commits sent round while others are queued make the queued ones unacceptable, or were so themselves. */
  lemma {:induction false} InsertedStuck(s: State, late: nat, op: Op)
    requires Offline(s, late) && Known(s) && Commits(s, op) && (Stuck(s, late) || Foreign(late, s.pending) != [])
    ensures Replay(s.HistoryOf(late), s.backlog + Sent(s, op) + Foreign(late, s.pending)).None?
  {
    var h, sent, queued := s.HistoryOf(late), Sent(s, op), Foreign(late, s.pending);
    ReplayThree(h, s.backlog, sent, queued);
    ReplayAppend(h, s.backlog, queued);
    SentMeaning(s, op);
    ForeignKnown(late, s.pending, s.nextId);
    if Replay(h, s.backlog).Some? {
      var x := Replay(h, s.backlog).value;
      if Replay(x, sent).Some? {
        ReplayHolds(x, sent);
        var y := Replay(x, sent).value;
        assert y[|x|] == s.nextId;
        assert queued != [];
        UnknownBase(y, |x|, queued, s.nextId);
      }
    }
  }

  /** From a state whose replay would succeed, an operation spoils it exactly when it meets the guard. */
  lemma {:induction false} StuckIffRejects(s: State, late: nat, op: Op, reached: History)
    requires Offline(s, late) && Known(s) && Replay(s.HistoryOf(late), Owed(s, late)) == Some(reached)
    ensures Stuck(Apply(s, op), late) <==> Rejects(s, late, op)
    ensures !Rejects(s, late, op) ==>
              Replay(Apply(s, op).HistoryOf(late), Owed(Apply(s, op), late)) == Some(ReachedAfter(s, op, reached))
  {
    OpOwes(s, late, op);
    OwedKnown(s, late);
    if Commits(s, op) && !LosesCommit(s, op) {
      var a, h := Committer(s, op), s.HistoryOf(late);
      SentMeaning(s, op);
      if a == late {
        assert (h + [s.nextId])[|h|] == s.nextId;
        if Owed(s, late) != [] {
          UnknownBase(h + [s.nextId], |h|, Owed(s, late), s.nextId);
        } else if !op.UpdateOp? {
          assert Ids(Sent(s, op)) == [s.nextId];
        }
      } else if op.UpdateOp? {
        var m := Commit(s.HistoryOf(a), s.nextId);
        ReplayAppend(h, Owed(s, late), [m]);
        assert [m][1..] == [];
      } else if Foreign(late, s.pending) != [] {
        InsertedStuck(s, late, op);
      } else {
        ReplayThree(h, s.backlog, Sent(s, op), []);
        assert Owed(s, late) == s.backlog;
        if s.HistoryOf(a) != reached {
          assert Sent(s, op)[0].base != reached;
        }
      }
    }
  }

  // ----- Periods in which nothing is rejected -----

  /** Where every member stands while nothing is rejected; only a coordinator that has lost a commit may stray. */
  ghost predicate Tracks(s: State, late: nat, reached: History, lost: bool) {
    && Offline(s, late) && Known(s)
    && Replay(s.HistoryOf(late), Owed(s, late)) == Some(reached)
    && (forall q <- s.pending :: |q.msg.base| < |reached|)
    && (forall i | i in s.active && i != late && (i != s.active[0] || !lost) :: Settling(s, i) <= reached)
    && (lost ==> exists x :: x in s.HistoryOf(s.active[0]) && Lost(s, late, x))
  }

  lemma {:induction false} DecryptNone(h: History, msgs: seq<Commit>)
    requires forall m <- msgs :: |m.base| != |h|
    ensures DecryptAll(h, msgs) == h
    decreases |msgs|
  {
    if msgs != [] {
      assert msgs[0] in msgs;
      assert forall m <- msgs[1..] :: m in msgs;
      DecryptNone(h, msgs[1..]);
    }
  }

  lemma {:induction false} ForeignFrom(i: nat, q: seq<QueuedMsg>)
    ensures forall m <- Foreign(i, q) :: exists k | 0 <= k < |q| :: q[k].msg == m
    decreases |q|
  {
    if q != [] {
      ForeignFrom(i, q[1..]);
      forall m | m in Foreign(i, q)
        ensures exists k | 0 <= k < |q| :: q[k].msg == m
      {
        if m in Foreign(i, q[1..]) {
          var k :| 0 <= k < |q[1..]| && q[1..][k].msg == m;
          assert q[k + 1].msg == m;
        } else {
          assert q[0].msg == m;
        }
      }
    }
  }

  /** A member that is already past everything queued ignores the queue. */
  lemma {:induction false} PastQueue(i: nat, q: seq<QueuedMsg>, h: History)
    requires forall m <- q :: |m.msg.base| < |h|
    ensures DecryptAll(h, Foreign(i, q)) == h
  {
    ForeignFrom(i, q);
    forall m | m in Foreign(i, q)
      ensures |m.base| != |h|
    {
      var k :| 0 <= k < |q| && q[k].msg == m;
      assert q[k] in q;
    }
    DecryptNone(h, Foreign(i, q));
  }

  /** A commit that is not rejected is built on the history that the offline member will have reached. */
  lemma {:induction false} IssuerReached(s: State, late: nat, op: Op, reached: History)
    requires Offline(s, late) && Replay(s.HistoryOf(late), Owed(s, late)) == Some(reached)
    requires Commits(s, op) && !LosesCommit(s, op) && !Rejects(s, late, op)
    ensures s.HistoryOf(Committer(s, op)) == reached && Committer(s, op) in s.active
  {
  }

  lemma {:induction false} LossTracks(s: State, late: nat, op: Op, reached: History, lost: bool)
    requires Tracks(s, late, reached, lost) && LosesCommit(s, op)
    ensures Tracks(Apply(s, op), late, reached, true)
  {
    var c, t := s.active[0], Apply(s, op);
    ApplyStaysOffline(s, late, op);
    ApplyKnown(s, late, op);
    OpOwes(s, late, op);
    assert t == s.CommitBy(c).0;
    assert t.HistoryOf(c)[|s.HistoryOf(c)|] == s.nextId;
    assert KnownIds(s.HistoryOf(late), s.nextId);
    assert Lost(t, late, s.nextId);
    assert forall i | i != c :: t.HistoryOf(i) == s.HistoryOf(i);
  }

  lemma {:induction false} UpdateTracks(s: State, late: nat, op: Op, reached: History, lost: bool)
    requires Tracks(s, late, reached, lost) && op.UpdateOp? && Commits(s, op) && !Rejects(s, late, op)
    ensures var t, after := Apply(s, op), reached + [s.nextId];
            && (forall q <- t.pending :: |q.msg.base| < |after|)
            && (forall i | i in t.active && i != late && (i != t.active[0] || !lost) :: Settling(t, i) <= after)
  {
    var a, t, after := Committer(s, op), Apply(s, op), reached + [s.nextId];
    IssuerReached(s, late, op, reached);
    assert t == Queued(s, a);
    assert t.pending == s.pending + [QueuedMsg(a, Commit(reached, s.nextId))];
    forall i | i in t.active && i != late && (i != t.active[0] || !lost)
      ensures Settling(t, i) <= after
    {
      UpdateSettles(s, a, reached, i);
    }
  }

  /** A queued commit built on the history everybody settles on takes everybody one step further. */
  lemma {:induction false} UpdateSettles(s: State, a: nat, reached: History, i: nat)
    requires a < |s.groups| && s.HistoryOf(a) == reached
    requires forall q <- s.pending :: |q.msg.base| < |reached|
    requires Settling(s, i) <= reached
    ensures Settling(Queued(s, a), i) <= reached + [s.nextId]
  {
    var t, last := Queued(s, a), QueuedMsg(a, Commit(reached, s.nextId));
    assert t.pending == s.pending + [last];
    ForeignAppend(i, s.pending, last);
    if i == a {
      assert t.HistoryOf(a) == reached + [s.nextId];
      assert Foreign(i, t.pending) == Foreign(i, s.pending);
      PastQueue(i, s.pending, reached + [s.nextId]);
    } else {
      assert t.HistoryOf(i) == s.HistoryOf(i);
      DecryptAllAppend(s.HistoryOf(i), Foreign(i, s.pending), last.msg);
    }
  }

  lemma {:induction false} RoundTracks(s: State, late: nat, op: Op, reached: History, lost: bool)
    requires Tracks(s, late, reached, lost) && Commits(s, op) && !op.UpdateOp? && !LosesCommit(s, op)
    requires !Rejects(s, late, op)
    ensures var t, after := Apply(s, op), reached + Ids(Sent(s, op));
            && (forall q <- t.pending :: |q.msg.base| < |after|)
            && (forall i | i in t.active && i != late && (i != t.active[0] || !lost) :: Settling(t, i) <= after)
  {
    var a, t, sent := Committer(s, op), Apply(s, op), Sent(s, op);
    var after := reached + Ids(sent);
    IssuerReached(s, late, op, reached);
    ImmediateRound(s, late, op);
    SentMeaning(s, op);
    forall i | i in t.active && i != late && (i != t.active[0] || !lost)
      ensures Settling(t, i) <= after
    {
      assert t.HistoryOf(i) == RoundHistory(s, late, a, sent, i);
      if i == a || i !in s.active || s.HistoryOf(i) == reached {
        PastQueue(i, s.pending, after);
      } else {
        DecryptAllExtends(s.HistoryOf(i), Foreign(i, s.pending));
        BehindRound(s.HistoryOf(i), reached, sent);
      }
    }
  }

  /** A member that is behind ignores commits built ahead of it. */
  lemma {:induction false} BehindRound(h: History, reached: History, sent: seq<Commit>)
    requires h < reached && forall k | 0 <= k < |sent| :: |sent[k].base| >= |reached|
    ensures DecryptAll(h, sent) == h
  {
    DecryptNone(h, sent);
  }

  lemma {:induction false} OpTracks(s: State, late: nat, op: Op, reached: History, lost: bool)
    requires Tracks(s, late, reached, lost) && !Rejects(s, late, op)
    ensures Tracks(Apply(s, op), late, ReachedAfter(s, op, reached), lost || LosesCommit(s, op))
  {
    QuietMeaning(s, late, op);
    if LosesCommit(s, op) {
      LossTracks(s, late, op, reached, lost);
    } else if Commits(s, op) {
      ApplyStaysOffline(s, late, op);
      ApplyKnown(s, late, op);
      StuckIffRejects(s, late, op, reached);
      if op.UpdateOp? {
        UpdateTracks(s, late, op, reached, lost);
      } else {
        RoundTracks(s, late, op, reached, lost);
      }
      if lost {
        StrayStays(s, late, op);
      }
    }
  }

  lemma {:induction false} StrayStays(s: State, late: nat, op: Op)
    requires Offline(s, late) && exists x :: x in s.HistoryOf(s.active[0]) && Lost(s, late, x)
    ensures var t := Apply(s, op);
            t.active != [] && exists x :: x in t.HistoryOf(t.active[0]) && Lost(t, late, x)
  {
    var x :| x in s.HistoryOf(s.active[0]) && Lost(s, late, x);
    LostStays(s, late, op, x);
    HistoriesGrow(s, late, op);
    assert x in Apply(s, op).HistoryOf(s.active[0]);
  }

  lemma {:induction false} HistoriesGrow(s: State, late: nat, op: Op)
    requires Offline(s, late)
    ensures s.HistoryOf(s.active[0]) <= Apply(s, op).HistoryOf(s.active[0])
  {
    var c := s.active[0];
    ApplyStaysOffline(s, late, op);
    QuietMeaning(s, late, op);
    if Commits(s, op) && !op.UpdateOp? && !LosesCommit(s, op) {
      ImmediateRound(s, late, op);
      DecryptAllExtends(s.HistoryOf(c), Sent(s, op));
      assert Apply(s, op).HistoryOf(c) == RoundHistory(s, late, Committer(s, op), Sent(s, op), c);
    }
  }

  lemma {:induction false} DeliveryTracks(s: State, late: nat, reached: History, lost: bool)
    requires Tracks(s, late, reached, lost)
    ensures Tracks(DeliverNext(s), late, reached, lost)
  {
    var t := DeliverNext(s);
    DeliveryKnown(s, late);
    DeliveryOwes(s, late);
    if s.pending != [] {
      assert forall q <- t.pending :: q in s.pending;
      forall i | i in t.active && i != late && (i != t.active[0] || !lost)
        ensures Settling(t, i) <= reached
      {
        DeliveryMeaning(s, late, i);
      }
      if lost {
        var x :| x in s.HistoryOf(s.active[0]) && Lost(s, late, x);
        LostStaysInDelivery(s, late, x);
        assert x in t.HistoryOf(t.active[0]);
      }
    }
  }

  lemma {:induction false} FlushTracks(s: State, late: nat, reached: History, lost: bool)
    requires Tracks(s, late, reached, lost)
    ensures Tracks(DeliverAll(s), late, reached, lost)
    decreases |s.pending|
  {
    if s.pending != [] {
      DeliveryTracks(s, late, reached, lost);
      FlushTracks(DeliverNext(s), late, reached, lost);
    }
  }

  // ----- Whole offline periods -----

  /** No operation of the period meets the guard that rejects. */
  predicate AcceptedRun(s: State, late: nat, steps: seq<Churn>)
    requires s.Valid()
  {
    steps == []
    || (var before, last := ChurnRun(s, steps[..|steps| - 1]), steps[|steps| - 1];
        AcceptedRun(s, late, steps[..|steps| - 1]) && (last.Member? ==> !Rejects(before, late, last.op)))
  }

  /** Some join of the period loses its commit. */
  predicate LosingRun(s: State, steps: seq<Churn>)
    requires s.Valid()
  {
    steps != []
    && (var before, last := ChurnRun(s, steps[..|steps| - 1]), steps[|steps| - 1];
        LosingRun(s, steps[..|steps| - 1]) || (last.Member? && LosesCommit(before, last.op)))
  }

  lemma {:induction false} RunTracks(s: State, late: nat, steps: seq<Churn>, start: History) returns (reached: History)
    requires Tracks(s, late, start, false) && AcceptedRun(s, late, steps)
    ensures Tracks(ChurnRun(s, steps), late, reached, LosingRun(s, steps))
  {
    reached := start;
    if steps != [] {
      var front, last := steps[..|steps| - 1], steps[|steps| - 1];
      reached := RunTracks(s, late, front, start);
      var before, lost := ChurnRun(s, front), LosingRun(s, front);
      match last {
        case Member(op) =>
          OpTracks(before, late, op, reached, lost);
          reached := ReachedAfter(before, op, reached);
        case DeliverOne => DeliveryTracks(before, late, reached, lost);
        case DeliverQueue => FlushTracks(before, late, reached, lost);
      }
    }
  }

  /** A fatal state: some entry will be rejected, or some commit can no longer reach one side. */
  ghost predicate Doomed(s: State, late: nat) {
    Offline(s, late) && Known(s) && (Stuck(s, late) || exists x :: Lost(s, late, x))
  }

  lemma {:induction false} DeliveryStaysFatal(s: State, late: nat)
    requires Offline(s, late) && Known(s)
    ensures Offline(DeliverNext(s), late) && Known(DeliverNext(s))
    ensures Stuck(s, late) ==> Stuck(DeliverNext(s), late)
    ensures Doomed(s, late) ==> Doomed(DeliverNext(s), late)
  {
    DeliveryKnown(s, late);
    DeliveryOwes(s, late);
    if x :| Lost(s, late, x) {
      LostStaysInDelivery(s, late, x);
    }
  }

  lemma {:induction false} FlushStaysFatal(s: State, late: nat)
    requires Offline(s, late) && Known(s)
    ensures Offline(DeliverAll(s), late) && Known(DeliverAll(s))
    ensures Stuck(s, late) ==> Stuck(DeliverAll(s), late)
    ensures Doomed(s, late) ==> Doomed(DeliverAll(s), late)
    decreases |s.pending|
  {
    if s.pending != [] {
      DeliveryStaysFatal(s, late);
      FlushStaysFatal(DeliverNext(s), late);
    }
  }

  /** No later step repairs a fatal state, whatever the members and the library do. */
  lemma {:induction false} ChurnStaysFatal(s: State, late: nat, step: Churn)
    requires Offline(s, late) && Known(s)
    ensures var t := ChurnStep(s, step);
            && Offline(t, late) && Known(t)
            && (Stuck(s, late) ==> Stuck(t, late)) && (Doomed(s, late) ==> Doomed(t, late))
  {
    match step
    case Member(op) =>
      ApplyStaysOffline(s, late, op);
      ApplyKnown(s, late, op);
      if Stuck(s, late) {
        StuckStays(s, late, op);
      } else if x :| Lost(s, late, x) {
        LostStays(s, late, op, x);
      }
    case DeliverOne => DeliveryStaysFatal(s, late);
    case DeliverQueue => FlushStaysFatal(s, late);
  }

  lemma {:induction false} RejectedRunIsStuck(s: State, late: nat, steps: seq<Churn>, start: History)
    requires Tracks(s, late, start, false)
    ensures Offline(ChurnRun(s, steps), late) && Known(ChurnRun(s, steps))
    ensures !AcceptedRun(s, late, steps) ==> Stuck(ChurnRun(s, steps), late)
  {
    if steps != [] {
      var front, last := steps[..|steps| - 1], steps[|steps| - 1];
      var before := ChurnRun(s, front);
      RejectedRunIsStuck(s, late, front, start);
      ChurnStaysFatal(before, late, last);
      if AcceptedRun(s, late, front) && last.Member? {
        var reached := RunTracks(s, late, front, start);
        StuckIffRejects(before, late, last.op, reached);
      }
    }
  }

  /** What catching up reports in a flushed state that nothing has spoiled. */
  lemma {:induction false} FlushedOutcome(t: State, late: nat, reached: History, lost: bool)
    requires Tracks(t, late, reached, lost) && t.pending == []
    ensures Reached(t.HistoryOf(late), t.backlog) == reached
    ensures Outcome(t) == if lost && |t.HistoryOf(t.active[0])| == |reached| then Diverged(t.active[0]) else CaughtUp
  {
    var c, u := t.active[0], Caught(t);
    assert Owed(t, late) == t.backlog;
    ReplayMeaning(t.HistoryOf(late), t.backlog);
    assert forall i | i != late :: u.HistoryOf(i) == t.HistoryOf(i);
    assert forall i | i in t.active :: Settling(t, i) == t.HistoryOf(i);
    if lost {
      var x :| x in t.HistoryOf(c) && Lost(t, late, x);
      StrayIsAhead(t, late, reached, x);
    }
  }

  /** The stray commit is not among what the offline member replays. */
  lemma {:induction false} StrayIsAhead(t: State, late: nat, reached: History, x: CommitId)
    requires Offline(t, late) && t.pending == [] && Lost(t, late, x) && x in t.HistoryOf(t.active[0])
    requires Replay(t.HistoryOf(late), t.backlog) == Some(reached)
    ensures x !in reached
  {
    ReplayHolds(t.HistoryOf(late), t.backlog);
    forall k | 0 <= k < |t.backlog|
      ensures Ids(t.backlog)[k] != x
    {
      assert t.backlog[k] in t.backlog;
    }
  }

  // ----- Along the canonical chain -----

  lemma {:induction false} ChainFinal(s: State, chain: History, late: nat, who: nat, i: nat)
    requires OnChain(s, chain, late, who) && i in s.active && i != late
    ensures Settling(s, i) == chain
  {
    var d := |chain| - |s.pending|;
    ForeignQueue(i, who, Entries(chain, d, |chain|));
    DecryptEntries(chain, d, |chain|);
    assert chain[..|chain|] == chain;
  }

  lemma {:induction false} EntriesKnown(chain: History, from: nat, to: nat, n: nat)
    requires from <= to <= |chain| && KnownIds(chain, n)
    ensures AllKnown(Entries(chain, from, to), n)
  {
    forall m | m in Entries(chain, from, to)
      ensures KnownCommit(m, n)
    {
      var j :| 0 <= j < to - from && Entries(chain, from, to)[j] == m;
      assert m.id == chain[from + j] && m.id in chain;
      assert forall id <- m.base :: id in chain;
    }
  }

  lemma {:induction false} ChainKnown(s: State, chain: History, late: nat, who: nat)
    requires OnChain(s, chain, late, who)
    ensures Known(s)
  {
    var d, n := |chain| - |s.pending|, s.nextId;
    assert KnownIds(chain, n);
    forall i: nat
      ensures KnownIds(s.HistoryOf(i), n)
    {
      HistoryOnChain(s, chain, late, who, i);
      assert forall k | 0 <= k < |s.HistoryOf(i)| :: s.HistoryOf(i)[k] == chain[k] && chain[k] in chain;
    }
    EntriesKnown(chain, d, |chain|, n);
    forall q | q in s.pending
      ensures KnownCommit(q.msg, n)
    {
      assert q.msg in Entries(chain, d, |chain|);
    }
    if s.backlog != [] {
      EntriesKnown(chain, |s.HistoryOf(late)|, d, n);
    }
  }

  lemma {:induction false} HistoryOnChain(s: State, chain: History, late: nat, who: nat, i: nat)
    requires OnChain(s, chain, late, who)
    ensures s.HistoryOf(i) <= chain
  {
    assert chain[..|chain|] == chain;
    if i in s.active && i != late {
      assert s.HistoryOf(i) == chain || s.HistoryOf(i) == DeliveredTo(s, chain);
    }
  }

  /** What the offline member would replay, had nothing more been committed. */
  lemma {:induction false} MissingEntries(s: State, chain: History, late: nat, who: nat)
    requires OnChain(s, chain, late, who)
    ensures s.pending != [] && who == late ==> s.HistoryOf(late) == chain && s.backlog + Foreign(late, s.pending) == []
    ensures !(s.pending != [] && who == late) ==>
              var l := |s.HistoryOf(late)|;
              && l <= |chain| && s.HistoryOf(late) == chain[..l]
              && s.backlog + Foreign(late, s.pending) == Entries(chain, l, |chain|)
    ensures Replay(s.HistoryOf(late), s.backlog + Foreign(late, s.pending)) == Some(chain)
  {
    var d := |chain| - |s.pending|;
    ForeignQueue(late, who, Entries(chain, d, |chain|));
    assert chain[..|chain|] == chain;
    if !(s.pending != [] && who == late) {
      var l := |s.HistoryOf(late)|;
      EntriesJoin(chain, l, d, |chain|);
      ReplayEntries(chain, l, |chain|);
      if s.pending == [] {
        assert Foreign(late, s.pending) == [];
      }
    }
  }

  lemma {:induction false} ChainShort(s: State, chain: History, late: nat, who: nat)
    requires OnChain(s, chain, late, who)
    ensures forall q <- s.pending :: |q.msg.base| < |chain|
  {
    var d := |chain| - |s.pending|;
    forall q | q in s.pending
      ensures |q.msg.base| < |chain|
    {
      var k :| 0 <= k < |s.pending| && s.pending[k] == q;
      assert q.msg == Commit(chain[..d + k], chain[d + k]);
    }
  }

  lemma {:induction false} ChainSettles(s: State, chain: History, late: nat, who: nat)
    requires OnChain(s, chain, late, who)
    ensures forall i | i in s.active && i != late :: Settling(s, i) <= chain
  {
    forall i | i in s.active && i != late
      ensures Settling(s, i) <= chain
    {
      ChainFinal(s, chain, late, who, i);
    }
  }

  lemma {:induction false} ChainTracks(s: State, chain: History, late: nat, who: nat)
    requires OnChain(s, chain, late, who)
    ensures Tracks(s, late, chain, false)
  {
    ChainKnown(s, chain, late, who);
    MissingEntries(s, chain, late, who);
    ChainSettles(s, chain, late, who);
    ChainShort(s, chain, late, who);
  }

  /** The first operation outside the discipline is fatal: what it commits is rejected or cannot reach everybody. */
  lemma {:induction false} UndisciplinedIsFatal(s: State, chain: History, late: nat, who: nat, op: Op)
    requires OnChain(s, chain, late, who) && !Disciplined(s, op)
    ensures Doomed(Apply(s, op), late)
  {
    ChainTracks(s, chain, late, who);
    ApplyStaysOffline(s, late, op);
    ApplyKnown(s, late, op);
    if Rejects(s, late, op) {
      StuckIffRejects(s, late, op, chain);
    } else if LosesCommit(s, op) {
      LossTracks(s, late, op, chain, false);
    } else {
      AcceptedIsLateAdd(s, chain, late, who, op);
      LateAddIsLost(s, chain, late, op);
    }
  }

  /**
   The only undisciplined operation that is neither rejected nor lost: the offline member adds behind its own queue.
   */
  lemma {:induction false} AcceptedIsLateAdd(s: State, chain: History, late: nat, who: nat, op: Op)
    requires OnChain(s, chain, late, who) && !Disciplined(s, op) && !Rejects(s, late, op) && !LosesCommit(s, op)
    ensures op.AddOp? && Committer(s, op) == late && s.pending != [] && who == late
  {
    var a, d := Committer(s, op), |chain| - |s.pending|;
    MissingEntries(s, chain, late, who);
    IssuerReached(s, late, op, chain);
    assert |chain[..d]| == d;
    if s.pending != [] {
      ForeignQueue(late, who, Entries(chain, d, |chain|));
      assert s.pending[0] in s.pending;
    }
  }

  lemma {:induction false} LateAddIsLost(s: State, chain: History, late: nat, op: Op)
    requires OnChain(s, chain, late, late) && op.AddOp? && Commits(s, op) && Committer(s, op) == late && s.pending != []
    ensures Offline(Apply(s, op), late) && Lost(Apply(s, op), late, s.nextId)
  {
    var c, t, d, x := s.active[0], Apply(s, op), |chain| - |s.pending|, s.nextId;
    ChainKnown(s, chain, late, late);
    ImmediateRound(s, late, op);
    SentMeaning(s, op);
    var sent := Sent(s, op);
    assert t.HistoryOf(late) == RoundHistory(s, late, late, sent, late);
    assert t.HistoryOf(late)[|s.HistoryOf(late)|] == x;
    assert t.HistoryOf(c) == RoundHistory(s, late, late, sent, c);
    assert |chain[..d]| < |chain|;
    BehindRound(s.HistoryOf(c), chain, sent);
    assert KnownIds(s.HistoryOf(c), s.nextId);
  }

  /** A period either keeps to the chain or ends in a fatal state. */
  lemma {:induction false} DisciplinedOrDoomed(s: State, steps: seq<Churn>, chain: History, late: nat, who: nat)
    requires OnChain(s, chain, late, who)
    ensures !DisciplinedRun(s, steps) ==> Doomed(ChurnRun(s, steps), late)
  {
    if steps != [] {
      var front, last := steps[..|steps| - 1], steps[|steps| - 1];
      var before := ChurnRun(s, front);
      if DisciplinedRun(s, front) {
        var extended, issuer := ChurnFollowsChain(s, front, chain, late, who);
        if last.Member? && !Disciplined(before, last.op) {
          UndisciplinedIsFatal(before, extended, late, issuer, last.op);
        }
      } else {
        DisciplinedOrDoomed(s, front, chain, late, who);
        ChurnStaysFatal(before, late, last);
      }
    }
  }

  /** A fatal state is never one of agreement. */
  lemma {:induction false} DoomedDisagrees(t: State, late: nat)
    requires Doomed(t, late) && t.pending == []
    ensures !CatchesUp(t)
  {
    assert Owed(t, late) == t.backlog;
    var c := t.active[0];
    if x :| Lost(t, late, x) {
      if Replay(t.HistoryOf(late), t.backlog).Some? {
        ReplayHolds(t.HistoryOf(late), t.backlog);
        var reached := Replay(t.HistoryOf(late), t.backlog).value;
        if x in t.HistoryOf(c) {
          StrayIsAhead(t, late, reached, x);
        }
        assert x in t.HistoryOf(late) ==> x in reached;
      }
    }
  }

  // ----- Main results -----

  /**
   Over every offline period and every library behaviour: flush and replay end with everybody on one history exactly
   when every operation was disciplined at the state it met.
   */
  lemma {:induction false} SafeIffDisciplined(s: State, steps: seq<Churn>, chain: History, late: nat, who: nat)
    requires OnChain(s, chain, late, who)
    ensures CatchesUp(DeliverAll(ChurnRun(s, steps))) <==> DisciplinedRun(s, steps)
  {
    if DisciplinedRun(s, steps) {
      var extended := OfflinePeriodCatchesUp(s, steps, chain, late, who);
    } else {
      DisciplinedOrDoomed(s, steps, chain, late, who);
      FlushStaysFatal(ChurnRun(s, steps), late);
      DeliverAllKeepsValid(ChurnRun(s, steps));
      DoomedDisagrees(DeliverAll(ChurnRun(s, steps)), late);
    }
  }

  /**
   What catching up reports after any offline period: a rejection exactly when some operation met the guard that
   rejects; otherwise a divergence from the coordinator exactly when a join has lost its commit and the coordinator is
   at the epoch reached; otherwise success.
   */
  lemma {:induction false} OutcomeOfPeriod(s: State, steps: seq<Churn>, chain: History, late: nat, who: nat)
    requires OnChain(s, chain, late, who)
    ensures var t := DeliverAll(ChurnRun(s, steps));
            && t.Valid() && t.excluded == Some(late) && late in t.active && t.active != []
            && (Outcome(t).Rejected? <==> !AcceptedRun(s, late, steps))
            && (AcceptedRun(s, late, steps) ==>
                  Outcome(t) == if LosingRun(s, steps)
                                   && |t.HistoryOf(t.active[0])| == |Reached(t.HistoryOf(late), t.backlog)|
                                then Diverged(t.active[0]) else CaughtUp)
  {
    var before := ChurnRun(s, steps);
    var t := DeliverAll(before);
    ChainTracks(s, chain, late, who);
    RejectedRunIsStuck(s, late, steps, chain);
    FlushStaysFatal(before, late);
    DeliverAllKeepsValid(before);
    if AcceptedRun(s, late, steps) {
      var reached := RunTracks(s, late, steps, chain);
      FlushTracks(before, late, reached, LosingRun(s, steps));
      FlushedOutcome(t, late, reached, LosingRun(s, steps));
    } else {
      assert Owed(t, late) == t.backlog;
      ReplayMeaning(t.HistoryOf(late), t.backlog);
    }
  }

  /** A disciplined period is reported as caught up. */
  lemma {:induction false} DisciplinedIsCaughtUp(s: State, steps: seq<Churn>, chain: History, late: nat, who: nat)
    requires OnChain(s, chain, late, who) && DisciplinedRun(s, steps)
    ensures var t := DeliverAll(ChurnRun(s, steps));
            t.Valid() && t.excluded == Some(late) && late in t.active && Outcome(t) == CaughtUp
    ensures AcceptedRun(s, late, steps)
  {
    var t := DeliverAll(ChurnRun(s, steps));
    var extended := OfflinePeriodCatchesUp(s, steps, chain, late, who);
    OutcomeOfPeriod(s, steps, chain, late, who);
    AgreementIsCaughtUp(t, late);
  }

  /** Where everybody agrees after the replay, catching up reports success. */
  lemma {:induction false} AgreementIsCaughtUp(t: State, late: nat)
    requires t.Valid() && t.excluded == Some(late) && late in t.active && CatchesUp(t)
    ensures Outcome(t) == CaughtUp
  {
    ReplayMeaning(t.HistoryOf(late), t.backlog);
    var u, reached := Caught(t), Reached(t.HistoryOf(late), t.backlog);
    assert u.HistoryOf(late) == reached;
    assert forall i | i in t.active && i != late :: u.HistoryOf(i) == t.HistoryOf(i) == reached;
  }

  // ----- Periods outside the discipline -----

  /** A period of two operations. */
  function Two(first: Op, second: Op): seq<Churn> { [Member(first), Member(second)] }

  lemma {:induction false} TwoSteps(s: State, late: nat, first: Op, second: Op)
    requires s.Valid()
    ensures Apply(s, first).Valid()
    ensures var s1, steps := Apply(s, first), Two(first, second);
            && ChurnRun(s, steps) == Apply(s1, second)
            && (DisciplinedRun(s, steps) <==> Disciplined(s, first) && Disciplined(s1, second))
            && (AcceptedRun(s, late, steps) <==> !Rejects(s, late, first) && !Rejects(s1, late, second))
            && (LosingRun(s, steps) <==> LosesCommit(s, first) || LosesCommit(s1, second))
  {
    ApplyKeepsValid(s, first);
    var steps := Two(first, second);
    assert steps[..1] == [Member(first)] && [Member(first)][..0] == [];
    OneStep(s, late, first);
    assert ChurnRun(s, steps) == ChurnStep(ChurnRun(s, steps[..1]), Member(second));
  }

  lemma {:induction false} OneStep(s: State, late: nat, op: Op)
    requires s.Valid()
    ensures var steps := [Member(op)];
            && ChurnRun(s, steps) == Apply(s, op) && (DisciplinedRun(s, steps) <==> Disciplined(s, op))
            && (AcceptedRun(s, late, steps) <==> !Rejects(s, late, op)) && (LosingRun(s, steps) <==> LosesCommit(s, op))
  {
    assert [Member(op)][..0] == [];
    assert ChurnRun(s, [Member(op)]) == ChurnStep(ChurnRun(s, []), Member(op));
  }

  /** The offline member updates and then adds somebody while its update is still queued. */
  lemma {:induction false} LateAddGoesUnnoticed(s: State, chain: History, late: nat, who: nat, u: nat, x: nat,
        lib: AddLib)
    requires OnChain(s, chain, late, who) && s.pending == [] && s.backlog == [] && s.Norm(u) == late
    requires AddProceeds(s, u, x) && lib.keyPackage && lib.committed
    ensures var t := DeliverAll(ChurnRun(s, Two(UpdateOp(u, true), AddOp(u, x, lib))));
            && t.Valid() && t.excluded == Some(late) && late in t.active
            && Outcome(t) == CaughtUp && !CatchesUp(t)
  {
    var update, add := UpdateOp(u, true), AddOp(u, x, lib);
    TwoSteps(s, late, update, add);
    LateAddUndisciplined(s, late, u, x, lib);
    SafeIffDisciplined(s, Two(update, add), chain, late, who);
    OutcomeOfPeriod(s, Two(update, add), chain, late, who);
  }

  lemma {:induction false} LateAddUndisciplined(s: State, late: nat, u: nat, x: nat, lib: AddLib)
    requires Offline(s, late) && s.pending == [] && s.backlog == [] && s.Norm(u) == late
    requires AddProceeds(s, u, x) && lib.keyPackage && lib.committed
    ensures var s1, update, add := Apply(s, UpdateOp(u, true)), UpdateOp(u, true), AddOp(u, x, lib);
            && s1.Valid() && !Rejects(s, late, update) && !LosesCommit(s, update)
            && !Rejects(s1, late, add) && !LosesCommit(s1, add) && !Disciplined(s1, add)
  {
    var s1 := Apply(s, UpdateOp(u, true));
    ApplyStaysOffline(s, late, UpdateOp(u, true));
    assert s1 == Queued(s, late);
    assert Foreign(late, []) == [];
    ForeignAppend(late, [], QueuedMsg(late, Commit(s.HistoryOf(late), s.nextId)));
    assert s1.pending == [] + [QueuedMsg(late, Commit(s.HistoryOf(late), s.nextId))];
    assert Owed(s, late) == [] && Owed(s1, late) == [];
  }

  lemma {:induction false} AcceptedAppend(h: History, msgs: seq<Commit>, more: seq<Commit>)
    requires Replay(h, msgs).Some?
    ensures Accepted(h, msgs + more) == |msgs| + Accepted(Replay(h, msgs).value, more)
    decreases |msgs|
  {
    if msgs == [] {
      assert msgs + more == more;
    } else {
      assert (msgs + more)[1..] == msgs[1..] + more;
      AcceptedAppend(h + [msgs[0].id], msgs[1..], more);
    }
  }

  /** Of two commits on one history the second is rejected. */
  lemma {:induction false} SecondRejected(h: History, msgs: seq<Commit>, reached: History, x: CommitId, y: CommitId)
    requires Replay(h, msgs) == Some(reached)
    ensures Accepted(h, msgs + [Commit(reached, x), Commit(reached, y)]) == |msgs| + 1
  {
    var two := [Commit(reached, x), Commit(reached, y)];
    AcceptedAppend(h, msgs, two);
    assert two[1..] == [Commit(reached, y)];
    assert |reached + [x]| != |reached|;
  }

  /** Two members update before the queue is flushed: catching up rejects the second update, whoever they are. */
  lemma {:induction false} ConcurrentUpdatesBreakCatchup(s: State, chain: History, late: nat, who: nat, a: nat, b: nat)
    requires OnChain(s, chain, late, who) && s.pending == []
    requires s.Norm(a) in s.active && s.Norm(b) in s.active
    requires s.Norm(a) != s.Norm(b) && s.Norm(a) != late && s.Norm(b) != late
    ensures var t := DeliverAll(ChurnRun(s, Two(UpdateOp(a, true), UpdateOp(b, true))));
            && t.Valid() && t.excluded == Some(late) && late in t.active
            && Outcome(t) == Rejected(|s.backlog| + 1) && Replay(t.HistoryOf(late), t.backlog).None?
  {
    var first, second := UpdateOp(a, true), UpdateOp(b, true);
    var s1 := Apply(s, first);
    TwoSteps(s, late, first, second);
    ApplyStaysOffline(s, late, first);
    ApplyStaysOffline(s1, late, second);
    HistoriesOnChain(s, chain, late, who, s.Norm(a), s.Norm(b));
    TwoQueued(s, chain, late, s.Norm(a), s.Norm(b));
    FlushStaysOffline(Apply(s1, second), late);
    MissingEntries(s, chain, late, who);
    assert s.backlog + Foreign(late, s.pending) == s.backlog;
    SecondRejected(s.HistoryOf(late), s.backlog, chain, s.nextId, s.nextId + 1);
    ReplayMeaning(s.HistoryOf(late), Owed(Apply(s1, second), late));
  }

  lemma {:induction false} HistoriesOnChain(s: State, chain: History, late: nat, who: nat, a: nat, b: nat)
    requires OnChain(s, chain, late, who) && s.pending == []
    requires a in s.active && b in s.active && a != late && b != late
    ensures s.HistoryOf(a) == chain && s.HistoryOf(b) == chain
  {
    assert chain[..|chain|] == chain;
  }

  lemma {:induction false} TwoQueued(s: State, chain: History, late: nat, a: nat, b: nat)
    requires a < |s.groups| && b < |s.groups| && a != b && a != late && b != late && s.pending == []
    requires s.HistoryOf(a) == chain && s.HistoryOf(b) == chain
    ensures var s2 := Queued(Queued(s, a), b);
            && Owed(s2, late) == s.backlog + [Commit(chain, s.nextId), Commit(chain, s.nextId + 1)]
            && s2.HistoryOf(late) == s.HistoryOf(late)
  {
    var s1 := Queued(s, a);
    var m, n := QueuedMsg(a, Commit(chain, s.nextId)), QueuedMsg(b, Commit(chain, s.nextId + 1));
    assert s1.pending == [] + [m] && Queued(s1, b).pending == [m] + [n];
    ForeignAppend(late, [], m);
    ForeignAppend(late, [m], n);
    assert [] + [m] == [m] && [] + [m.msg] + [n.msg] == [m.msg, n.msg];
  }

  /** An addition that goes well. */
  function Grown(s: State, adder: nat, addee: nat): State
    requires s.Valid()
  {
    AddMember(s, adder, addee, AddLib(true, true, true, true, Some(addee)))
  }

  /** A settled group of 8 clients with known members on a known history. */
  ghost predicate Stands(s: State, members: seq<nat>, h: History) {
    && Settled(s) && |s.groups| == 8 && s.active == members && s.nextId == |h|
    && forall i | i in members :: s.HistoryOf(i) == h
  }

  lemma {:induction false} GrownStands(s: State, members: seq<nat>, h: History, adder: nat, addee: nat)
    requires Stands(s, members, h) && adder in members && addee !in members && adder < 8 && addee < 8
    ensures Stands(Grown(s, adder, addee), members + [addee], h + [|h|])
  {
    MemberAdded(s, adder, addee, AddLib(true, true, true, true, Some(addee)));
  }

  /** The group as the offline run seeds it: client 0 creates it, then 1, 2 and 3 are added in turn. */
  function Seed(k: nat): (s: State)
    ensures s.Valid()
  {
    if k == 0 then
      CreateGroupKeepsValid(Fresh(8), 0, CreateLib(true, Some(0)));
      CreateGroup(Fresh(8), 0, CreateLib(true, Some(0)))
    else
      var adder := if k <= 2 then 0 else 1;
      AddMemberKeepsValid(Seed(k - 1), adder, k, AddLib(true, true, true, true, Some(k)));
      Grown(Seed(k - 1), adder, k)
  }

  function UpTo(k: nat): (s: seq<nat>)
    ensures |s| == k && forall i | 0 <= i < k :: s[i] == i
  {
    if k == 0 then [] else UpTo(k - 1) + [k - 1]
  }

  lemma {:induction false} SeedStands(k: nat)
    requires k < 8
    ensures Stands(Seed(k), UpTo(k + 1), UpTo(k))
  {
    if k == 0 {
      FreshIsSettled(8, CreateLib(true, Some(0)));
      assert Seed(0).active == UpTo(1);
      assert Seed(0).HistoryOf(0) == UpTo(0);
    } else {
      SeedStands(k - 1);
      var members := UpTo(k);
      assert members[0] == 0 && (k > 2 ==> members[1] == 1);
      GrownStands(Seed(k - 1), members, UpTo(k - 1), if k <= 2 then 0 else 1, k);
    }
  }

  /** Every run of the fuzz target once its seeding has succeeded and client 3 is offline. */
  lemma {:induction false} SeededPeriod(steps: seq<Churn>)
    ensures var s := SetExcluded(Seed(3), 3);
            && s.Valid() && s.excluded == Some(3)
            && var t := DeliverAll(ChurnRun(s, steps));
               && t.Valid() && t.excluded == Some(3) && 3 in t.active
               && (CatchesUp(t) <==> DisciplinedRun(s, steps))
               && (Outcome(t).Rejected? <==> !AcceptedRun(s, 3, steps))
               && (Outcome(t).Diverged? ==> LosingRun(s, steps))
  {
    SeedGoesOffline(3);
    SafeIffDisciplined(SetExcluded(Seed(3), 3), steps, UpTo(3), 3, 0);
    OutcomeOfPeriod(SetExcluded(Seed(3), 3), steps, UpTo(3), 3, 0);
  }

  /** The run of the fuzz target: `k + 1` seeded members, the last one offline, and 0 and 1 update behind each other. */
  lemma {:induction false} SeededConcurrentUpdates(k: nat)
    requires 2 <= k < 8
    ensures SetExcluded(Seed(k), k).Valid() && SetExcluded(Seed(k), k).excluded == Some(k)
    ensures var t := DeliverAll(ChurnRun(SetExcluded(Seed(k), k), Two(UpdateOp(0, true), UpdateOp(1, true))));
            t.Valid() && t.excluded == Some(k) && k in t.active && Outcome(t) == Rejected(1)
  {
    SeedGoesOffline(k);
    ConcurrentUpdatesBreakCatchup(SetExcluded(Seed(k), k), UpTo(k), k, 0, 0, 1);
  }

  lemma {:induction false} StandsGoesOffline(s: State, members: seq<nat>, h: History, k: nat)
    requires Stands(s, members, h) && 2 <= |members| && k in members && k < 8 && members[0] != k
    requires forall id | id in h :: id < |h|
    ensures var t := SetExcluded(s, k);
            OnChain(t, h, k, 0) && t.pending == [] && t.backlog == [] && |t.groups| == 8 && t.active == members
  {
    assert s.Norm(k) == k;
    GoingOfflineStartsChain(s, k, h);
  }

  lemma {:induction false} SeedGoesOffline(k: nat)
    requires 2 <= k < 8
    ensures var t := SetExcluded(Seed(k), k);
            && OnChain(t, UpTo(k), k, 0) && t.pending == [] && t.backlog == [] && |t.groups| == 8
            && 0 in t.active && 1 in t.active
  {
    SeedStands(k);
    var members := UpTo(k + 1);
    assert members[0] == 0 && members[1] == 1 && members[k] == k;
    StandsGoesOffline(Seed(k), members, UpTo(k), k);
  }
}
