/**
 The in-process MLS test environment. A group is abstracted as its commit history, and a commit is
 accepted exactly when it was built on the receiver's current history. Everything else the library
 may do, such as failing at any call whose error is turned into an early return, is an input of the
 operation.
 */
module MlsModel {
  import opened Wrappers

  // ----- Groups and messages -----

  /** Every commit is fresh randomness, hence distinct from every other. */
  type CommitId = nat

  /** The commits a member has applied, oldest first; its length is the epoch. */
  type History = seq<CommitId>

  /** A commit message: the history it was built on, and its identity. */
  datatype Commit = Commit(base: History, id: CommitId)

  datatype QueuedMsg = QueuedMsg(sender: nat, msg: Commit)

  /** Decrypting a commit: applied if built on the current history, otherwise rejected without effect. */
  function Decrypt(g: Option<History>, msg: Commit): Option<History> {
    if g.Some? && g.value == msg.base then Some(g.value + [msg.id]) else g
  }

  // ----- What the library does during one operation -----

  /** `committed`: both `new_commit` and `merge_pending_commit` succeeded. */
  datatype CreateLib = CreateLib(created: bool, leaf: Option<nat>)

  datatype JoinLib = JoinLib(committed: bool, bundleComplete: bool, joined: bool, leaf: Option<nat>)

  datatype AddLib = AddLib(keyPackage: bool, committed: bool, bundleComplete: bool, joined: bool, leaf: Option<nat>)

  // ----- The state and its operations as functions -----

  ghost predicate NoDuplicates(s: seq<nat>) {
    forall k, l | 0 <= k < l < |s| :: s[k] != s[l]
  }

  datatype State = State(
    groups: seq<Option<History>>,
    leafOf: seq<Option<nat>>,
    active: seq<nat>,
    pending: seq<QueuedMsg>,
    history: seq<QueuedMsg>,
    excluded: Option<nat>,
    backlog: seq<Commit>,
    nextId: CommitId)
  {
    /** Between 1 and 8 clients; `active` lists, once each, exactly the clients that hold a group. */
    ghost predicate Valid() {
      && 1 <= |groups| <= 8
      && |leafOf| == |groups|
      && (forall k | 0 <= k < |active| :: active[k] < |groups|)
      && NoDuplicates(active)
      && (forall i | 0 <= i < |groups| :: groups[i].Some? <==> i in active)
    }

    function Norm(raw: nat): nat
      requires |groups| > 0
    {
      raw % |groups|
    }

    function HistoryOf(i: nat): History {
      if i < |groups| && groups[i].Some? then groups[i].value else []
    }

    /** Whether a message sent to all active members but those in `skip` reaches client `i`'s group. */
    predicate Reaches(i: nat, skip: set<nat>) {
      i in active && i !in skip && excluded != Some(i)
    }

    /** Delivers to every active member outside `skip`; the offline member's copy goes to the backlog. */
    function Send(skip: set<nat>, msg: Commit): State {
      this.(
        groups := seq(|groups|, i requires 0 <= i < |groups| =>
                    if Reaches(i, skip) then Decrypt(groups[i], msg) else groups[i]),
        backlog := if excluded.Some? && excluded.value in active && excluded.value !in skip
                   then backlog + [msg] else backlog)
    }

    /** Member `i` commits and merges its own commit; the message is returned beside the state. */
    function CommitBy(i: nat): (State, Commit)
      requires i < |groups|
    {
      var msg := Commit(HistoryOf(i), nextId);
      (this.(groups := groups[i := Some(HistoryOf(i) + [nextId])], nextId := nextId + 1), msg)
    }

    function Enroll(i: nat, h: History, leaf: Option<nat>): State
      requires i < |groups| == |leafOf|
    {
      this.(groups := groups[i := Some(h)], leafOf := leafOf[i := leaf], active := active + [i])
    }
  }

  function CreateGroup(s: State, raw: nat, lib: CreateLib): State
    requires |s.groups| == |s.leafOf| > 0
  {
    if s.active != [] || !lib.created then s else s.Enroll(s.Norm(raw), [], lib.leaf)
  }

  /** Whether a join gets as far as asking the coordinator for a commit. */
  predicate JoinProceeds(s: State, raw: nat)
    requires |s.groups| > 0
  {
    s.active != [] && s.Norm(raw) !in s.active
  }

  /** The joiner's external commit goes to everybody, and the joiner starts from its result. */
  function ExternalJoin(s: State, joiner: nat, base: History, leaf: Option<nat>): State
    requires joiner < |s.groups| == |s.leafOf|
  {
    var external := Commit(base, s.nextId);
    s.(nextId := s.nextId + 1).Send({}, external).Enroll(joiner, base + [external.id], leaf)
  }

  function Join(s: State, raw: nat, lib: JoinLib): State
    requires s.Valid()
  {
    if !JoinProceeds(s, raw) || !lib.committed then s
    else
      var joiner, coordinator := s.Norm(raw), s.active[0];
      var (s1, update) := s.CommitBy(coordinator);
      if !lib.bundleComplete then s1
      else
        var s2 := s1.Send({coordinator}, update);
        if !lib.joined then s2 else ExternalJoin(s2, joiner, update.base + [update.id], lib.leaf)
  }

  predicate AddProceeds(s: State, adderRaw: nat, addeeRaw: nat)
    requires |s.groups| > 0
  {
    && s.active != [] && s.Norm(adderRaw) in s.active
    && s.Norm(addeeRaw) != s.Norm(adderRaw) && s.Norm(addeeRaw) !in s.active
  }

  function AddMember(s: State, adderRaw: nat, addeeRaw: nat, lib: AddLib): State
    requires s.Valid()
  {
    if !AddProceeds(s, adderRaw, addeeRaw) || !lib.keyPackage || !lib.committed then s
    else
      var adder, addee := s.Norm(adderRaw), s.Norm(addeeRaw);
      var (s1, add) := s.CommitBy(adder);
      var s2 := s1.Send({adder}, add);
      if !lib.bundleComplete || !lib.joined then s2
      else s2.Enroll(addee, add.base + [add.id], lib.leaf)
  }

  function Update(s: State, raw: nat, committed: bool): State
    requires s.Valid()
  {
    if s.Norm(raw) !in s.active || !committed then s
    else
      var (s1, update) := s.CommitBy(s.Norm(raw));
      s1.(pending := s1.pending + [QueuedMsg(s.Norm(raw), update)])
  }

  predicate RemoveProceeds(s: State, raw: nat)
    requires s.Valid()
  {
    && |s.active| >= 2
    && s.Norm(raw) != s.active[0]
    && s.excluded != Some(s.Norm(raw))
    && s.Norm(raw) in s.active
    && s.leafOf[s.Norm(raw)].Some?
  }

  function Without(active: seq<nat>, target: nat): seq<nat> {
    if active == [] then []
    else if active[0] == target then Without(active[1..], target)
    else [active[0]] + Without(active[1..], target)
  }

  function Evict(s: State, target: nat): State
    requires target < |s.groups| == |s.leafOf|
  {
    s.(groups := s.groups[target := None], leafOf := s.leafOf[target := None], active := Without(s.active, target))
  }

  function Remove(s: State, raw: nat, committed: bool): State
    requires s.Valid()
  {
    if !RemoveProceeds(s, raw) || !committed then s
    else
      var target, coordinator := s.Norm(raw), s.active[0];
      var (s1, removal) := s.CommitBy(coordinator);
      Evict(s1.Send({coordinator}, removal), target)
  }

  function DeliverNext(s: State): State {
    if s.pending == [] then s
    else
      var qm := s.pending[0];
      var s1 := s.(pending := s.pending[1..]).Send({qm.sender}, qm.msg);
      s1.(history := s1.history + [qm])
  }

  function DeliverAll(s: State): State
    decreases |s.pending|
  {
    if s.pending == [] then s else DeliverAll(DeliverNext(s))
  }

  function SetExcluded(s: State, raw: nat): State
    requires |s.groups| > 0
  {
    if |s.active| < 2 || s.Norm(raw) == s.active[0] || s.Norm(raw) !in s.active then s
    else s.(backlog := [], excluded := Some(s.Norm(raw)))
  }

  /** In-order replay: the history reached, or nothing if some entry is rejected. */
  function Replay(h: History, msgs: seq<Commit>): Option<History>
    decreases |msgs|
  {
    if msgs == [] then Some(h)
    else if msgs[0].base != h then None
    else Replay(h + [msgs[0].id], msgs[1..])
  }

  /** What catching up reports; the last two stop the run. */
  datatype CatchupOutcome = NobodyOffline | CaughtUp | Rejected(index: nat) | Diverged(peer: nat)

  /** How many entries in-order replay accepts before it meets one that is built on another history. */
  function Accepted(h: History, msgs: seq<Commit>): (n: nat)
    ensures n <= |msgs|
    decreases |msgs|
  {
    if msgs == [] || msgs[0].base != h then 0 else 1 + Accepted(h + [msgs[0].id], msgs[1..])
  }

  /** The history those entries lead to. */
  function Reached(h: History, msgs: seq<Commit>): History
    decreases |msgs|
  {
    if msgs == [] || msgs[0].base != h then h else Reached(h + [msgs[0].id], msgs[1..])
  }

  /** The first peer of `late`, from position `k` of `active`, that is at the same epoch. */
  function FirstPeer(s: State, late: nat, k: nat): (peer: Option<nat>)
    ensures peer.Some? ==>
              peer.value in s.active && peer.value != late && |s.HistoryOf(peer.value)| == |s.HistoryOf(late)|
    decreases |s.active| - k
  {
    if k >= |s.active| then None
    else if s.active[k] != late && |s.HistoryOf(s.active[k])| == |s.HistoryOf(late)| then Some(s.active[k])
    else FirstPeer(s, late, k + 1)
  }

  /** The environment once the offline member has replayed what it accepts of its backlog. */
  function Caught(s: State): State
    requires s.excluded.Some? && s.excluded.value < |s.groups|
  {
    var late := s.excluded.value;
    s.(groups := s.groups[late := Some(Reached(s.HistoryOf(late), s.backlog))], excluded := None, backlog := [])
  }

  /** What catching up reports: a rejection, a peer at the same epoch on another history, or success. */
  function Outcome(s: State): CatchupOutcome
    requires s.excluded.Some? ==> s.excluded.value < |s.groups|
  {
    if s.excluded.None? then NobodyOffline
    else
      var late := s.excluded.value;
      var n := Accepted(s.HistoryOf(late), s.backlog);
      if n < |s.backlog| then Rejected(n)
      else
        var t := Caught(s);
        match FirstPeer(t, late, 0)
        case None => CaughtUp
        case Some(m) => if t.HistoryOf(m) == t.HistoryOf(late) then CaughtUp else Diverged(m)
  }

  /** Replay succeeds exactly when every entry is accepted; either way the accepted ones lead to what is reached. */
  lemma {:induction false} ReplayMeaning(h: History, msgs: seq<Commit>)
    ensures Replay(h, msgs) == if Accepted(h, msgs) == |msgs| then Some(Reached(h, msgs)) else None
    ensures Replay(h, msgs[..Accepted(h, msgs)]) == Some(Reached(h, msgs))
    ensures Accepted(h, msgs) < |msgs| ==> msgs[Accepted(h, msgs)].base != Reached(h, msgs)
    decreases |msgs|
  {
    if msgs != [] && msgs[0].base == h {
      ReplayMeaning(h + [msgs[0].id], msgs[1..]);
      var n := Accepted(h, msgs);
      assert msgs[..n][1..] == msgs[1..][..n - 1];
    }
  }

  lemma {:induction false} ReplayAppend(h: History, msgs: seq<Commit>, more: seq<Commit>)
    ensures Replay(h, msgs + more)
            == match Replay(h, msgs) case None => None case Some(reached) => Replay(reached, more)
    decreases |msgs|
  {
    if msgs == [] {
      assert msgs + more == more;
    } else {
      assert (msgs + more)[1..] == msgs[1..] + more;
      ReplayAppend(h + [msgs[0].id], msgs[1..], more);
    }
  }

  // ----- Every operation, under every library outcome, keeps `Valid` -----

  lemma WithoutMeaning(active: seq<nat>, target: nat)
    requires NoDuplicates(active)
    ensures forall i :: i in Without(active, target) <==> i in active && i != target
    ensures NoDuplicates(Without(active, target))
  {
    if active != [] {
      var rest := active[1..];
      assert forall k | 0 <= k < |rest| :: rest[k] == active[k + 1];
      assert NoDuplicates(rest);
      WithoutMeaning(rest, target);
      assert active[0] !in rest;
    }
  }

  lemma SendKeepsValid(s: State, skip: set<nat>, msg: Commit)
    requires s.Valid()
    ensures s.Send(skip, msg).Valid()
  {
  }

  lemma CommitByKeepsValid(s: State, i: nat)
    requires s.Valid() && i in s.active
    ensures s.CommitBy(i).0.Valid()
  {
  }

  lemma EnrollKeepsValid(s: State, i: nat, h: History, leaf: Option<nat>)
    requires s.Valid() && i < |s.groups| && i !in s.active
    ensures s.Enroll(i, h, leaf).Valid()
  {
    var t := s.Enroll(i, h, leaf);
    assert i == t.active[|s.active|];
    forall j | 0 <= j < |t.groups|
      ensures t.groups[j].Some? <==> j in t.active
    {
      if j in s.active {
        var k :| 0 <= k < |s.active| && s.active[k] == j;
        assert t.active[k] == j;
      }
    }
  }

  lemma CreateGroupKeepsValid(s: State, raw: nat, lib: CreateLib)
    requires s.Valid()
    ensures CreateGroup(s, raw, lib).Valid()
  {
    if s.active == [] && lib.created {
      EnrollKeepsValid(s, s.Norm(raw), [], lib.leaf);
    }
  }

  lemma ExternalJoinKeepsValid(s: State, joiner: nat, base: History, leaf: Option<nat>)
    requires s.Valid() && joiner < |s.groups| && joiner !in s.active
    ensures ExternalJoin(s, joiner, base, leaf).Valid()
  {
    var external, next := Commit(base, s.nextId), s.(nextId := s.nextId + 1);
    SendKeepsValid(next, {}, external);
    EnrollKeepsValid(next.Send({}, external), joiner, base + [external.id], leaf);
  }

  lemma JoinKeepsValid(s: State, raw: nat, lib: JoinLib)
    requires s.Valid()
    ensures Join(s, raw, lib).Valid()
  {
    if JoinProceeds(s, raw) && lib.committed {
      var coordinator := s.active[0];
      CommitByKeepsValid(s, coordinator);
      var (s1, update) := s.CommitBy(coordinator);
      SendKeepsValid(s1, {coordinator}, update);
      ExternalJoinKeepsValid(s1.Send({coordinator}, update), s.Norm(raw), update.base + [update.id], lib.leaf);
    }
  }

  lemma AddMemberKeepsValid(s: State, adderRaw: nat, addeeRaw: nat, lib: AddLib)
    requires s.Valid()
    ensures AddMember(s, adderRaw, addeeRaw, lib).Valid()
  {
    if AddProceeds(s, adderRaw, addeeRaw) && lib.keyPackage && lib.committed {
      var adder, addee := s.Norm(adderRaw), s.Norm(addeeRaw);
      CommitByKeepsValid(s, adder);
      var (s1, add) := s.CommitBy(adder);
      SendKeepsValid(s1, {adder}, add);
      EnrollKeepsValid(s1.Send({adder}, add), addee, add.base + [add.id], lib.leaf);
    }
  }

  lemma UpdateKeepsValid(s: State, raw: nat, committed: bool)
    requires s.Valid()
    ensures Update(s, raw, committed).Valid()
  {
    if s.Norm(raw) in s.active && committed {
      CommitByKeepsValid(s, s.Norm(raw));
    }
  }

  lemma EvictKeepsValid(s: State, target: nat)
    requires s.Valid() && target < |s.groups|
    ensures Evict(s, target).Valid()
  {
    WithoutMeaning(s.active, target);
    var t := Evict(s, target);
    forall k | 0 <= k < |t.active|
      ensures t.active[k] < |t.groups|
    {
      assert t.active[k] in s.active;
    }
  }

  lemma RemoveKeepsValid(s: State, raw: nat, committed: bool)
    requires s.Valid()
    ensures Remove(s, raw, committed).Valid()
  {
    if RemoveProceeds(s, raw) && committed {
      var target, coordinator := s.Norm(raw), s.active[0];
      CommitByKeepsValid(s, coordinator);
      var (s1, removal) := s.CommitBy(coordinator);
      SendKeepsValid(s1, {coordinator}, removal);
      EvictKeepsValid(s1.Send({coordinator}, removal), target);
    }
  }

  lemma DeliverNextKeepsValid(s: State)
    requires s.Valid()
    ensures DeliverNext(s).Valid()
  {
    if s.pending != [] {
      SendKeepsValid(s.(pending := s.pending[1..]), {s.pending[0].sender}, s.pending[0].msg);
    }
  }

  lemma {:induction false} DeliverAllKeepsValid(s: State)
    requires s.Valid()
    ensures DeliverAll(s).Valid() && DeliverAll(s).pending == []
    decreases |s.pending|
  {
    if s.pending != [] {
      DeliverNextKeepsValid(s);
      DeliverAllKeepsValid(DeliverNext(s));
    }
  }
}
