/** The MLS test environment as an object: its fields, and its methods proved against `MlsModel`. */
module MlsEnv {
  import opened Wrappers
  import opened MlsModel
  import M = MlsModel

  /** The mutable environment; `State` is its value. */
  class TestMlsEnv {
    var groups: seq<Option<History>>
    var leafOf: seq<Option<nat>>
    var active: seq<nat>
    var pending: seq<QueuedMsg>
    var history: seq<QueuedMsg>
    var excluded: Option<nat>
    var backlog: seq<Commit>
    var nextId: CommitId

    ghost function Now(): State
      reads this
    {
      State(groups, leafOf, active, pending, history, excluded, backlog, nextId)
    }

    ghost predicate Valid()
      reads this
    {
      Now().Valid()
    }

    /** `n` clients, clamped to 1..8, and no group yet. */
    constructor (n: nat)
      ensures Valid()
      ensures var size := if n < 1 then 1 else if n > 8 then 8 else n;
              Now() == State(seq(size, _ => None), seq(size, _ => None), [], [], [], None, [], 0)
    {
      var size := if n < 1 then 1 else if n > 8 then 8 else n;
      groups, leafOf := seq(size, _ => None), seq(size, _ => None);
      active, pending, history := [], [], [];
      excluded, backlog, nextId := None, [], 0;
    }

    function Norm(raw: nat): nat
      requires |groups| > 0
      reads this
    {
      raw % |groups|
    }

    /** `new_commit` followed by `merge_pending_commit`, both successful. */
    method CommitBy(i: nat) returns (msg: Commit)
      requires Valid() && i in active
      modifies this
      ensures Valid() && Now() == old(Now().CommitBy(i).0) && msg == old(Now().CommitBy(i).1)
    {
      CommitByKeepsValid(Now(), i);
      msg := Commit(groups[i].value, nextId);
      groups := groups[i := Some(groups[i].value + [nextId])];
      nextId := nextId + 1;
    }

    /** One message to one member; withheld in the backlog if that member is offline. */
    method DeliverTo(member: nat, msg: Commit)
      requires member < |groups|
      modifies this`groups, this`backlog
      ensures groups == if excluded == Some(member) then old(groups)
                        else old(groups)[member := Decrypt(old(groups)[member], msg)]
      ensures backlog == if excluded == Some(member) then old(backlog) + [msg] else old(backlog)
    {
      if excluded == Some(member) {
        backlog := backlog + [msg];
        return;
      }
      if groups[member].Some? {
        groups := groups[member := Decrypt(groups[member], msg)];
      }
    }

    /** The groups and backlog once the first `k` active members have been sent a message. */
    ghost predicate SentTo(before: State, k: nat, skip: set<nat>, msg: Commit)
      reads this
    {
      && k <= |before.active| && |groups| == |before.groups|
      && (forall i | 0 <= i < |groups| ::
            groups[i] == if i in before.active[..k] && i !in skip && before.excluded != Some(i)
                         then Decrypt(before.groups[i], msg) else before.groups[i])
      && backlog ==
           if before.excluded.Some? && before.excluded.value in before.active[..k] && before.excluded.value !in skip
                    then before.backlog + [msg] else before.backlog
    }

    /** One message to every active member outside `skip`, in the order of `active`. */
    method Send(skip: set<nat>, msg: Commit)
      requires Valid()
      modifies this`groups, this`backlog
      ensures Valid() && Now() == old(Now().Send(skip, msg))
    {
      ghost var before := Now();
      SendKeepsValid(before, skip, msg);
      for k := 0 to |active|
        invariant SentTo(before, k, skip, msg)
      {
        SendNext(before, k, skip, msg);
      }
      assert active[..|active|] == active;
      assert groups == before.Send(skip, msg).groups;
    }

    /** One turn of that loop. */
    method SendNext(ghost before: State, k: nat, skip: set<nat>, msg: Commit)
      requires before.Valid() && k < |active| && active == before.active && excluded == before.excluded
      requires SentTo(before, k, skip, msg)
      modifies this`groups, this`backlog
      ensures SentTo(before, k + 1, skip, msg)
    {
      var m := active[k];
      assert active[..k + 1] == active[..k] + [m];
      assert m !in active[..k];
      if m !in skip {
        DeliverTo(m, msg);
      }
    }

    method CreateGroup(raw: nat, lib: CreateLib)
      requires Valid()
      modifies this
      ensures Valid() && Now() == old(M.CreateGroup(Now(), raw, lib))
    {
      CreateGroupKeepsValid(Now(), raw, lib);
      if active != [] {
        return;
      }
      var host := Norm(raw);
      if lib.created {
        groups := groups[host := Some([])];
        leafOf := leafOf[host := lib.leaf];
        active := active + [host];
      }
    }

    method Join(raw: nat, lib: JoinLib)
      requires Valid()
      modifies this
      ensures Valid() && Now() == old(M.Join(Now(), raw, lib))
    {
      JoinKeepsValid(Now(), raw, lib);
      if active == [] {
        return;
      }
      var joiner := Norm(raw);
      if joiner in active {
        return;
      }
      var coordinator := active[0];
      if !lib.committed {
        return;
      }
      var update := CommitBy(coordinator);
      if !lib.bundleComplete {
        return;
      }
      Send({coordinator}, update);
      if !lib.joined {
        return;
      }
      ExternalJoin(joiner, update.base + [update.id], lib.leaf);
    }

    /** Delivery of the joiner's external commit, and the joiner's own bookkeeping. */
    method ExternalJoin(joiner: nat, base: History, leaf: Option<nat>)
      requires Valid() && joiner < |groups| && joiner !in active
      modifies this
      ensures Valid() && Now() == old(M.ExternalJoin(Now(), joiner, base, leaf))
    {
      ExternalJoinKeepsValid(Now(), joiner, base, leaf);
      var external := Commit(base, nextId);
      nextId := nextId + 1;
      Send({}, external);
      groups := groups[joiner := Some(base + [external.id])];
      leafOf := leafOf[joiner := leaf];
      active := active + [joiner];
    }

    method AddMember(adderRaw: nat, addeeRaw: nat, lib: AddLib)
      requires Valid()
      modifies this
      ensures Valid() && Now() == old(M.AddMember(Now(), adderRaw, addeeRaw, lib))
    {
      AddMemberKeepsValid(Now(), adderRaw, addeeRaw, lib);
      if active == [] {
        return;
      }
      var adder := Norm(adderRaw);
      if adder !in active {
        return;
      }
      var addee := Norm(addeeRaw);
      if addee == adder || addee in active || !lib.keyPackage || !lib.committed {
        return;
      }
      var add := CommitBy(adder);
      Send({adder}, add);
      if !lib.bundleComplete || !lib.joined {
        return;
      }
      groups := groups[addee := Some(add.base + [add.id])];
      leafOf := leafOf[addee := lib.leaf];
      active := active + [addee];
    }

    method Update(raw: nat, committed: bool)
      requires Valid()
      modifies this
      ensures Valid() && Now() == old(M.Update(Now(), raw, committed))
    {
      UpdateKeepsValid(Now(), raw, committed);
      var member := Norm(raw);
      if member !in active || !committed {
        return;
      }
      var update := CommitBy(member);
      pending := pending + [QueuedMsg(member, update)];
    }

    method Remove(raw: nat, committed: bool)
      requires Valid()
      modifies this
      ensures Valid() && Now() == old(M.Remove(Now(), raw, committed))
    {
      RemoveKeepsValid(Now(), raw, committed);
      if |active| < 2 {
        return;
      }
      var target, coordinator := Norm(raw), active[0];
      if target == coordinator || excluded == Some(target) || target !in active || leafOf[target].None? || !committed {
        return;
      }
      var removal := CommitBy(coordinator);
      Send({coordinator}, removal);
      groups := groups[target := None];
      leafOf := leafOf[target := None];
      active := Without(active, target);
    }

    method DeliverNext()
      requires Valid()
      modifies this
      ensures Valid() && Now() == old(M.DeliverNext(Now()))
    {
      DeliverNextKeepsValid(Now());
      if pending == [] {
        return;
      }
      var qm := pending[0];
      pending := pending[1..];
      Send({qm.sender}, qm.msg);
      history := history + [qm];
    }

    method DeliverAll()
      requires Valid()
      modifies this
      ensures Valid() && Now() == old(M.DeliverAll(Now()))
    {
      while pending != []
        invariant Valid() && M.DeliverAll(Now()) == old(M.DeliverAll(Now()))
        decreases |pending|
      {
        DeliverNext();
      }
    }

    /** Takes a member other than the coordinator offline. */
    method SetExcluded(raw: nat) returns (chosen: Option<nat>)
      requires Valid()
      modifies this
      ensures Valid() && Now() == old(M.SetExcluded(Now(), raw))
      ensures chosen.Some? <==> |active| >= 2 && Norm(raw) != active[0] && Norm(raw) in active
      ensures chosen.Some? ==> excluded == chosen && backlog == []
    {
      if |active| < 2 {
        return None;
      }
      var m := Norm(raw);
      if m == active[0] || m !in active {
        return None;
      }
      backlog := [];
      excluded := Some(m);
      return Some(m);
    }

    /** Applies messages in order to one member until one is rejected. */
    method ReplayTo(late: nat, msgs: seq<Commit>) returns (rejected: Option<nat>)
      requires late < |groups| && groups[late].Some?
      modifies this`groups
      ensures var start := old(groups)[late].value;
              && groups == old(groups)[late := Some(Reached(start, msgs))]
              && rejected == if Accepted(start, msgs) < |msgs| then Some(Accepted(start, msgs)) else None
    {
      var i := 0;
      ghost var start := groups[late].value;
      while i < |msgs|
        invariant 0 <= i <= |msgs| && |groups| == |old(groups)| && groups[late].Some?
        invariant groups == old(groups)[late := groups[late]]
        invariant Reached(groups[late].value, msgs[i..]) == Reached(start, msgs)
        invariant i + Accepted(groups[late].value, msgs[i..]) == Accepted(start, msgs)
      {
        if msgs[i].base != groups[late].value {
          return Some(i);
        }
        assert msgs[i..][1..] == msgs[i + 1..];
        groups := groups[late := Decrypt(groups[late], msgs[i])];
        i := i + 1;
      }
      return None;
    }

    /** Compares a member with the first peer at its epoch. */
    method CompareWithPeer(late: nat) returns (outcome: CatchupOutcome)
      requires Valid()
      ensures outcome == match FirstPeer(Now(), late, 0)
                         case None => CaughtUp
                         case Some(m) => if Now().HistoryOf(m) == Now().HistoryOf(late) then CaughtUp else Diverged(m)
    {
      var k := 0;
      while k < |active|
        invariant 0 <= k <= |active|
        invariant FirstPeer(Now(), late, 0) == FirstPeer(Now(), late, k)
      {
        var m := active[k];
        if m != late && |HistoryOf(m)| == |HistoryOf(late)| {
          return if HistoryOf(m) != HistoryOf(late) then Diverged(m) else CaughtUp;
        }
        k := k + 1;
      }
      return CaughtUp;
    }

    function HistoryOf(i: nat): (h: History)
      reads this
      ensures h == Now().HistoryOf(i)
    {
      if i < |groups| && groups[i].Some? then groups[i].value else []
    }

    /** Replays the backlog in order; stops at the first rejection, then compares with a peer at the same epoch. */
    method Catchup() returns (outcome: CatchupOutcome)
      requires Valid()
      requires excluded.Some? ==> excluded.value in active
      modifies this
      ensures Valid()
      ensures outcome == Outcome(old(Now()))
      ensures Now() == if old(excluded).None? then old(Now()) else Caught(old(Now()))
    {
      if excluded.None? {
        return NobodyOffline;
      }
      var late := excluded.value;
      excluded := None;
      var msgs := backlog;
      backlog := [];
      var rejected := ReplayTo(late, msgs);
      if rejected.Some? {
        return Rejected(rejected.value);
      }
      outcome := CompareWithPeer(late);
    }
  }
}
