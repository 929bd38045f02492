/** What becomes of the hub after a step that breaks the discipline of HubSafety. */
module HubBreaks {
  import opened HubSharding
  import opened HubLocks
  import opened HubSafety
  import opened Options

  /** These events, one after another, lead from s to s'. */
  ghost predicate Leads(s: State, events: seq<Event>, s': State)
    decreases |events|
  {
    if events == [] then s' == s
    else |s.shards| > 0 && Enabled(s, events[0]) && Leads(Apply(s, events[0]), events[1..], s')
  }

  lemma {:induction false} LeadsOn(s: State, events: seq<Event>, mid: State, more: seq<Event>, s': State)
    requires Leads(s, events, mid) && Leads(mid, more, s')
    ensures Leads(s, events + more, s')
    decreases |events|
  {
    hide Enabled, Apply;
    if events == [] {
      assert events + more == more;
    } else {
      assert (events + more)[1..] == events[1..] + more;
      LeadsOn(Apply(s, events[0]), events[1..], mid, more, s');
    }
  }

  /** RunAgrees fails: c is free, and in a room that it does not list or that it has been taken from. */
  ghost predicate Disagrees(s: State, c: Client, r: int) {
    && |s.shards| > 0 && ClientLock(c) !in s.owner
    && !(InRoom(s, r, c) <==> Get(s, c).active && r in Get(s, c).roomIDs && !Owed(s, c, r))
  }

  // ---- one thread goes on to its end ----

  /** Thread t has c.mu; c is in the room wrongly, and nothing t has left to do puts that right. */
  ghost predicate Astray(s: State, t: nat, c: Client, r: int) {
    var x := ThreadAt(s, t);
    && |s.shards| > 0 && LocksOk(s)
    && (x.Inside? || x.Writing?) && x.c == c && Remove(r) !in x.todo && InRoom(s, r, c)
    && (Owed(s, c, r) || (r !in Get(s, c).roomIDs && x.final.None?))
    && (forall u :: ThreadAt(s, u) == Snapshot(r) ==> OutOfWay(x.todo, c, r, |s.shards|))
  }

  /** None of these actions needs the room's shard. */
  predicate OutOfWay(todo: seq<Action>, c: Client, r: int, n: nat)
    requires n > 0
  {
    forall a :: a in todo ==> LockOf(c, a, n) != ShardLock(ShardOf(r, n))
  }

  /** Only a snapshot of the room, and an event of t itself, end this. */
  lemma StaysAstray(s: State, e: Event, t: nat, c: Client, r: int)
    requires Astray(s, t, c, r) && Enabled(s, e) && e.t != t && (e.Act? || e.TakeSnapshot? || e.Unread?)
    requires ThreadAt(s, e.t) != Snapshot(r)
    ensures Astray(Apply(s, e), t, c, r) && ThreadAt(Apply(s, e), t) == ThreadAt(s, t)
  {
    hide LocksOk, Listed, Entered, Todo, ActOn, Owed, InRoom, OutOfWay;
    var s' := Apply(s, e);
    if ThreadAt(s, e.t).Writing? && ThreadAt(s, e.t).c == c {
      HolderOnly(s, e.t, ClientLock(c));
      HolderOnly(s, t, ClientLock(c));
    }
    LocksKept(s, e);
    ClientKept(s, e, c);
    Membership(s, e, c, r);
    OwedStays(s, e, c, r);
    assert forall u :: ThreadAt(s', u) == Snapshot(r) ==> ThreadAt(s, u) == Snapshot(r);
  }

  lemma OwedStays(s: State, e: Event, c: Client, r: int)
    requires |s.shards| > 0 && Enabled(s, e) && !e.Erase?
    ensures Owed(s, c, r) ==> Owed(Apply(s, e), c, r)
  {
    hide Listed, Entered, Todo, ActOn, Free;
    if t :| Owes(ThreadAt(s, t), c, r) {
      assert Owes(ThreadAt(Apply(s, e), t), c, r);
    }
  }

  /** The threads that hold or read a lock. */
  function Users(s: State, l: Lock): set<nat>
    requires |s.shards| > 0
  {
    set u | u in s.threads && (l in Holds(s.threads[u], |s.shards|) || Reads(s.threads[u], l))
  }

  lemma NobodyUses(s: State, l: Lock)
    requires |s.shards| > 0 && LocksOk(s) && Users(s, l) == {}
    ensures Free(s, l)
  {
    forall t
      ensures l !in Holds(ThreadAt(s, t), |s.shards|) && !Reads(ThreadAt(s, t), l)
    {
      assert t !in Users(s, l);
    }
    if l in s.owner {
      HolderOf(s, l);
    }
  }

  /** Whoever uses a shard's lock is one step from letting it go. */
  lemma UserLeaves(s: State, u: nat, l: Lock)
    requires |s.shards| > 0 && LocksOk(s) && l.ShardLock? && u in Users(s, l)
    ensures Enabled(s, NextOf(s, u)) && Users(Apply(s, NextOf(s, u)), l) == Users(s, l) - {u}
    ensures var e := NextOf(s, u); e.Act? || e.TakeSnapshot? || e.Unread?
  {
    hide ActOn;
    assert TableOk(s, u);
    forall v
      ensures !BlockedBy(s, u, v)
    {
    }
    CanMove(s, u);
    hide LocksOk;
  }

  /** Every other thread at the shard that t needs next lets go of it. */
  lemma {:induction false} ShardFreed(s: State, t: nat, c: Client, r: int) returns (events: seq<Event>, s': State)
    requires Astray(s, t, c, r) && ThreadAt(s, t).Inside? && ThreadAt(s, t).todo != []
    ensures Leads(s, events, s') && Astray(s', t, c, r) && ThreadAt(s', t) == ThreadAt(s, t)
    ensures Enabled(s', LockShard(t))
    decreases |Users(s, LockOf(c, ThreadAt(s, t).todo[0], |s.shards|))|
  {
    hide LocksOk, InRoom, Owed;
    var l := LockOf(c, ThreadAt(s, t).todo[0], |s.shards|);
    if Users(s, l) == {} {
      NobodyUses(s, l);
      events, s' := [], s;
    } else {
      var u :| u in Users(s, l);
      var e := NextOf(s, u);
      UserLeaves(s, u, l);
      assert ThreadAt(s, u) != Snapshot(r) by {
        assert ThreadAt(s, t).todo[0] in ThreadAt(s, t).todo;
      }
      StaysAstray(s, e, t, c, r);
      events, s' := ShardFreed(Apply(s, e), t, c, r);
      events := [e] + events;
    }
  }

  /** t's own steps. */
  lemma OwnStep(s: State, t: nat, c: Client, r: int, e: Event)
    requires Astray(s, t, c, r) && Enabled(s, e) && e.t == t && (e.LockShard? || e.Act?)
    ensures Astray(Apply(s, e), t, c, r)
    ensures var x, x' := ThreadAt(s, t), ThreadAt(Apply(s, e), t);
            if e.LockShard? then x' == Writing(c, x.todo, x.final) else x' == Inside(c, x.todo[1..], x.final)
  {
    hide LocksOk, Listed, Entered, Todo, ActOn, Owed, InRoom;
    var x, s' := ThreadAt(s, t), Apply(s, e);
    assert x.todo == [x.todo[0]] + x.todo[1..];
    LocksKept(s, e);
    Membership(s, e, c, r);
    OwedStays(s, e, c, r);
    assert forall u :: ThreadAt(s', u) == Snapshot(r) ==> ThreadAt(s, u) == Snapshot(r);
  }

  /** With nothing left to do, t lets c go, and the disagreement is there for all to see. */
  lemma Finishes(s: State, t: nat, c: Client, r: int)
    requires Astray(s, t, c, r) && ThreadAt(s, t).Inside? && ThreadAt(s, t).todo == []
    ensures Enabled(s, Release(t)) && Disagrees(Apply(s, Release(t)), c, r)
  {
    hide LocksOk, Owed, InRoom;
    HolderOnly(s, t, ClientLock(c));
    Membership(s, Release(t), c, r);
    OwedKept(s, Release(t), c, r);
  }

  lemma {:induction false} GoesOn(s: State, t: nat, c: Client, r: int) returns (events: seq<Event>, s': State)
    requires Astray(s, t, c, r) && ThreadAt(s, t).Inside?
    ensures Leads(s, events, s') && Disagrees(s', c, r)
    decreases |ThreadAt(s, t).todo|
  {
    hide LocksOk, InRoom, Owed, OutOfWay, Disagrees, Listed, Entered, Todo, ActOn, Free;
    if ThreadAt(s, t).todo == [] {
      Finishes(s, t, c, r);
      events, s' := [Release(t)], Apply(s, Release(t));
      assert events[1..] == [];
    } else {
      var mid, more;
      events, mid := ShardFreed(s, t, c, r);
      var s1 := Apply(mid, LockShard(t));
      OwnStep(mid, t, c, r, LockShard(t));
      OwnStep(s1, t, c, r, Act(t));
      more, s' := GoesOn(Apply(s1, Act(t)), t, c, r);
      assert [LockShard(t), Act(t)] + more == [LockShard(t)] + ([Act(t)] + more);
      LeadsOn(s, events, mid, [LockShard(t), Act(t)] + more, s');
      events := events + ([LockShard(t), Act(t)] + more);
    }
  }

  // ---- the undisciplined steps ----

  /** The step breaks the discipline at this room: it adds to a room that a disband still owes this
      client, or it starts the client's room set afresh without a room that the client is in. */
  ghost predicate Breaks(s: State, e: Event, r: int) {
    var x := ThreadAt(s, e.t);
    || (e.Act? && x.Writing? && x.todo != [] && x.todo[0] == Add(r) && Owed(s, x.c, r))
    || (e.LockClient? && x.WantClient? && x.op.Register? && Get(s, x.c).active
        && r in Get(s, x.c).roomIDs && r !in x.op.ids && !Owed(s, x.c, r))
  }

  lemma DisciplineByRoom(s: State, e: Event)
    ensures Disciplined(s, e) <==> forall r :: !Breaks(s, e, r)
  {
    var x := ThreadAt(s, e.t);
    if e.Act? && x.Writing? && x.todo != [] && x.todo[0].Add? && Owed(s, x.c, x.todo[0].r) {
      assert Breaks(s, e, x.todo[0].r);
    } else if !Disciplined(s, e) {
      var r :| r in Get(s, x.c).roomIDs && r !in x.op.ids && !Owed(s, x.c, r);
      assert Breaks(s, e, r);
    }
  }

  /** A disband that is just taking its snapshot of the dropped room may yet repair a Register,
      if the call has to wait for that very shard. */
  ghost predicate Repairable(s: State, e: Event, r: int)
    requires |s.shards| > 0
  {
    var x := ThreadAt(s, e.t);
    e.LockClient? && x.WantClient? && x.op.Register?
    && !OutOfWay([SetUser] + Adds(x.op.ids), x.c, r, |s.shards|) && exists u :: ThreadAt(s, u) == Snapshot(r)
  }

  /** From an undisciplined step other calls need only let go of their locks, and this call come to
      its end, for c to be free and the two indexes to disagree. */
  lemma Disagreement(s: State, e: Event, r: int) returns (events: seq<Event>, s': State)
    requires Inv(s) && Enabled(s, e) && Breaks(s, e, r) && !Repairable(s, e, r)
    ensures Leads(s, [e] + events, s') && Disagrees(s', ThreadAt(s, e.t).c, r)
  {
    var c := ThreadAt(s, e.t).c;
    if e.Act? { AddAstray(s, e, r); } else { RegisterAstray(s, e, r); }
    events, s' := GoesOn(Apply(s, e), e.t, c, r);
    assert ([e] + events)[1..] == events;
  }

  lemma AddAstray(s: State, e: Event, r: int)
    requires Inv(s) && Enabled(s, e) && e.Act? && Breaks(s, e, r)
    ensures Astray(Apply(s, e), e.t, ThreadAt(s, e.t).c, r) && ThreadAt(Apply(s, e), e.t).Inside?
  {
    hide LocksOk, Listed, Entered, Todo, ActOn, Owed, InRoom;
    var x, s' := ThreadAt(s, e.t), Apply(s, e);
    assert x.todo == [x.todo[0]] + x.todo[1..];
    assert RoomOk(s, x.c, r);
    LocksKept(s, e);
    HolderOnly(s, e.t, ClientLock(x.c));
    Membership(s, e, x.c, r);
    OwedKept(s, e, x.c, r);
    forall u
      ensures ThreadAt(s', u) != Snapshot(r)
    {
      OneAtShard(s, e.t, u, r);
    }
  }

  /** Nobody else is at the shard that t writes. */
  lemma OneAtShard(s: State, t: nat, u: nat, r: int)
    requires |s.shards| > 0 && LocksOk(s)
    requires var x := ThreadAt(s, t); x.Writing? && x.todo != [] && x.todo[0] == Add(r)
    ensures ThreadAt(s, u) != Snapshot(r)
  {
    if ThreadAt(s, u) == Snapshot(r) {
      var l := ShardLock(ShardOf(r, |s.shards|));
      HolderOnly(s, t, l);
      HolderOnly(s, u, l);
    }
  }

  lemma RegisterAstray(s: State, e: Event, r: int)
    requires Inv(s) && Enabled(s, e) && e.LockClient? && Breaks(s, e, r) && !Repairable(s, e, r)
    ensures Astray(Apply(s, e), e.t, ThreadAt(s, e.t).c, r) && ThreadAt(Apply(s, e), e.t).Inside?
  {
    hide LocksOk, Listed, ActOn, Owed, InRoom, OutOfWay;
    var x, s' := ThreadAt(s, e.t), Apply(s, e);
    assert RoomOk(s, x.c, r);
    LocksKept(s, e);
    Membership(s, e, x.c, r);
    OwedKept(s, e, x.c, r);
    TodoFor(x.op, Get(s, x.c), e.order, r);
    assert forall u :: ThreadAt(s', u) == Snapshot(r) ==> ThreadAt(s, u) == Snapshot(r);
  }
}
