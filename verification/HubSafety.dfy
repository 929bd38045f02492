/** The lock-granular hub keeps its two indexes in agreement, and cannot deadlock. */
module HubSafety {
  import opened HubSharding
  import opened HubLocks
  import opened Options

  // ---- the lock table ----

  lemma HolderOnly(s: State, t: nat, l: Lock)
    requires |s.shards| > 0 && LocksOk(s) && l in Holds(ThreadAt(s, t), |s.shards|)
    ensures l in s.owner && s.owner[l] == t
  {
    assert TableOk(s, t);
  }

  /** Locking: the lock was free, and t's new state holds exactly it on top of the old ones. */
  lemma LockTable(s: State, t: nat, l: Lock, next: Thread)
    requires |s.shards| > 0 && LocksOk(s) && Free(s, l) && !next.Reading?
    requires Holds(next, |s.shards|) == Holds(ThreadAt(s, t), |s.shards|) + {l}
    requires next.Writing? ==> next.todo != []
    ensures LocksOk(Move(Acquire(s, t, l), t, next))
  {
    var n, s' := |s.shards|, Move(Acquire(s, t, l), t, next);
    forall u
      ensures TableOk(s', u)
    {
      assert TableOk(s, u) && TableOk(s, t);
    }
  }

  lemma UnlockTable(s: State, t: nat, l: Lock, next: Thread)
    requires |s.shards| > 0 && LocksOk(s) && l in Holds(ThreadAt(s, t), |s.shards|) && !next.Reading?
    requires Holds(next, |s.shards|) == Holds(ThreadAt(s, t), |s.shards|) - {l}
    requires next.Writing? ==> next.todo != []
    ensures LocksOk(Move(Unlock(s, l), t, next))
  {
    var n, s' := |s.shards|, Move(Unlock(s, l), t, next);
    forall u
      ensures TableOk(s', u)
    {
      assert TableOk(s, u) && TableOk(s, t);
    }
  }

  lemma SameTable(s: State, t: nat, next: Thread)
    requires |s.shards| > 0 && LocksOk(s) && !next.Writing?
    requires Holds(next, |s.shards|) == Holds(ThreadAt(s, t), |s.shards|) == {}
    requires next.Reading? ==> next.l !in s.owner
    ensures LocksOk(Move(s, t, next))
  {
    var n, s' := |s.shards|, Move(s, t, next);
    forall u
      ensures TableOk(s', u)
    {
      assert TableOk(s, u) && TableOk(s, t);
    }
  }

  /** Only these two parts of a state matter to the lock table. */
  lemma TableFrame(s: State, s': State)
    requires |s.shards| > 0 && LocksOk(s)
    requires s'.threads == s.threads && s'.owner == s.owner && |s'.shards| == |s.shards|
    ensures LocksOk(s')
  {
    forall t
      ensures TableOk(s', t)
    {
      assert TableOk(s, t);
    }
  }

  lemma LocksKept(s: State, e: Event)
    requires |s.shards| > 0 && LocksOk(s) && Enabled(s, e)
    ensures LocksOk(Apply(s, e))
  {
    hide LocksOk, Listed, Entered, Todo, ActOn;
    var x, t, n := ThreadAt(s, e.t), e.t, |s.shards|;
    match e
    case LockClient(_, order) =>
      var k := Get(s, x.c);
      if Returns(x.op, k) {
        SameTable(s, t, Idle);
      } else {
        var next := Inside(x.c, Todo(x.op, k, order), Final(x.op));
        LockTable(s, t, ClientLock(x.c), next);
        TableFrame(Move(Acquire(s, t, ClientLock(x.c)), t, next), Apply(s, e));
      }
    case LockShard(_) =>
      LockTable(s, t, LockOf(x.c, x.todo[0], n), Writing(x.c, x.todo, x.final));
    case Act(_) =>
      var l := LockOf(x.c, x.todo[0], n);
      UnlockTable(s, t, l, Inside(x.c, x.todo[1..], x.final));
      TableFrame(Move(Unlock(s, l), t, Inside(x.c, x.todo[1..], x.final)), Apply(s, e));
    case Release(_) =>
      UnlockTable(s, t, ClientLock(x.c), Idle);
      TableFrame(Move(Unlock(s, ClientLock(x.c)), t, Idle), Apply(s, e));
    case LockRoom(_) =>
      LockTable(s, t, ShardLock(ShardOf(x.room, n)), Snapshot(x.room));
    case TakeSnapshot(_, found) =>
      var l := ShardLock(ShardOf(x.room, n));
      UnlockTable(s, t, l, Clearing(x.room, found));
      TableFrame(Move(Unlock(s, l), t, Clearing(x.room, found)), Apply(s, e));
    case LockNext(_) =>
      LockTable(s, t, ClientLock(x.rest[0]), Erasing(x.room, x.rest[0], x.rest[1..]));
    case Erase(_) =>
      UnlockTable(s, t, ClientLock(x.c), Clearing(x.room, x.rest));
      TableFrame(Move(Unlock(s, ClientLock(x.c)), t, Clearing(x.room, x.rest)), Apply(s, e));
    case Start(_, next) => SameTable(s, t, next);
    case Finish(_) => SameTable(s, t, Idle);
    case LockRead(_) => SameTable(s, t, Reading(x.l));
    case Unread(_) => SameTable(s, t, Idle);
  }

  // ---- no deadlock ----

  /** Locks are taken in one order: a waiting thread holds at most a client lock, and then
      waits for a shard lock; nobody holds two shard locks. */
  lemma LockOrder(x: Thread, n: nat)
    requires n > 0
    ensures forall l :: l in Holds(x, n) && Waits(x, n).Some? ==> l.ClientLock? && Waits(x, n).value.ShardLock?
    ensures forall l, k :: l in Holds(x, n) && k in Holds(x, n) && l.ShardLock? && k.ShardLock? ==> l == k
  {
  }

  /** t waits for a lock that u holds or reads. */
  ghost predicate BlockedBy(s: State, t: nat, u: nat)
    requires |s.shards| > 0
  {
    var w := Waits(ThreadAt(s, t), |s.shards|);
    w.Some? && (w.value in Holds(ThreadAt(s, u), |s.shards|) || Reads(ThreadAt(s, u), w.value))
  }

  /** Waits-for chains have at most two edges, so there are no cycles. */
  lemma NoLongWait(s: State, a: nat, b: nat, c: nat, d: nat)
    requires |s.shards| > 0 && BlockedBy(s, a, b) && BlockedBy(s, b, c)
    ensures !BlockedBy(s, c, d)
    ensures a != b && b != c && a != c
  {
    LockOrder(ThreadAt(s, a), |s.shards|);
    LockOrder(ThreadAt(s, b), |s.shards|);
    LockOrder(ThreadAt(s, c), |s.shards|);
  }

  /** The step a thread takes next, were its lock free. */
  ghost function NextOf(s: State, t: nat): (e: Event)
    requires |s.shards| > 0 && !ThreadAt(s, t).Idle?
    ensures e.t == t && !e.Start?
  {
    var x := ThreadAt(s, t);
    match x
    case WantClient(c, op) => LockClient(t, AnOrder(op, Get(s, c)))
    case Inside(_, todo, _) => if todo == [] then Release(t) else LockShard(t)
    case Writing(_, _, _) => Act(t)
    case WantRoom(_) => LockRoom(t)
    case Snapshot(r) => TakeSnapshot(t, ListOf(Clients(s, r)))
    case Clearing(_, rest) => if rest == [] then Finish(t) else LockNext(t)
    case Erasing(_, _, _) => Erase(t)
    case WantRead(_) => LockRead(t)
    case Reading(_) => Unread(t)
  }

  ghost function ListOf<T(!new)>(want: set<T>): (out: seq<T>)
    ensures forall x :: x in out <==> x in want
  {
    if want == {} then []
    else
      var x :| x in want;
      [x] + ListOf(want - {x})
  }

  ghost function AnOrder(op: Op, k: ClientState): (order: seq<int>)
    ensures Listed(op, k, order)
  {
    match op
    case Unregister => ListOf(k.roomIDs)
    case UpdateRooms(ids) => ListOf((k.roomIDs - SetOf(ids)) + (SetOf(ids) - k.roomIDs))
    case _ => []
  }

  /** A thread that is blocked by nobody can take its next step. */
  lemma CanMove(s: State, t: nat)
    requires |s.shards| > 0 && LocksOk(s) && !ThreadAt(s, t).Idle?
    requires forall u :: !BlockedBy(s, t, u)
    ensures Enabled(s, NextOf(s, t))
  {
    var x, n := ThreadAt(s, t), |s.shards|;
    assert TableOk(s, t);
    if x.Snapshot? {
      assert (set c | c in ListOf(Clients(s, x.room))) == Clients(s, x.room);
    }
    var w := Waits(x, n);
    if w.Some? {
      if w.value in s.owner {
        assert TableOk(s, s.owner[w.value]);
        assert BlockedBy(s, t, s.owner[w.value]);
      }
      forall u
        ensures !Reads(ThreadAt(s, u), w.value)
      {
        assert !BlockedBy(s, t, u);
      }
      assert Free(s, w.value);
    }
  }

  /** From a call under way, following the waits leads to a call that can take its next step. */
  lemma SomeoneMoves(s: State, t: nat) returns (u: nat)
    requires |s.shards| > 0 && LocksOk(s) && !ThreadAt(s, t).Idle?
    ensures !ThreadAt(s, u).Idle? && Enabled(s, NextOf(s, u))
    ensures u == t || BlockedBy(s, t, u) || exists v :: BlockedBy(s, t, v) && BlockedBy(s, v, u)
  {
    u := t;
    if v :| BlockedBy(s, t, v) {
      u := v;
      if w :| BlockedBy(s, v, w) {
        u := w;
        forall d
          ensures !BlockedBy(s, w, d)
        {
          NoLongWait(s, t, v, w, d);
        }
      }
    }
    CanMove(s, u);
  }

  // ---- placement ----

  ghost predicate AllPlaced(s: State)
    requires |s.shards| > 0
  {
    forall i :: 0 <= i < |s.shards| ==> Placed(s.shards[i], i, |s.shards|)
  }

  lemma ActPlaced(h: Shard, c: Client, a: Action, i: nat, n: nat)
    requires n > 0 && Placed(h, i, n) && LockOf(c, a, n) == ShardLock(i)
    ensures Placed(ActOn(h, c, a), i, n)
  {
  }

  lemma PlacedKept(s: State, e: Event)
    requires |s.shards| > 0 && AllPlaced(s) && LocksOk(s) && Enabled(s, e)
    ensures AllPlaced(Apply(s, e))
  {
    hide Placed, ActOn, LocksOk;
    var x, s', n := ThreadAt(s, e.t), Apply(s, e), |s.shards|;
    if e.Act? {
      var i := LockOf(x.c, x.todo[0], n).i;
      ActPlaced(s.shards[i], x.c, x.todo[0], i, n);
    } else if e.TakeSnapshot? {
      var i := ShardOf(x.room, n);
      DropPlaced(s.shards[i], x.room, i, n);
    } else {
      assert s'.shards == s.shards;
    }
  }

  lemma DropPlaced(h: Shard, r: int, i: nat, n: nat)
    requires n > 0 && Placed(h, i, n)
    ensures Placed(h.(rooms := h.rooms - {r}), i, n)
  {
  }

  // ---- frames: what a step leaves as it was ----

  /** The client whose lock t holds or is about to take. */
  predicate Concerns(s: State, e: Event, c: Client) {
    var x := ThreadAt(s, e.t);
    ((x.WantClient? || x.Inside? || x.Writing? || x.Erasing?) && x.c == c)
    || (x.Clearing? && x.rest != [] && x.rest[0] == c)
  }

  /** A step leaves the other clients' locks, and what their holders are doing, as they were. */
  lemma HoldersKept(s: State, e: Event, c: Client)
    requires |s.shards| > 0 && LocksOk(s) && Enabled(s, e) && !Concerns(s, e, c)
    ensures var l, s' := ClientLock(c), Apply(s, e);
            && (l in s'.owner <==> l in s.owner)
            && (l in s.owner ==> s'.owner[l] == s.owner[l] && ThreadAt(s', s.owner[l]) == ThreadAt(s, s.owner[l]))
  {
    hide LocksOk, Listed, Entered, Todo, ActOn, Free;
    if ClientLock(c) in s.owner {
      HolderOf(s, ClientLock(c));
      assert s.owner[ClientLock(c)] != e.t;
    }
  }

  lemma ClientKept(s: State, e: Event, c: Client)
    requires |s.shards| > 0 && Enabled(s, e) && !Concerns(s, e, c)
    ensures Get(Apply(s, e), c) == Get(s, c)
  {
    hide Listed, Entered, Todo, ActOn, Free;
  }

  /** A step changes nothing about the other clients' unfinished business. */
  lemma OthersKept(s: State, e: Event, c: Client)
    requires |s.shards| > 0 && LocksOk(s) && Enabled(s, e) && !Concerns(s, e, c)
    ensures Pending(Apply(s, e), c) == Pending(s, c) && Target(Apply(s, e), c) == Target(s, c)
    ensures Get(Apply(s, e), c) == Get(s, c)
  {
    hide LocksOk, Enabled, Apply, Concerns, ThreadAt, Get;
    HoldersKept(s, e, c);
    ClientKept(s, e, c);
  }

  lemma HolderOf(s: State, l: Lock)
    requires |s.shards| > 0 && LocksOk(s) && l in s.owner
    ensures l in Holds(ThreadAt(s, s.owner[l]), |s.shards|)
  {
    assert TableOk(s, s.owner[l]);
  }

  /** Only taking a snapshot, and erasing for its client, change what disbands owe. */
  lemma OwedKept(s: State, e: Event, c: Client, r: int)
    requires |s.shards| > 0 && Enabled(s, e) && !e.TakeSnapshot? && (e.Erase? ==> !Concerns(s, e, c))
    ensures Owed(Apply(s, e), c, r) <==> Owed(s, c, r)
  {
    hide Listed, Entered, Todo, ActOn, Free;
    var s' := Apply(s, e);
    forall t
      ensures Owes(ThreadAt(s', t), c, r) <==> Owes(ThreadAt(s, t), c, r)
    {
    }
  }

  /** Membership changes only by the thread's own action, or by a disband's snapshot. */
  lemma Membership(s: State, e: Event, c: Client, r: int)
    requires |s.shards| > 0 && Enabled(s, e)
    ensures var x := ThreadAt(s, e.t);
            InRoom(Apply(s, e), r, c) <==>
              if e.Act? && x.c == c && x.todo[0] == Add(r) then true
              else if e.Act? && x.c == c && x.todo[0] == Remove(r) then false
              else InRoom(s, r, c) && !(e.TakeSnapshot? && x.room == r)
  {
    hide Listed, Entered, Todo, Free;
  }

  // ---- rooms, step by step ----

  lemma RoomsElsewhere(s: State, e: Event, c: Client, r: int)
    requires |s.shards| > 0 && LocksOk(s) && Enabled(s, e) && !Concerns(s, e, c) && !e.TakeSnapshot?
    requires RoomOk(s, c, r)
    ensures RoomOk(Apply(s, e), c, r)
  {
    hide LocksOk, Apply, Owed, InRoom, Pending, Target, Listed, Free;
    OthersKept(s, e, c);
    OwedKept(s, e, c, r);
    Membership(s, e, c, r);
  }

  /** Taking the snapshot turns membership into debt. */
  lemma SnapshotRooms(s: State, e: Event, c: Client, r: int)
    requires |s.shards| > 0 && LocksOk(s) && Enabled(s, e) && e.TakeSnapshot? && RoomOk(s, c, r)
    ensures RoomOk(Apply(s, e), c, r)
  {
    hide LocksOk, InRoom, Pending, Target;
    var x, s' := ThreadAt(s, e.t), Apply(s, e);
    OthersKept(s, e, c);
    Membership(s, e, c, r);
    assert InRoom(s, x.room, c) <==> c in e.found by { InFound(s, e, c); }
    forall t | t != e.t
      ensures Owes(ThreadAt(s', t), c, r) <==> Owes(ThreadAt(s, t), c, r)
    {
    }
    assert Owes(ThreadAt(s', e.t), c, r) <==> r == x.room && c in e.found;
  }

  lemma InFound(s: State, e: Event, c: Client)
    requires |s.shards| > 0 && Enabled(s, e) && e.TakeSnapshot?
    ensures InRoom(s, ThreadAt(s, e.t).room, c) <==> c in e.found
  {
    assert c in e.found <==> c in (set d | d in e.found);
  }

  /** Erasing pays the debt. */
  lemma EraseRooms(s: State, e: Event, r: int)
    requires |s.shards| > 0 && LocksOk(s) && Enabled(s, e) && e.Erase? && RoomOk(s, ThreadAt(s, e.t).c, r)
    ensures RoomOk(Apply(s, e), ThreadAt(s, e.t).c, r)
  {
    hide LocksOk, InRoom;
    var x, s' := ThreadAt(s, e.t), Apply(s, e);
    HolderOnly(s, e.t, ClientLock(x.c));
    Membership(s, e, x.c, r);
    assert Owes(x, x.c, x.room);
    if r != x.room {
      forall t
        ensures Owes(ThreadAt(s', t), x.c, r) <==> Owes(ThreadAt(s, t), x.c, r)
      {
      }
    } else {
      assert Owed(s, x.c, r);
    }
  }

  /** Going on to the next lock, or letting go, changes neither what is owed nor what is pending. */
  lemma GoOnRooms(s: State, e: Event, c: Client, r: int)
    requires |s.shards| > 0 && LocksOk(s) && Enabled(s, e) && Concerns(s, e, c) && RoomOk(s, c, r)
    requires !e.LockClient? && !e.Act? && !e.Erase?
    ensures RoomOk(Apply(s, e), c, r)
  {
    hide LocksOk, InRoom, Owed, Listed, Entered, Todo;
    Membership(s, e, c, r);
    OwedKept(s, e, c, r);
    if e.LockShard? || e.Release? {
      HolderOnly(s, e.t, ClientLock(c));
    }
  }

  // ---- the two steps that need care ----

  /** Register starts the client's room set afresh: it may drop only rooms that a disband has
      already emptied of this client. Adding to a room must wait for the disband that still
      owes this client its second phase. */
  ghost predicate Disciplined(s: State, e: Event) {
    var x := ThreadAt(s, e.t);
    && (e.LockClient? && x.WantClient? && x.op.Register? && Get(s, x.c).active ==>
          forall r :: r in Get(s, x.c).roomIDs && r !in x.op.ids ==> Owed(s, x.c, r))
    && (e.Act? && x.Writing? && x.todo != [] && x.todo[0].Add? ==> !Owed(s, x.c, x.todo[0].r))
  }

  lemma AddsMember(ids: seq<int>, r: int)
    ensures Add(r) in Adds(ids) <==> r in ids
    ensures Remove(r) in Removes(ids) <==> r in ids
    ensures forall a :: a in Adds(ids) ==> a.Add?
    ensures forall a :: a in Removes(ids) ==> a.Remove?
  {
    if i :| 0 <= i < |ids| && ids[i] == r {
      assert Adds(ids)[i] == Add(r) && Removes(ids)[i] == Remove(r);
    }
  }

  /** What is pending for r once the operation has entered. */
  lemma TodoFor(op: Op, k: ClientState, order: seq<int>, r: int)
    requires Listed(op, k, order) && !Returns(op, k)
    ensures var todo := Todo(op, k, order);
            match op
            case Register(ids) => (Add(r) in todo <==> r in ids) && Remove(r) !in todo
            case Unregister => Add(r) !in todo && (Remove(r) in todo <==> r in k.roomIDs)
            case UpdateRooms(ids) => (Add(r) in todo <==> r in ids && r !in k.roomIDs)
                                     && (Remove(r) in todo <==> r in k.roomIDs && r !in ids)
            case Join(q) => (Add(r) in todo <==> r == q) && Remove(r) !in todo
            case Leave(q) => Add(r) !in todo && (Remove(r) in todo <==> r == q)
    ensures SetUser in Todo(op, k, order) <==> op.Register?
    ensures DelUser in Todo(op, k, order) <==> op.Unregister?
  {
    assert r in order <==> r in SetOf(order);
    match op
    case Register(ids) => AddsMember(ids, r);
    case Unregister => AddsMember(order, r);
    case UpdateRooms(ids) =>
      assert r in ids <==> r in SetOf(ids);
      AddsMember(Among(order, k.roomIDs), r);
      AddsMember(Among(order, SetOf(ids)), r);
    case Join(_) =>
    case Leave(_) =>
  }

  lemma EnterRooms(s: State, e: Event, r: int)
    requires |s.shards| > 0 && LocksOk(s) && Enabled(s, e) && e.LockClient? && RoomOk(s, ThreadAt(s, e.t).c, r)
    ensures var x, k := ThreadAt(s, e.t), Get(s, ThreadAt(s, e.t).c);
            RoomOk(Apply(s, e), x.c, r) <==>
              (x.op.Register? && k.active && r in k.roomIDs && r !in x.op.ids ==> Owed(s, x.c, r))
  {
    hide LocksOk, InRoom, Owed, Todo, Listed;
    var x, k := ThreadAt(s, e.t), Get(s, ThreadAt(s, e.t).c);
    OwedKept(s, e, x.c, r);
    Membership(s, e, x.c, r);
    if !Returns(x.op, k) {
      TodoFor(x.op, k, e.order, r);
    }
  }

  lemma ActRooms(s: State, e: Event, r: int)
    requires |s.shards| > 0 && LocksOk(s) && Enabled(s, e) && e.Act? && RoomOk(s, ThreadAt(s, e.t).c, r)
    ensures var x := ThreadAt(s, e.t);
            RoomOk(Apply(s, e), x.c, r) <==> (x.todo[0] == Add(r) ==> !Owed(s, x.c, r))
  {
    hide LocksOk, InRoom, Owed, ActOn;
    var x := ThreadAt(s, e.t);
    OwedKept(s, e, x.c, r);
    Membership(s, e, x.c, r);
    HolderOnly(s, e.t, ClientLock(x.c));
    assert x.todo == [x.todo[0]] + x.todo[1..];
  }

  // ---- users ----

  lemma UserChange(s: State, e: Event, u: int)
    requires |s.shards| > 0 && Enabled(s, e)
    ensures var x, was := ThreadAt(s, e.t), UserAt(s, u);
            UserAt(Apply(s, e), u) ==
              if e.Act? && x.todo[0].SetUser? && x.c.userID == u then Some(x.c)
              else if e.Act? && x.todo[0].DelUser? && x.c.userID == u && was == Some(x.c) then None
              else was
  {
    hide Listed, Entered, Todo, Free;
  }

  lemma UsersElsewhere(s: State, e: Event, c: Client)
    requires |s.shards| > 0 && LocksOk(s) && Enabled(s, e) && UserOk(s, c) && !Concerns(s, e, c)
    ensures UserOk(Apply(s, e), c)
  {
    hide LocksOk, Apply, UserAt, Pending, Listed, Free;
    OthersKept(s, e, c);
    forall u | UserAt(Apply(s, e), u) == Some(c)
      ensures UserAt(s, u) == Some(c)
    {
      UserChange(s, e, u);
    }
  }

  lemma UsersHere(s: State, e: Event, c: Client)
    requires |s.shards| > 0 && LocksOk(s) && Enabled(s, e) && UserOk(s, c) && Concerns(s, e, c)
    ensures UserOk(Apply(s, e), c)
  {
    hide LocksOk, UserAt, Listed, Todo, ActOn;
    var x := ThreadAt(s, e.t);
    forall u
      ensures UserAt(Apply(s, e), u) == Some(c) ==>
                || (UserAt(s, u) == Some(c) && !(e.Act? && x.todo[0].DelUser? && c.userID == u))
                || (e.Act? && x.todo[0].SetUser? && c.userID == u)
    {
      UserChange(s, e, u);
    }
    if e.LockClient? && !Returns(x.op, Get(s, c)) {
      TodoFor(x.op, Get(s, c), e.order, 0);
    } else if e.LockShard? || e.Act? || e.Release? || e.Erase? {
      HolderOnly(s, e.t, ClientLock(c));
    }
    if e.Act? {
      assert x.todo == [x.todo[0]] + x.todo[1..];
    }
  }

  // ---- every step, every run ----

  /** A disciplined step keeps everything. */
  lemma StepKeeps(s: State, e: Event)
    requires Inv(s) && Enabled(s, e) && Disciplined(s, e)
    ensures Inv(Apply(s, e))
  {
    hide LocksOk, Enabled, RoomOk, UserOk, Apply, Placed;
    LocksKept(s, e);
    assert AllPlaced(s);
    PlacedKept(s, e);
    forall c, r
      ensures RoomOk(Apply(s, e), c, r)
    {
      RoomKept(s, e, c, r);
    }
    forall c
      ensures UserOk(Apply(s, e), c)
    {
      if Concerns(s, e, c) { UsersHere(s, e, c); } else { UsersElsewhere(s, e, c); }
    }
  }

  lemma RoomKept(s: State, e: Event, c: Client, r: int)
    requires |s.shards| > 0 && LocksOk(s) && Enabled(s, e) && Disciplined(s, e) && RoomOk(s, c, r)
    ensures RoomOk(Apply(s, e), c, r)
  {
    hide LocksOk, RoomOk, Apply, Owed;
    if e.TakeSnapshot? {
      SnapshotRooms(s, e, c, r);
    } else if !Concerns(s, e, c) {
      RoomsElsewhere(s, e, c, r);
    } else if e.LockClient? {
      EnterRooms(s, e, r);
    } else if e.Act? {
      ActRooms(s, e, r);
    } else if e.Erase? {
      EraseRooms(s, e, r);
    } else {
      GoOnRooms(s, e, c, r);
    }
  }

  /** And an undisciplined one always breaks the agreement: the condition is exact. */
  lemma StepBreaks(s: State, e: Event)
    requires Inv(s) && Enabled(s, e) && !Disciplined(s, e)
    ensures !Inv(Apply(s, e))
  {
    hide LocksOk, RoomOk, UserOk, Apply, Placed, Owed;
    var x := ThreadAt(s, e.t);
    var r: int;
    if e.Act? {
      r := x.todo[0].r;
      ActRooms(s, e, r);
    } else {
      r :| r in Get(s, x.c).roomIDs && r !in x.op.ids && !Owed(s, x.c, r);
      EnterRooms(s, e, r);
    }
    assert !RoomOk(Apply(s, e), x.c, r);
  }

  predicate Init(s: State) {
    && |s.shards| > 0 && s.clients == map[] && s.threads == map[] && s.owner == map[]
    && forall i :: 0 <= i < |s.shards| ==> s.shards[i] == Shard(map[], map[])
  }

  ghost predicate Stepped(s: State, e: Event, s': State) {
    |s.shards| > 0 && Enabled(s, e) && s' == Apply(s, e)
  }

  /** A run of the hub: any interleaving of any calls. */
  ghost predicate Run(states: seq<State>, events: seq<Event>) {
    && |states| == |events| + 1 && Init(states[0])
    && forall i :: 0 <= i < |events| ==> Stepped(states[i], events[i], states[i + 1])
  }

  ghost predicate DisciplinedRun(states: seq<State>, events: seq<Event>) {
    Run(states, events) && forall i :: 0 <= i < |events| ==> Disciplined(states[i], events[i])
  }

  lemma {:induction false} RunKeeps(states: seq<State>, events: seq<Event>, i: nat)
    requires DisciplinedRun(states, events) && i < |states|
    ensures Inv(states[i])
  {
    if i == 0 {
      assert forall c, r :: !Owed(states[0], c, r);
    } else {
      RunKeeps(states, events, i - 1);
      assert Stepped(states[i - 1], events[i - 1], states[i]);
      StepKeeps(states[i - 1], events[i - 1]);
    }
  }

  /** Whenever c.mu is free the two indexes agree on c, but for rooms a DisbandRoom has emptied
      and not yet erased from c; and the users index names only active clients of that user. */
  lemma RunAgrees(states: seq<State>, events: seq<Event>, i: nat, c: Client, r: int)
    requires DisciplinedRun(states, events) && i < |states| && ClientLock(c) !in states[i].owner
    ensures var s := states[i];
            |s.shards| > 0 && (InRoom(s, r, c) <==> Get(s, c).active && r in Get(s, c).roomIDs && !Owed(s, c, r))
    ensures var s := states[i]; forall u :: UserAt(s, u) == Some(c) ==> u == c.userID && Get(s, c).active
    ensures var s := states[i]; r in s.shards[ShardOf(r, |s.shards|)].rooms ==> Clients(s, r) != {}
  {
    RunKeeps(states, events, i);
    assert RoomOk(states[i], c, r) && UserOk(states[i], c);
    var j := ShardOf(r, |states[i].shards|);
    assert Placed(states[i].shards[j], j, |states[i].shards|);
  }

  lemma {:induction false} RunLocks(states: seq<State>, events: seq<Event>, i: nat)
    requires Run(states, events) && i < |states|
    ensures |states[i].shards| > 0 && LocksOk(states[i])
  {
    if i > 0 {
      RunLocks(states, events, i - 1);
      assert Stepped(states[i - 1], events[i - 1], states[i]);
      LocksKept(states[i - 1], events[i - 1]);
    }
  }

  /** No run, disciplined or not, can get stuck: while a call is under way, that call, or one
      it waits for through at most two locks, can take its next step. */
  lemma RunMoves(states: seq<State>, events: seq<Event>, i: nat, t: nat) returns (u: nat)
    requires Run(states, events) && i < |states| && !ThreadAt(states[i], t).Idle?
    ensures |states[i].shards| > 0 && !ThreadAt(states[i], u).Idle? && Enabled(states[i], NextOf(states[i], u))
    ensures u == t || BlockedBy(states[i], t, u)
            || exists v :: BlockedBy(states[i], t, v) && BlockedBy(states[i], v, u)
  {
    RunLocks(states, events, i);
    u := SomeoneMoves(states[i], t);
  }
}
