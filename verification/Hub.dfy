/** The sharded WebSocket hub as objects: clients, shards, and the calls that keep the two
    indexes, each call whole. */
module Hub {
  import opened HubSharding
  import opened Options

  /** Some element of a set: what a range over a map meets next. */
  method Pick<T>(s: set<T>) returns (x: T)
    requires s != {}
    ensures x in s
  {
    x :| x in s;
  }

  class Client {
    const userID: int
    const capacity: nat          // of the Send channel
    var active: bool
    var roomIDs: set<int>        // a nil map reads as the empty set
    var queue: seq<seq<bv8>>     // what Send holds
    var sendClosed: bool

    constructor (userID: int, capacity: nat)
      ensures !active && roomIDs == {} && queue == [] && !sendClosed
      ensures this.userID == userID && this.capacity == capacity
    {
      this.userID := userID;
      this.capacity := capacity;
      active, roomIDs, queue, sendClosed := false, {}, [], false;
    }

    predicate Accepts()
      reads this
    {
      !sendClosed && |queue| < capacity
    }

    /** Never waits: either the payload goes to the end of the queue or the answer is no. */
    method TrySend(payload: seq<bv8>) returns (ok: bool)
      modifies this`queue
      ensures ok == old(Accepts())
      ensures queue == if ok then old(queue) + [payload] else old(queue)
    {
      if sendClosed {
        return false;
      }
      ok := |queue| < capacity;
      if ok {
        queue := queue + [payload];
      }
    }

    method CloseSend()
      modifies this`sendClosed
      ensures sendClosed
    {
      sendClosed := true;
    }
  }

  const KILL_CAPACITY := 64

  class HubShard {
    var users: map<int, Client>
    var rooms: map<int, set<Client>>
    var killClient: seq<Client>

    constructor ()
      ensures users == map[] && rooms == map[] && killClient == []
    {
      users, rooms, killClient := map[], map[], [];
    }
  }

  datatype Stats = Stats(clientCount: nat, roomCount: nat)

  class Hub {
    const shards: seq<HubShard>
    ghost var known: set<Client>   // every client ever registered

    /** Users and rooms sit in their own shard, no room set is empty, and the clients are known. */
    ghost predicate Placed()
      reads this, shards
    {
      && |shards| > 0
      && (forall i, j :: 0 <= i < j < |shards| ==> shards[i] != shards[j])
      && (forall i, u :: 0 <= i < |shards| && u in shards[i].users ==> ShardOf(u, |shards|) == i)
      && (forall i, u :: 0 <= i < |shards| && u in shards[i].users ==> shards[i].users[u] in known)
      && (forall i, r :: 0 <= i < |shards| && r in shards[i].rooms ==> ShardOf(r, |shards|) == i)
      && (forall i, r :: 0 <= i < |shards| && r in shards[i].rooms ==>
            shards[i].rooms[r] != {} && shards[i].rooms[r] <= known)
    }

    function CurrentOf(u: int): Option<Client>
      requires |shards| > 0
      reads shards
    {
      var users := shards[ShardOf(u, |shards|)].users;
      if u in users then Some(users[u]) else None
    }

    function Members(r: int): set<Client>
      requires |shards| > 0
      reads shards
    {
      var rooms := shards[ShardOf(r, |shards|)].rooms;
      if r in rooms then rooms[r] else {}
    }

    /** The room index holds exactly what the clients' own room sets say. */
    ghost predicate Agrees(c: Client)
      requires |shards| > 0
      reads shards, c
    {
      forall r :: c in Members(r) <==> c.active && r in c.roomIDs
    }

    ghost predicate Owned()
      requires |shards| > 0
      reads shards, known, this
    {
      forall u :: CurrentOf(u).Some? ==>
        CurrentOf(u).value in known && CurrentOf(u).value.userID == u && CurrentOf(u).value.active
    }

    ghost predicate Valid()
      reads this, shards, known
    {
      && |shards| > 0 && Placed() && Owned()
      && forall c :: c in known ==> Agrees(c)
    }

    constructor (shardCount: nat)
      ensures Valid() && known == {} && fresh(shards)
      ensures |shards| == if shardCount == 0 then 64 else shardCount
      ensures forall u :: CurrentOf(u) == None
    {
      var n := if shardCount == 0 then 64 else shardCount;
      var made: seq<HubShard> := [];
      for i := 0 to n
        invariant |made| == i && fresh(made)
        invariant forall j, k :: 0 <= j < k < i ==> made[j] != made[k]
        invariant forall j :: 0 <= j < i ==> made[j].users == map[] && made[j].rooms == map[]
      {
        var h := new HubShard();
        made := made + [h];
      }
      shards := made;
      known := {};
    }

    /** addClientToRoom */
    method AddClientToRoom(c: Client, r: int)
      requires Placed() && c in known
      modifies shards
      ensures Placed()
      ensures forall q :: Members(q) == old(Members(q)) + (if q == r then {c} else {})
      ensures forall u :: CurrentOf(u) == old(CurrentOf(u))
    {
      var shard := shards[ShardOf(r, |shards|)];
      if r !in shard.rooms {
        shard.rooms := shard.rooms[r := {}];
      }
      shard.rooms := shard.rooms[r := shard.rooms[r] + {c}];
    }

    /** removeClientFromRoom: the last client out takes the room's entry with it. */
    method RemoveClientFromRoom(c: Client, r: int)
      requires Placed()
      modifies shards
      ensures Placed()
      ensures forall q :: Members(q) == old(Members(q)) - (if q == r then {c} else {})
      ensures forall u :: CurrentOf(u) == old(CurrentOf(u))
    {
      var shard := shards[ShardOf(r, |shards|)];
      if r in shard.rooms {
        shard.rooms := shard.rooms[r := shard.rooms[r] - {c}];
        if shard.rooms[r] == {} {
          shard.rooms := shard.rooms - {r};
        }
      }
    }

    /** The first half of Register: c becomes its user's current connection. */
    method SetUser(c: Client)
      requires Placed()
      modifies this`known, shards
      ensures Placed() && known == old(known) + {c}
      ensures forall q :: Members(q) == old(Members(q))
      ensures forall u :: CurrentOf(u) == if u == c.userID then Some(c) else old(CurrentOf(u))
    {
      known := known + {c};
      var shard := shards[ShardOf(c.userID, |shards|)];
      shard.users := shard.users[c.userID := c];
    }

    /** The user's entry goes only if it still names this client. */
    method DropUser(c: Client)
      requires Placed()
      modifies shards
      ensures Placed()
      ensures forall q :: Members(q) == old(Members(q))
      ensures forall u :: CurrentOf(u) ==
                if old(CurrentOf(u)) == Some(c) && u == c.userID then None else old(CurrentOf(u))
    {
      var shard := shards[ShardOf(c.userID, |shards|)];
      if c.userID in shard.users && shard.users[c.userID] == c {
        shard.users := shard.users - {c.userID};
      }
    }

    /** addClientToRoom for each id in turn. */
    method AddToAll(c: Client, ids: seq<int>)
      requires Placed() && c in known
      modifies shards
      ensures Placed()
      ensures forall q :: Members(q) == old(Members(q)) + (if q in ids then {c} else {})
      ensures forall u :: CurrentOf(u) == old(CurrentOf(u))
    {
      hide Members, CurrentOf;
      for i := 0 to |ids|
        invariant Placed()
        invariant forall q :: Members(q) == old(Members(q)) + (if q in ids[..i] then {c} else {})
        invariant forall u :: CurrentOf(u) == old(CurrentOf(u))
      {
        AddClientToRoom(c, ids[i]);
      }
      assert ids[..|ids|] == ids;
    }

    /** addClientToRoom for each room of a set, in any order. */
    method AddToEach(c: Client, rooms: set<int>)
      requires Placed() && c in known
      modifies shards
      ensures Placed()
      ensures forall q :: Members(q) == old(Members(q)) + (if q in rooms then {c} else {})
      ensures forall u :: CurrentOf(u) == old(CurrentOf(u))
    {
      hide Members, CurrentOf;
      var rest := rooms;
      while rest != {}
        invariant rest <= rooms && Placed()
        invariant forall q :: Members(q) == old(Members(q)) + (if q in rooms - rest then {c} else {})
        invariant forall u :: CurrentOf(u) == old(CurrentOf(u))
      {
        var r := Pick(rest);
        AddClientToRoom(c, r);
        rest := rest - {r};
      }
    }

    /** removeClientFromRoom for each room of a set, in any order. */
    method RemoveFromEach(c: Client, rooms: set<int>)
      requires Placed()
      modifies shards
      ensures Placed()
      ensures forall q :: Members(q) == old(Members(q)) - (if q in rooms then {c} else {})
      ensures forall u :: CurrentOf(u) == old(CurrentOf(u))
    {
      hide Members, CurrentOf;
      var rest := rooms;
      while rest != {}
        invariant rest <= rooms && Placed()
        invariant forall q :: Members(q) == old(Members(q)) - (if q in rooms - rest then {c} else {})
        invariant forall u :: CurrentOf(u) == old(CurrentOf(u))
      {
        var r := Pick(rest);
        RemoveClientFromRoom(c, r);
        rest := rest - {r};
      }
    }

    lemma MembersKnown(r: int)
      requires Placed()
      ensures Members(r) <= known
    {
    }

    /** Register forgets the client's old rooms without leaving them, so the indexes still agree
        exactly when those rooms are among the new ones; a client registered once has none. */
    method Register(c: Client, ids: seq<int>)
      requires Valid()
      modifies this, shards, c`active, c`roomIDs
      ensures Valid() <==> old(c in known && c.active ==> forall r :: r in c.roomIDs ==> r in ids)
      ensures known == old(known) + {c} && c.active && c.roomIDs == SetOf(ids)
      ensures forall q :: Members(q) == old(Members(q)) + (if q in ids then {c} else {})
      ensures forall u :: CurrentOf(u) == if u == c.userID then Some(c) else old(CurrentOf(u))
    {
      hide Placed, Members, CurrentOf;
      forall r
        ensures c in Members(r) <==> c in known && c.active && r in c.roomIDs
      {
        MembersKnown(r);
      }
      c.active := true;
      c.roomIDs := SetOf(ids);
      SetUser(c);
      AddToAll(c, ids);
      assert Agrees(c) <==> old(c in known && c.active ==> forall r :: r in c.roomIDs ==> r in ids);
    }

    method Unregister(c: Client)
      requires Valid() && c in known
      modifies shards, c`active, c`roomIDs, c`sendClosed
      ensures Valid() && !c.active
      ensures old(c.active) ==> c.roomIDs == {} && c.sendClosed
      ensures !old(c.active) ==> c.roomIDs == old(c.roomIDs) && c.sendClosed == old(c.sendClosed)
      ensures forall q :: Members(q) == old(Members(q)) - {c}
      ensures forall u :: CurrentOf(u) == if old(CurrentOf(u)) == Some(c) then None else old(CurrentOf(u))
    {
      hide Placed, Members, CurrentOf;
      if !c.active {
        return;
      }
      c.active := false;
      DropUser(c);
      RemoveFromEach(c, c.roomIDs);
      c.roomIDs := {};
      c.CloseSend();
    }

    method UpdateRooms(c: Client, ids: seq<int>)
      requires Valid() && c in known
      modifies shards, c`roomIDs
      ensures Valid() && c.roomIDs == if c.active then SetOf(ids) else old(c.roomIDs)
      ensures forall q :: Members(q) == if !c.active then old(Members(q))
                else if q in ids then old(Members(q)) + {c} else old(Members(q)) - {c}
      ensures forall u :: CurrentOf(u) == old(CurrentOf(u))
    {
      hide Placed, Members, CurrentOf;
      if !c.active {
        return;
      }
      var newRooms := SetOf(ids);
      RemoveFromEach(c, c.roomIDs - newRooms);
      AddToEach(c, newRooms - c.roomIDs);
      c.roomIDs := newRooms;
    }

    method JoinRoom(userID: int, r: int)
      requires Valid()
      modifies shards, known`roomIDs
      ensures Valid()
      ensures forall u :: CurrentOf(u) == old(CurrentOf(u))
      ensures forall q :: Members(q) == old(Members(q))
                + if q == r && CurrentOf(userID).Some? then {CurrentOf(userID).value} else {}
      ensures forall d :: d in known ==>
                d.roomIDs == old(d.roomIDs) + if CurrentOf(userID) == Some(d) then {r} else {}
    {
      hide Placed, Members, CurrentOf;
      var found := CurrentOf(userID);
      if found.None? {
        return;
      }
      var c := found.value;
      if !c.active || r in c.roomIDs {
        return;
      }
      c.roomIDs := c.roomIDs + {r};
      AddClientToRoom(c, r);
    }

    method LeaveRoom(userID: int, r: int)
      requires Valid()
      modifies shards, known`roomIDs
      ensures Valid()
      ensures forall u :: CurrentOf(u) == old(CurrentOf(u))
      ensures forall q :: Members(q) == old(Members(q))
                - if q == r && CurrentOf(userID).Some? then {CurrentOf(userID).value} else {}
      ensures forall d :: d in known ==>
                d.roomIDs == old(d.roomIDs) - if CurrentOf(userID) == Some(d) then {r} else {}
    {
      hide Placed, Members, CurrentOf;
      var found := CurrentOf(userID);
      if found.None? {
        return;
      }
      var c := found.value;
      if !c.active || r !in c.roomIDs {
        return;
      }
      c.roomIDs := c.roomIDs - {r};
      RemoveClientFromRoom(c, r);
    }

    /** The room goes from the index at once, and then from each client that was in it. */
    method DisbandRoom(r: int)
      requires Valid()
      modifies shards, known`roomIDs
      ensures Valid()
      ensures forall u :: CurrentOf(u) == old(CurrentOf(u))
      ensures forall q :: Members(q) == if q == r then {} else old(Members(q))
      ensures forall d :: d in known && d.active ==> d.roomIDs == old(d.roomIDs) - {r}
    {
      hide Placed, Members, CurrentOf;
      var clients := Members(r);
      MembersKnown(r);
      DropRoom(r);
      var rest := clients;
      while rest != {}
        invariant rest <= clients
        invariant forall d :: d in known ==> d.roomIDs == old(d.roomIDs) - if d in clients - rest then {r} else {}
        modifies known`roomIDs
      {
        var c := Pick(rest);
        c.roomIDs := c.roomIDs - {r};
        rest := rest - {c};
      }
    }

    method DropRoom(r: int)
      requires Placed()
      modifies shards
      ensures Placed()
      ensures forall u :: CurrentOf(u) == old(CurrentOf(u))
      ensures forall q :: Members(q) == if q == r then {} else old(Members(q))
    {
      var shard := shards[ShardOf(r, |shards|)];
      shard.rooms := shard.rooms - {r};
    }

    // ---- Stats ----

    /** Users with a current connection, and rooms with an active client subscribed to them. */
    ghost function LiveUsers(): set<int>
      requires |shards| > 0
      reads this, shards, known
    {
      set c | c in known && CurrentOf(c.userID) == Some(c) :: c.userID
    }

    ghost function LiveRooms(): set<int>
      reads this, known
    {
      set c, r | c in known && c.active && r in c.roomIDs :: r
    }

    ghost function UsersUpTo(k: nat): (s: set<int>)
      requires k <= |shards|
      reads shards
      ensures forall u :: u in s <==> exists i :: 0 <= i < k && u in shards[i].users
    {
      if k == 0 then {} else UsersUpTo(k - 1) + shards[k - 1].users.Keys
    }

    ghost function RoomsUpTo(k: nat): (s: set<int>)
      requires k <= |shards|
      reads shards
      ensures forall r :: r in s <==> exists i :: 0 <= i < k && r in shards[i].rooms
    {
      if k == 0 then {} else RoomsUpTo(k - 1) + shards[k - 1].rooms.Keys
    }

    /** Stats counts each connected user and each subscribed room exactly once. */
    method StatsOf() returns (stats: Stats)
      requires Valid()
      ensures stats == Stats(|LiveUsers()|, |LiveRooms()|)
    {
      hide Agrees, Owned, Placed, UsersUpTo, RoomsUpTo, LiveUsers, LiveRooms;
      NoShardYet();
      stats := Stats(0, 0);
      for i := 0 to |shards|
        invariant stats == Stats(|UsersUpTo(i)|, |RoomsUpTo(i)|)
      {
        UsersOnce(i);
        RoomsOnce(i);
        stats := Stats(stats.clientCount + |shards[i].users|, stats.roomCount + |shards[i].rooms|);
      }
      EveryUser();
      EveryRoom();
    }

    lemma NoShardYet()
      ensures |UsersUpTo(0)| == 0 && |RoomsUpTo(0)| == 0
    {
    }

    /** A user sits in one shard only, so no key is counted twice. */
    lemma UsersOnce(i: nat)
      requires Placed() && i < |shards|
      ensures |UsersUpTo(i + 1)| == |UsersUpTo(i)| + |shards[i].users|
    {
      forall u | u in UsersUpTo(i)
        ensures u !in shards[i].users
      {
        var j :| 0 <= j < i && u in shards[j].users;
        assert ShardOf(u, |shards|) == j;
      }
      assert UsersUpTo(i) !! shards[i].users.Keys;
    }

    /** And a room likewise. */
    lemma RoomsOnce(i: nat)
      requires Placed() && i < |shards|
      ensures |RoomsUpTo(i + 1)| == |RoomsUpTo(i)| + |shards[i].rooms|
    {
      forall r | r in RoomsUpTo(i)
        ensures r !in shards[i].rooms
      {
        var j :| 0 <= j < i && r in shards[j].rooms;
        assert ShardOf(r, |shards|) == j;
      }
      assert RoomsUpTo(i) !! shards[i].rooms.Keys;
    }

    lemma EveryUser()
      requires Valid()
      ensures UsersUpTo(|shards|) == LiveUsers()
    {
      forall u
        ensures u in UsersUpTo(|shards|) <==> u in LiveUsers()
      {
        assert u in UsersUpTo(|shards|) <==> CurrentOf(u).Some?;
        if CurrentOf(u).Some? {
          var c := CurrentOf(u).value;
          assert c in known && CurrentOf(c.userID) == Some(c);
        }
      }
    }

    lemma EveryRoom()
      requires Valid()
      ensures RoomsUpTo(|shards|) == LiveRooms()
    {
      forall r
        ensures r in RoomsUpTo(|shards|) <==> r in LiveRooms()
      {
        assert r in RoomsUpTo(|shards|) <==> Members(r) != {};
        if Members(r) != {} {
          var c :| c in Members(r);
          MembersKnown(r);
          assert Agrees(c);
        }
        if r in LiveRooms() {
          var c :| c in known && c.active && r in c.roomIDs;
          assert Agrees(c);
        }
      }
    }
  }
}
