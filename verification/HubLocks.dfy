/** The hub at lock granularity: any number of threads run Register, Unregister, UpdateRooms,
    JoinRoom, LeaveRoom, DisbandRoom and the read-only calls, one lock operation at a time. */
module HubLocks {
  import opened HubSharding
  import opened Options

  /** A connection: its address and the user it belongs to. */
  datatype Client = Client(address: nat, userID: int)

  datatype ClientState = ClientState(active: bool, roomIDs: set<int>)

  datatype Shard = Shard(users: map<int, Client>, rooms: map<int, set<Client>>)

  datatype Lock = ClientLock(c: Client) | ShardLock(i: nat)

  datatype Op = Register(ids: seq<int>) | Unregister | UpdateRooms(ids: seq<int>) | Join(r: int) | Leave(r: int)

  /** What a thread that holds c.mu does next, each inside one shard's lock. */
  datatype Action = SetUser | DelUser | Add(r: int) | Remove(r: int)

  datatype Thread =
    | Idle
    | WantClient(c: Client, op: Op)                              // about to lock c.mu
    | Inside(c: Client, todo: seq<Action>, final: Option<set<int>>)   // holds c.mu
    | Writing(c: Client, todo: seq<Action>, final: Option<set<int>>)  // holds c.mu and the shard of todo[0]
    | WantRoom(room: int)                                        // DisbandRoom, about to lock the room's shard
    | Snapshot(room: int)                                        // holds it
    | Clearing(room: int, rest: seq<Client>)                     // about to lock the next client
    | Erasing(room: int, c: Client, rest: seq<Client>)           // holds c.mu
    | WantRead(l: Lock) | Reading(l: Lock)                       // one read lock at a time

  datatype State = State(shards: seq<Shard>, clients: map<Client, ClientState>,
                         threads: map<nat, Thread>, owner: map<Lock, nat>)

  datatype Event =
    | Start(t: nat, next: Thread)
    | LockClient(t: nat, order: seq<int>)
    | LockShard(t: nat)
    | Act(t: nat)
    | Release(t: nat)
    | LockRoom(t: nat)
    | TakeSnapshot(t: nat, found: seq<Client>)
    | LockNext(t: nat)
    | Erase(t: nat)
    | Finish(t: nat)
    | LockRead(t: nat)
    | Unread(t: nat)

  // ---- reading a state ----

  function ThreadAt(s: State, t: nat): Thread { if t in s.threads then s.threads[t] else Idle }

  function Get(s: State, c: Client): ClientState {
    if c in s.clients then s.clients[c] else ClientState(false, {})
  }

  function Clients(s: State, r: int): set<Client>
    requires |s.shards| > 0
  {
    var rooms := s.shards[ShardOf(r, |s.shards|)].rooms;
    if r in rooms then rooms[r] else {}
  }

  function UserAt(s: State, u: int): Option<Client>
    requires |s.shards| > 0
  {
    var users := s.shards[ShardOf(u, |s.shards|)].users;
    if u in users then Some(users[u]) else None
  }

  predicate InRoom(s: State, r: int, c: Client)
    requires |s.shards| > 0
  {
    c in Clients(s, r)
  }

  function LockOf(c: Client, a: Action, n: nat): Lock
    requires n > 0
  {
    match a
    case SetUser | DelUser => ShardLock(ShardOf(c.userID, n))
    case Add(r) => ShardLock(ShardOf(r, n))
    case Remove(r) => ShardLock(ShardOf(r, n))
  }

  function Holds(x: Thread, n: nat): set<Lock>
    requires n > 0
  {
    match x
    case Inside(c, _, _) => {ClientLock(c)}
    case Writing(c, todo, _) => if todo == [] then {ClientLock(c)} else {ClientLock(c), LockOf(c, todo[0], n)}
    case Snapshot(r) => {ShardLock(ShardOf(r, n))}
    case Erasing(_, c, _) => {ClientLock(c)}
    case _ => {}
  }

  function Waits(x: Thread, n: nat): Option<Lock>
    requires n > 0
  {
    match x
    case WantClient(c, _) => Some(ClientLock(c))
    case Inside(c, todo, _) => if todo == [] then None else Some(LockOf(c, todo[0], n))
    case WantRoom(r) => Some(ShardLock(ShardOf(r, n)))
    case Clearing(_, rest) => if rest == [] then None else Some(ClientLock(rest[0]))
    case WantRead(l) => Some(l)
    case _ => None
  }

  /** No writer and, for a writer, no reader either. */
  ghost predicate Free(s: State, l: Lock) { l !in s.owner && forall t :: !Reads(ThreadAt(s, t), l) }

  predicate Reads(x: Thread, l: Lock) { x == Reading(l) }

  // ---- the operations ----

  function Adds(ids: seq<int>): seq<Action> { seq(|ids|, i requires 0 <= i < |ids| => Add(ids[i])) }

  function Removes(ids: seq<int>): seq<Action> { seq(|ids|, i requires 0 <= i < |ids| => Remove(ids[i])) }

  /** The early returns: the operation finds nothing to do once it has the lock. */
  predicate Returns(op: Op, k: ClientState) {
    match op
    case Register(_) => false
    case Unregister | UpdateRooms(_) => !k.active
    case Join(r) => !k.active || r in k.roomIDs
    case Leave(r) => !k.active || r !in k.roomIDs
  }

  /** order lists the rooms the operation goes through, in the map's arbitrary order. */
  predicate Listed(op: Op, k: ClientState, order: seq<int>) {
    match op
    case Unregister => SetOf(order) == k.roomIDs
    case UpdateRooms(ids) => SetOf(order) == (k.roomIDs - SetOf(ids)) + (SetOf(ids) - k.roomIDs)
    case _ => order == []
  }

  function Todo(op: Op, k: ClientState, order: seq<int>): seq<Action> {
    match op
    case Register(ids) => [SetUser] + Adds(ids)
    case Unregister => [DelUser] + Removes(order)
    case UpdateRooms(ids) => Removes(Among(order, k.roomIDs)) + Adds(Among(order, SetOf(ids)))
    case Join(r) => [Add(r)]
    case Leave(r) => [Remove(r)]
  }

  /** The elements of order that lie in want, in the same order. */
  function Among(order: seq<int>, want: set<int>): (out: seq<int>)
    ensures forall r :: r in out <==> r in order && r in want
  {
    if order == [] then []
    else (if order[0] in want then [order[0]] else []) + Among(order[1..], want)
  }

  /** What the operation does to the client at once, under its lock. */
  function Entered(op: Op, k: ClientState): ClientState {
    match op
    case Register(ids) => ClientState(true, SetOf(ids))
    case Unregister => k.(active := false)
    case UpdateRooms(_) => k
    case Join(r) => k.(roomIDs := k.roomIDs + {r})
    case Leave(r) => k.(roomIDs := k.roomIDs - {r})
  }

  /** What it stores just before it lets go. */
  function Final(op: Op): Option<set<int>> {
    match op
    case Unregister => Some({})
    case UpdateRooms(ids) => Some(SetOf(ids))
    case _ => None
  }

  function ActOn(h: Shard, c: Client, a: Action): Shard {
    match a
    case SetUser => h.(users := h.users[c.userID := c])
    case DelUser => if c.userID in h.users && h.users[c.userID] == c then h.(users := h.users - {c.userID}) else h
    case Add(r) => h.(rooms := h.rooms[r := (if r in h.rooms then h.rooms[r] else {}) + {c}])
    case Remove(r) =>
      if r !in h.rooms then h
      else if h.rooms[r] - {c} == {} then h.(rooms := h.rooms - {r})
      else h.(rooms := h.rooms[r := h.rooms[r] - {c}])
  }

  // ---- the steps ----

  ghost predicate Enabled(s: State, e: Event)
    requires |s.shards| > 0
  {
    var x, n := ThreadAt(s, e.t), |s.shards|;
    match e
    case Start(_, next) => x.Idle? && (next.WantClient? || next.WantRoom? || next.WantRead?)
    case LockClient(_, order) =>
      x.WantClient? && Free(s, ClientLock(x.c)) && Listed(x.op, Get(s, x.c), order)
    case LockShard(_) => x.Inside? && x.todo != [] && Free(s, LockOf(x.c, x.todo[0], n))
    case Act(_) => x.Writing? && x.todo != []
    case Release(_) => x.Inside? && x.todo == []
    case LockRoom(_) => x.WantRoom? && Free(s, ShardLock(ShardOf(x.room, n)))
    case TakeSnapshot(_, found) => x.Snapshot? && (set c | c in found) == Clients(s, x.room)
    case LockNext(_) => x.Clearing? && x.rest != [] && Free(s, ClientLock(x.rest[0]))
    case Erase(_) => x.Erasing?
    case Finish(_) => x.Clearing? && x.rest == []
    case LockRead(_) => x.WantRead? && x.l !in s.owner
    case Unread(_) => x.Reading?
  }

  function Move(s: State, t: nat, next: Thread): State { s.(threads := s.threads[t := next]) }
  function Acquire(s: State, t: nat, l: Lock): State { s.(owner := s.owner[l := t]) }
  function Unlock(s: State, l: Lock): State { s.(owner := s.owner - {l}) }
  function Put(s: State, c: Client, k: ClientState): State { s.(clients := s.clients[c := k]) }

  ghost function Apply(s: State, e: Event): (s': State)
    requires |s.shards| > 0 && Enabled(s, e)
    ensures |s'.shards| == |s.shards|
  {
    var x, t, n := ThreadAt(s, e.t), e.t, |s.shards|;
    match e
    case Start(_, next) => Move(s, t, next)
    case LockClient(_, order) =>
      var k := Get(s, x.c);
      if Returns(x.op, k) then Move(s, t, Idle)
      else Move(Put(Acquire(s, t, ClientLock(x.c)), x.c, Entered(x.op, k)), t,
                Inside(x.c, Todo(x.op, k, order), Final(x.op)))
    case LockShard(_) => Move(Acquire(s, t, LockOf(x.c, x.todo[0], n)), t, Writing(x.c, x.todo, x.final))
    case Act(_) =>
      var l := LockOf(x.c, x.todo[0], n);
      Move(Unlock(s.(shards := s.shards[l.i := ActOn(s.shards[l.i], x.c, x.todo[0])]), l), t,
           Inside(x.c, x.todo[1..], x.final))
    case Release(_) =>
      var k := Get(s, x.c);
      Move(Unlock(Put(s, x.c, if x.final.Some? then k.(roomIDs := x.final.value) else k), ClientLock(x.c)), t, Idle)
    case LockRoom(_) => Move(Acquire(s, t, ShardLock(ShardOf(x.room, n))), t, Snapshot(x.room))
    case TakeSnapshot(_, found) =>
      var i := ShardOf(x.room, n);
      Move(Unlock(s.(shards := s.shards[i := s.shards[i].(rooms := s.shards[i].rooms - {x.room})]), ShardLock(i)),
           t, Clearing(x.room, found))
    case LockNext(_) => Move(Acquire(s, t, ClientLock(x.rest[0])), t, Erasing(x.room, x.rest[0], x.rest[1..]))
    case Erase(_) =>
      var k := Get(s, x.c);
      Move(Unlock(Put(s, x.c, k.(roomIDs := k.roomIDs - {x.room})), ClientLock(x.c)), t, Clearing(x.room, x.rest))
    case Finish(_) => Move(s, t, Idle)
    case LockRead(_) => Move(s, t, Reading(x.l))
    case Unread(_) => Move(s, t, Idle)
  }

  // ---- what holds in every reachable state ----

  /** The lock table says exactly what t holds, and no lock is written while t reads it. */
  ghost predicate TableOk(s: State, t: nat)
    requires |s.shards| > 0
  {
    var x := ThreadAt(s, t);
    && (forall l :: l in Holds(x, |s.shards|) <==> l in s.owner && s.owner[l] == t)
    && (x.Reading? ==> x.l !in s.owner)
    && (x.Writing? ==> x.todo != [])
  }

  ghost predicate LocksOk(s: State)
    requires |s.shards| > 0
  {
    forall t :: TableOk(s, t)
  }

  /** Users and rooms sit only in their own shard, and no stored room set is empty. */
  ghost predicate Placed(h: Shard, i: nat, n: nat)
    requires n > 0
  {
    && (forall u :: u in h.users ==> ShardOf(u, n) == i)
    && (forall r :: r in h.rooms ==> ShardOf(r, n) == i && h.rooms[r] != {})
  }

  /** What the thread holding c.mu has still to do. */
  function Pending(s: State, c: Client): seq<Action> {
    if ClientLock(c) !in s.owner then []
    else
      var x := ThreadAt(s, s.owner[ClientLock(c)]);
      if x.Inside? || x.Writing? then x.todo else []
  }

  function Target(s: State, c: Client): set<int> {
    var k := Get(s, c);
    if !k.active then {}
    else if ClientLock(c) !in s.owner then k.roomIDs
    else
      var x := ThreadAt(s, s.owner[ClientLock(c)]);
      if (x.Inside? || x.Writing?) && x.final.Some? then x.final.value else k.roomIDs
  }

  /** A DisbandRoom of r has taken c from the room and not yet the room from c. */
  predicate Owes(x: Thread, c: Client, r: int) {
    || (x.Clearing? && x.room == r && c in x.rest)
    || (x.Erasing? && x.room == r && (c == x.c || c in x.rest))
  }

  ghost predicate Owed(s: State, c: Client, r: int) { exists t :: Owes(ThreadAt(s, t), c, r) }

  predicate After(todo: seq<Action>, r: int, now: bool) { Add(r) in todo || (now && Remove(r) !in todo) }

  ghost predicate RoomOk(s: State, c: Client, r: int)
    requires |s.shards| > 0
  {
    && !(Add(r) in Pending(s, c) && Remove(r) in Pending(s, c))
    && if Owed(s, c, r) then !InRoom(s, r, c)
       else After(Pending(s, c), r, InRoom(s, r, c)) <==> r in Target(s, c)
  }

  ghost predicate UserOk(s: State, c: Client)
    requires |s.shards| > 0
  {
    && (SetUser in Pending(s, c) ==> Get(s, c).active && DelUser !in Pending(s, c))
    && (forall u :: UserAt(s, u) == Some(c) ==> u == c.userID && (Get(s, c).active || DelUser in Pending(s, c)))
  }

  ghost predicate Inv(s: State) {
    && |s.shards| > 0
    && LocksOk(s)
    && (forall i :: 0 <= i < |s.shards| ==> Placed(s.shards[i], i, |s.shards|))
    && (forall c, r :: RoomOk(s, c, r))
    && (forall c :: UserOk(s, c))
  }
}
