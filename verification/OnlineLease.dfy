/** Who is online: one expiring Redis key per user, set by a connection, renewed and deleted only
    by the connection whose value it holds. */
module OnlineLease {
  import opened Options

  /** Milliseconds. */
  const ONLINE_TTL := 60000
  const PONG_WAIT := 30000
  const PING_PERIOD := (PONG_WAIT * 9) / 10

  datatype Conn = Conn(node: string, id: string)

  datatype Lease = Lease(owner: string, deadline: int)

  datatype Event = Event(at: int, conn: Conn, kind: Kind)
  datatype Kind = SetOnline | Renew | SetOffline

  function Owner(c: Conn): string { c.node + ":" + c.id }

  predicate ConnOk(c: Conn) { ':' !in c.id }

  function Digits(n: nat): string {
    if n < 10 then ["0123456789"[n]] else Digits(n / 10) + ["0123456789"[n % 10]]
  }

  function Decimal(n: int): string { if n < 0 then "-" + Digits(-n) else Digits(n) }

  /** The id the gateway gives a connection: the user and the time in nanoseconds. */
  function ConnID(userID: int, nanos: int): string { Decimal(userID) + "-" + Decimal(nanos) }

  lemma {:induction false} DigitsPlain(n: nat)
    ensures ':' !in Digits(n)
  {
    if n >= 10 { DigitsPlain(n / 10); }
  }

  lemma ConnIDPlain(node: string, userID: int, nanos: int)
    ensures ConnOk(Conn(node, ConnID(userID, nanos)))
  {
    DigitsPlain(if userID < 0 then -userID else userID);
    DigitsPlain(if nanos < 0 then -nanos else nanos);
  }

  /** Two connections never write the same value. */
  lemma OwnerInjective(c: Conn, d: Conn)
    requires ConnOk(c) && ConnOk(d) && Owner(c) == Owner(d)
    ensures c == d
  {
    NotLonger(c, d);
    NotLonger(d, c);
    var s := Owner(c);
    assert s[..|c.node|] == c.node && s[..|d.node|] == d.node;
    assert s[|c.node| + 1..] == c.id && s[|d.node| + 1..] == d.id;
  }

  lemma NotLonger(c: Conn, d: Conn)
    requires ConnOk(c) && Owner(c) == Owner(d)
    ensures |d.node| <= |c.node|
  {
    var s := Owner(c);
    assert s[|d.node|] == ':' by { assert Owner(d)[|d.node|] == ':'; }
    assert forall k :: |c.node| < k < |s| ==> s[k] == c.id[k - |c.node| - 1];
  }

  // ---- one user's key ----

  /** GET: the value, unless the key is absent or past its deadline. */
  function Holder(key: Option<Lease>, now: int): Option<string> {
    if key.Some? && now <= key.value.deadline then Some(key.value.owner) else None
  }

  function Apply(key: Option<Lease>, e: Event): Option<Lease> {
    match e.kind
    case SetOnline => Some(Lease(Owner(e.conn), e.at + ONLINE_TTL))
    case Renew =>
      if Holder(key, e.at) == Some(Owner(e.conn)) then Some(key.value.(deadline := e.at + ONLINE_TTL)) else key
    case SetOffline => if Holder(key, e.at) == Some(Owner(e.conn)) then None else key
  }

  function After(events: seq<Event>): Option<Lease> {
    if events == [] then None else Apply(After(events[..|events| - 1]), events[|events| - 1])
  }

  /** The shared store, all users' keys. */
  class Store {
    var keys: map<int, Lease>

    function Key(user: int): Option<Lease>
      reads this
    {
      if user in keys then Some(keys[user]) else None
    }

    constructor ()
      ensures forall u :: Key(u) == None
    {
      keys := map[];
    }

    method SetUserConnectionOnline(now: int, user: int, c: Conn)
      modifies this
      ensures Key(user) == Apply(old(Key(user)), Event(now, c, SetOnline))
      ensures forall u :: u != user ==> Key(u) == old(Key(u))
    {
      keys := keys[user := Lease(Owner(c), now + ONLINE_TTL)];
    }

    /** The script compares before it expires. */
    method RenewUserConnectionOnline(now: int, user: int, c: Conn) returns (done: bool)
      modifies this
      ensures Key(user) == Apply(old(Key(user)), Event(now, c, Renew))
      ensures forall u :: u != user ==> Key(u) == old(Key(u))
      ensures done == (Holder(old(Key(user)), now) == Some(Owner(c)))
    {
      var holder := CheckUserOnline(now, user);
      done := holder == Some(Owner(c));
      if done {
        keys := keys[user := keys[user].(deadline := now + ONLINE_TTL)];
      }
    }

    /** The script compares before it deletes. */
    method SetUserConnectionOffline(now: int, user: int, c: Conn) returns (done: bool)
      modifies this
      ensures Key(user) == Apply(old(Key(user)), Event(now, c, SetOffline))
      ensures forall u :: u != user ==> Key(u) == old(Key(u))
      ensures done == (Holder(old(Key(user)), now) == Some(Owner(c)))
    {
      var holder := CheckUserOnline(now, user);
      done := holder == Some(Owner(c));
      if done {
        keys := keys - {user};
      }
    }

    method CheckUserOnline(now: int, user: int) returns (holder: Option<string>)
      ensures holder == Holder(Key(user), now)
    {
      if user !in keys || now > keys[user].deadline {
        return None;
      }
      holder := Some(keys[user].owner);
    }
  }

  // ---- runs ----

  ghost predicate Timely(events: seq<Event>) {
    (forall i :: 0 <= i < |events| ==> ConnOk(events[i].conn))
    && forall i, j :: 0 <= i < j < |events| ==> events[i].at <= events[j].at
  }

  /** The i-th event is the last that set the key. */
  ghost predicate LastSet(events: seq<Event>, i: nat) {
    && i < |events| && events[i].kind == SetOnline
    && forall j :: i < j < |events| ==> events[j].kind != SetOnline
  }

  /** The j-th event is the setter's own: the set, or a renewal. */
  predicate Touch(events: seq<Event>, i: nat, j: nat) {
    i <= j < |events| && events[j].conn == events[i].conn && events[j].kind != SetOffline
  }

  predicate Leaves(events: seq<Event>, i: nat, j: nat) {
    i < j < |events| && events[j].conn == events[i].conn && events[j].kind == SetOffline
  }

  ghost predicate Left(events: seq<Event>, i: nat) { exists j: nat :: Leaves(events, i, j) }

  /** The setter's connection was heard from within one lease before t. */
  ghost predicate Heard(events: seq<Event>, i: nat, t: int) {
    exists j: nat :: Touch(events, i, j) && events[j].at < t <= events[j].at + ONLINE_TTL
  }

  /** Since the set the connection was heard from within the lease at every moment up to now, and
      it has not gone offline. */
  ghost predicate Kept(events: seq<Event>, i: nat, now: int) {
    && LastSet(events, i)
    && !Left(events, i)
    && (forall t: int :: events[i].at < t <= now ==> Heard(events, i, t))
  }

  /** With this deadline: the lease reaches it without a gap, what was heard later came too late,
      and nobody left before it. */
  ghost predicate Reaches(events: seq<Event>, i: nat, deadline: int)
    requires i < |events|
  {
    && events[i].at <= deadline
    && (forall j: nat :: Touch(events, i, j) ==> events[j].at + ONLINE_TTL <= deadline || events[j].at > deadline)
    && (forall j: nat :: Leaves(events, i, j) ==> events[j].at > deadline)
    && (forall t: int :: events[i].at < t <= deadline ==> Heard(events, i, t))
  }

  /** What the stored key says about the events since the last set. */
  ghost predicate Story(events: seq<Event>, i: nat, key: Option<Lease>) {
    && LastSet(events, i)
    && (key.None? ==> Left(events, i))
    && (key.Some? ==> key.value.owner == Owner(events[i].conn) && Reaches(events, i, key.value.deadline))
  }

  /** A set starts a new story. */
  lemma SetStory(events: seq<Event>)
    requires events != [] && events[|events| - 1].kind == SetOnline
    ensures Story(events, |events| - 1, After(events))
  {
    var i: nat := |events| - 1;
    assert Touch(events, i, i);
    forall t: int | events[i].at < t <= events[i].at + ONLINE_TTL
      ensures Heard(events, i, t)
    {
    }
  }

  /** What was so before one more event. */
  lemma OneMore(front: seq<Event>, i: nat, e: Event)
    requires i < |front|
    ensures var events := front + [e];
            && (forall j: nat :: j < |front| ==>
                  (Touch(events, i, j) <==> Touch(front, i, j)) && (Leaves(events, i, j) <==> Leaves(front, i, j)))
            && (forall t: int :: Heard(front, i, t) ==> Heard(events, i, t))
            && (Left(front, i) ==> Left(events, i))
  {
    var events := front + [e];
    forall t: int | Heard(front, i, t)
      ensures Heard(events, i, t)
    {
      var j: nat :| Touch(front, i, j) && front[j].at < t <= front[j].at + ONLINE_TTL;
      assert Touch(events, i, j);
    }
    if Left(front, i) {
      var j: nat :| Leaves(front, i, j);
      assert Leaves(events, i, j);
    }
  }

  /** An event that comes too late, or from another connection, leaves the deadline true. */
  lemma StillReaches(front: seq<Event>, i: nat, e: Event, deadline: int)
    requires i < |front| && Reaches(front, i, deadline) && (e.conn == front[i].conn ==> e.at > deadline)
    ensures Reaches(front + [e], i, deadline)
  {
    hide Heard;
    OneMore(front, i, e);
  }

  /** A renewal in time moves it. */
  lemma RenewReaches(front: seq<Event>, i: nat, e: Event, deadline: int)
    requires i < |front| && Timely(front + [e]) && Reaches(front, i, deadline)
    requires e.conn == front[i].conn && e.kind == Renew && e.at <= deadline
    ensures Reaches(front + [e], i, e.at + ONLINE_TTL)
  {
    var events := front + [e];
    OneMore(front, i, e);
    assert Touch(events, i, |front|);
    assert forall j: nat :: j < |front| ==> events[j].at <= e.at;
    forall t: int | events[i].at < t <= e.at + ONLINE_TTL
      ensures Heard(events, i, t)
    {
      if t <= deadline { assert Heard(front, i, t); }
    }
  }

  /** Any other event goes on with the story. */
  lemma NextStory(front: seq<Event>, i: nat, e: Event)
    requires Timely(front + [e]) && e.kind != SetOnline && Story(front, i, After(front))
    ensures Story(front + [e], i, Apply(After(front), e))
  {
    hide Reaches, Left;
    var key, c := After(front), front[i].conn;
    OneMore(front, i, e);
    assert front[i] == (front + [e])[i];
    assert ConnOk((front + [e])[i].conn) && ConnOk((front + [e])[|front|].conn);
    if e.conn != c && Owner(e.conn) == Owner(c) {
      OwnerInjective(e.conn, c);
    }
    if key.Some? {
      if e.conn == c && e.at <= key.value.deadline {
        if e.kind == Renew {
          RenewReaches(front, i, e, key.value.deadline);
        } else {
          LeftNow(front, i, e);
        }
      } else {
        StillReaches(front, i, e, key.value.deadline);
      }
    }
  }

  lemma LeftNow(front: seq<Event>, i: nat, e: Event)
    requires i < |front| && e.conn == front[i].conn && e.kind == SetOffline
    ensures Left(front + [e], i)
  {
    assert Leaves(front + [e], i, |front|);
  }

  lemma {:induction false} StoryHolds(events: seq<Event>, i: nat)
    requires Timely(events) && LastSet(events, i)
    ensures Story(events, i, After(events))
  {
    if i == |events| - 1 {
      SetStory(events);
    } else {
      var n := |events| - 1;
      assert events == events[..n] + [events[n]];
      StoryHolds(events[..n], i);
      NextStory(events[..n], i, events[n]);
    }
  }

  /** At any time the key names the last connection that set it if and only if that connection
      has kept its lease since; otherwise it is absent. */
  lemma HolderExact(events: seq<Event>, i: nat, now: int)
    requires Timely(events) && LastSet(events, i) && forall j :: 0 <= j < |events| ==> events[j].at <= now
    ensures Holder(After(events), now) == if Kept(events, i, now) then Some(Owner(events[i].conn)) else None
  {
    StoryHolds(events, i);
    var key := After(events);
    if key.Some? && now > key.value.deadline {
      assert !Heard(events, i, key.value.deadline + 1);
    }
  }

  lemma {:induction false} NeverSet(events: seq<Event>)
    requires forall j :: 0 <= j < |events| ==> events[j].kind != SetOnline
    ensures After(events) == None
  {
    if events != [] {
      NeverSet(events[..|events| - 1]);
    }
  }

  lemma {:induction false} SomeLastSet(events: seq<Event>) returns (i: nat)
    requires exists j :: 0 <= j < |events| && events[j].kind == SetOnline
    ensures LastSet(events, i)
  {
    var n := |events| - 1;
    if events[n].kind == SetOnline {
      i := n;
    } else {
      i := SomeLastSet(events[..n]);
    }
  }

  /** The key holds a value exactly when that is the name of a connection that set it last and has
      kept its lease: a user is online if and only if such a connection exists. */
  lemma KeyExact(events: seq<Event>, now: int, owner: string)
    requires Timely(events) && forall j :: 0 <= j < |events| ==> events[j].at <= now
    ensures Holder(After(events), now) == Some(owner)
            <==> exists i: nat :: Kept(events, i, now) && Owner(events[i].conn) == owner
  {
    forall i: nat | LastSet(events, i)
      ensures Holder(After(events), now) == if Kept(events, i, now) then Some(Owner(events[i].conn)) else None
    {
      HolderExact(events, i, now);
    }
    if j :| 0 <= j < |events| && events[j].kind == SetOnline {
      var i := SomeLastSet(events);
    } else {
      NeverSet(events);
    }
  }

  /** A renewal or deletion by any other connection changes neither the value nor the deadline. */
  lemma OthersChangeNothing(events: seq<Event>, i: nat, e: Event)
    requires Timely(events + [e]) && LastSet(events, i) && e.kind != SetOnline && e.conn != events[i].conn
    ensures After(events + [e]) == After(events)
  {
    assert (events + [e])[..|events|] == events && (events + [e])[|events|] == e;
    forall j | 0 <= j < |events|
      ensures events[j] == (events + [e])[j]
    {
    }
    StoryHolds(events, i);
    if Owner(e.conn) == Owner(events[i].conn) {
      OwnerInjective(e.conn, events[i].conn);
    }
  }

  /** beats are the connection's own events from the set on, each at most one ping period after
      the one before, the last at most one before now. */
  ghost predicate Beating(events: seq<Event>, i: nat, beats: seq<nat>, now: int) {
    && beats != [] && beats[0] == i
    && (forall k :: 0 <= k < |beats| ==> Touch(events, i, beats[k]))
    && (forall k :: 0 <= k < |beats| - 1 ==> Gap(events, i, beats[k], beats[k + 1]))
    && now <= events[beats[|beats| - 1]].at + PING_PERIOD
  }

  predicate Gap(events: seq<Event>, i: nat, j: nat, k: nat) {
    Touch(events, i, j) && Touch(events, i, k) && events[k].at <= events[j].at + PING_PERIOD
  }

  /** Renewing at every ping keeps the key the connection's own until it leaves or is superseded. */
  lemma HeartbeatKeeps(events: seq<Event>, i: nat, beats: seq<nat>, now: int)
    requires Timely(events) && LastSet(events, i) && forall j :: 0 <= j < |events| ==> events[j].at <= now
    requires Beating(events, i, beats, now) && !Left(events, i)
    ensures Holder(After(events), now) == Some(Owner(events[i].conn))
  {
    forall t: int | events[i].at < t <= now
      ensures Heard(events, i, t)
    {
      var k := BeatBefore(events, i, beats, now, t, |beats| - 1);
      assert Touch(events, i, beats[k]);
    }
    HolderExact(events, i, now);
  }

  /** Some beat lies before t by no more than a ping period. */
  lemma {:induction false} BeatBefore(events: seq<Event>, i: nat, beats: seq<nat>, now: int, t: int, last: nat)
    returns (k: nat)
    requires Beating(events, i, beats, now) && last < |beats| && events[i].at < t
    requires t <= events[beats[last]].at + PING_PERIOD
    ensures k < |beats| && Touch(events, i, beats[k]) && events[beats[k]].at < t <= events[beats[k]].at + PING_PERIOD
    decreases last
  {
    if events[beats[last]].at < t {
      k := last;
    } else {
      assert last > 0;
      assert Gap(events, i, beats[last - 1], beats[last - 1 + 1]);
      k := BeatBefore(events, i, beats, now, t, last - 1);
    }
  }
}
