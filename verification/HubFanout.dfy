/** Sending one message to a room: the loop for small rooms, and the balanced batches that a
    pool runs in any interleaving for large ones. */
module HubFanout {
  import opened HubSharding
  import opened Hub
  import opened Sequences

  function Max(a: int, b: int): int { if a < b then b else a }

  /** (n + d - 1) / d: the quotient rounded up. */
  function CeilDiv(n: nat, d: nat): nat
    requires d > 0
  {
    (n + d - 1) / d
  }

  lemma CeilDivBounds(n: nat, d: nat)
    requires n > 0 && d > 0
    ensures (CeilDiv(n, d) - 1) * d < n <= CeilDiv(n, d) * d
    ensures CeilDiv(n, d) >= 1
  {
  }

  lemma MulMono(a: int, b: int, c: nat)
    requires a <= b
    ensures a * c <= b * c && c * a <= c * b
  {
  }

  function Times(k: nat, size: nat): nat { k * size }

  lemma TimesNext(k: nat, size: nat)
    ensures Times(k + 1, size) == Times(k, size) + size && Times(0, size) == 0
  {
  }

  /** The batch size is at most the configured one. */
  lemma BalancedSize(n: nat, b: nat)
    requires n >= 1 && b >= 1
    ensures 1 <= CeilDiv(n, Max(2, CeilDiv(n, b))) <= b
  {
    var q := CeilDiv(n, b);
    var t := Max(2, q);
    var size := CeilDiv(n, t);
    CeilDivBounds(n, b);
    CeilDivBounds(n, t);
    hide *;
    if size > b {
      MulMono(b, size - 1, t);
      MulMono(q, t, b);
      assert false;
    }
  }

  /** k slices of the balanced size, the last one perhaps shorter, are exactly as many as planned. */
  lemma BalancedCount(n: nat, b: nat, k: nat)
    requires n >= 2 && b >= 1 && k >= 1
    requires var size := CeilDiv(n, Max(2, CeilDiv(n, b))); Times(k - 1, size) < n <= Times(k, size)
    ensures k == Max(2, CeilDiv(n, b))
  {
    var q := CeilDiv(n, b);
    var t := Max(2, q);
    var size := CeilDiv(n, t);
    CeilDivBounds(n, b);
    CeilDivBounds(n, t);
    BalancedSize(n, b);
    if q < 2 { HalfIsLess(n); }
    hide *;
    if k > t {
      MulMono(t, k - 1, size);
      assert false;
    }
    if k < t {
      MulMono(k, t - 1, size);
      if q >= 2 {
        MulMono(size, b, t - 1);
      }
      assert false;
    }
  }

  lemma HalfIsLess(n: nat)
    requires n >= 2
    ensures CeilDiv(n, 2) < n
  {
  }

  lemma OneSlice(n: nat, size: nat, k: nat)
    requires n == 1 && size >= 1 && k >= 1 && Times(k - 1, size) < n
    ensures k == 1
  {
    if k >= 2 { MulMono(1, k - 1, size); }
  }

  /** The slicing loop of the large-room path. */
  method Batches<T>(clients: seq<T>, batchSize: nat) returns (batches: seq<seq<T>>)
    requires |clients| >= 1 && batchSize >= 1
    ensures Flatten(batches) == clients
    ensures forall i :: 0 <= i < |batches| ==> 1 <= |batches[i]| <= batchSize
    ensures |clients| >= 2 ==> |batches| == Max(2, CeilDiv(|clients|, batchSize))
    ensures |clients| == 1 ==> |batches| == 1
  {
    var n := |clients|;
    var taskCount := (n + batchSize - 1) / batchSize;
    if taskCount < 2 {
      taskCount := 2;
    }
    var size := (n + taskCount - 1) / taskCount;
    BalancedSize(n, batchSize);
    assert taskCount == Max(2, CeilDiv(n, batchSize)) && size == CeilDiv(n, taskCount);
    hide CeilDiv, Max, Flatten, Times;
    TimesNext(0, size);
    batches := [];
    assert Flatten(batches) == [] by { FlattenNone<T>(); }
    var start := 0;
    while start < n
      invariant start == Times(|batches|, size)
      invariant |batches| > 0 ==> Times(|batches| - 1, size) < n
      invariant Flatten(batches) == clients[..if start < n then start else n]
      invariant forall i :: 0 <= i < |batches| ==> 1 <= |batches[i]| <= batchSize
      decreases n - start
    {
      var end := if start + size < n then start + size else n;
      FlattenOne(batches, clients[start..end]);
      batches := batches + [clients[start..end]];
      start := start + size;
      TimesNext(|batches| - 1, size);
    }
    if n >= 2 {
      BalancedCount(n, batchSize, |batches|);
    } else {
      OneSlice(n, size, |batches|);
    }
    assert clients[..n] == clients;
  }

  // ---- one message to many clients ----

  /** Whether a client whose queue holds q can take one more payload. */
  predicate Takes(c: Client, q: seq<seq<bv8>>)
    reads c`sendClosed
  {
    !c.sendClosed && |q| < c.capacity
  }

  ghost predicate Separate(hub: Hub) {
    |hub.shards| > 0 && forall i, j :: 0 <= i < j < |hub.shards| ==> hub.shards[i] != hub.shards[j]
  }

  /** Exactly the clients in done have been offered the payload; queues tells what each queue
      held before. */
  ghost predicate Offered(queues: map<Client, seq<seq<bv8>>>, done: set<Client>, payload: seq<bv8>)
    reads queues.Keys
  {
    forall c :: c in queues ==>
      c.queue == if c in done && Takes(c, queues[c]) then queues[c] + [payload] else queues[c]
  }

  ghost predicate Counted(queues: map<Client, seq<seq<bv8>>>, done: set<Client>, delivered: nat, dropped: nat)
    requires done <= queues.Keys
    reads done`sendClosed
  {
    && delivered == |set c | c in done && Takes(c, queues[c])|
    && dropped == |set c | c in done && !Takes(c, queues[c])|
  }

  ghost function Queues(clients: set<Client>): map<Client, seq<seq<bv8>>>
    reads clients
  {
    map c | c in clients :: c.queue
  }

  /** An eviction queue only grows, within its capacity, by refusing clients of its own shard. */
  ghost predicate EvictsOnly(was: seq<Client>, now: seq<Client>, queues: map<Client, seq<seq<bv8>>>, i: nat, n: nat)
    requires n > 0
    reads queues.Keys`sendClosed
  {
    && was <= now
    && (|now| > |was| ==> |now| <= KILL_CAPACITY)
    && forall j :: |was| <= j < |now| ==>
         now[j] in queues && !Takes(now[j], queues[now[j]]) && ShardOf(now[j].userID, n) == i
  }

  ghost predicate AllEvictsOnly(hub: Hub, kills: seq<seq<Client>>, queues: map<Client, seq<seq<bv8>>>)
    requires |kills| == |hub.shards| > 0
    reads hub.shards, queues.Keys`sendClosed
  {
    forall i :: 0 <= i < |kills| ==> EvictsOnly(kills[i], hub.shards[i].killClient, queues, i, |kills|)
  }

  ghost function Kills(hub: Hub): (kills: seq<seq<Client>>)
    reads hub.shards
    ensures |kills| == |hub.shards|
  {
    seq(|hub.shards|, i requires 0 <= i < |hub.shards| reads hub.shards => hub.shards[i].killClient)
  }

  /** requestEvict: never waits; a full queue swallows the request. */
  method RequestEvict(hub: Hub, c: Client, ghost kills: seq<seq<Client>>, ghost queues: map<Client, seq<seq<bv8>>>)
    requires Separate(hub) && |kills| == |hub.shards| && AllEvictsOnly(hub, kills, queues)
    requires c in queues && !Takes(c, queues[c])
    modifies hub.shards
    ensures AllEvictsOnly(hub, kills, queues)
    ensures forall h :: h in hub.shards ==> h.users == old(h.users) && h.rooms == old(h.rooms)
  {
    var shard := hub.shards[ShardOf(c.userID, |hub.shards|)];
    if |shard.killClient| < KILL_CAPACITY {
      shard.killClient := shard.killClient + [c];
    }
  }

  /** What one task does for one client. */
  method SendOne(hub: Hub, c: Client, payload: seq<bv8>, ghost done: set<Client>,
                 ghost kills: seq<seq<Client>>, ghost queues: map<Client, seq<seq<bv8>>>)
    returns (ok: bool)
    requires Separate(hub) && |kills| == |hub.shards| && AllEvictsOnly(hub, kills, queues)
    requires c in queues && c !in done && Offered(queues, done, payload)
    modifies c`queue, hub.shards
    ensures ok == Takes(c, queues[c]) && Offered(queues, done + {c}, payload)
    ensures AllEvictsOnly(hub, kills, queues)
    ensures forall h :: h in hub.shards ==> h.users == old(h.users) && h.rooms == old(h.rooms)
  {
    hide Separate;
    ok := c.TrySend(payload);
    if !ok {
      RequestEvict(hub, c, kills, queues);
    }
  }

  lemma CountOne(queues: map<Client, seq<seq<bv8>>>, done: set<Client>, c: Client, delivered: nat, dropped: nat)
    requires done <= queues.Keys && c in queues && c !in done && Counted(queues, done, delivered, dropped)
    ensures Counted(queues, done + {c}, if Takes(c, queues[c]) then delivered + 1 else delivered,
                    if Takes(c, queues[c]) then dropped else dropped + 1)
  {
    var yes := set d | d in done && Takes(d, queues[d]);
    var no := set d | d in done && !Takes(d, queues[d]);
    if Takes(c, queues[c]) {
      assert (set d | d in done + {c} && Takes(d, queues[d])) == yes + {c};
      assert (set d | d in done + {c} && !Takes(d, queues[d])) == no;
    } else {
      assert (set d | d in done + {c} && Takes(d, queues[d])) == yes;
      assert (set d | d in done + {c} && !Takes(d, queues[d])) == no + {c};
    }
  }

  ghost predicate Distinct(clients: seq<Client>) {
    forall i, j :: 0 <= i < j < |clients| ==> clients[i] != clients[j]
  }

  ghost function ToSet(clients: seq<Client>): set<Client> { set c | c in clients }

  /** The small-room loop. */
  method SendInTurn(hub: Hub, clients: seq<Client>, payload: seq<bv8>) returns (delivered: nat, dropped: nat)
    requires Separate(hub) && Distinct(clients)
    modifies ToSet(clients)`queue, hub.shards
    ensures Offered(old(Queues(ToSet(clients))), ToSet(clients), payload)
    ensures Counted(old(Queues(ToSet(clients))), ToSet(clients), delivered, dropped)
    ensures AllEvictsOnly(hub, old(Kills(hub)), old(Queues(ToSet(clients))))
    ensures forall h :: h in hub.shards ==> h.users == old(h.users) && h.rooms == old(h.rooms)
  {
    hide AllEvictsOnly, Offered, Counted, Takes;
    ghost var queues, kills := Queues(ToSet(clients)), Kills(hub);
    ghost var done: set<Client> := {};
    NothingYet(hub, queues, kills, payload);
    delivered, dropped := 0, 0;
    for i := 0 to |clients|
      invariant done == set c | c in clients[..i]
      invariant Offered(queues, done, payload) && Counted(queues, done, delivered, dropped)
      invariant AllEvictsOnly(hub, kills, queues)
      invariant forall h :: h in hub.shards ==> h.users == old(h.users) && h.rooms == old(h.rooms)
    {
      var c := clients[i];
      CountOne(queues, done, c, delivered, dropped);
      var ok := SendOne(hub, c, payload, done, kills, queues);
      if ok { delivered := delivered + 1; } else { dropped := dropped + 1; }
      done := done + {c};
    }
    assert done == ToSet(clients);
  }

  lemma NothingYet(hub: Hub, queues: map<Client, seq<seq<bv8>>>, kills: seq<seq<Client>>, payload: seq<bv8>)
    requires |hub.shards| > 0 && kills == Kills(hub) && forall c :: c in queues ==> queues[c] == c.queue
    ensures Offered(queues, {}, payload) && Counted(queues, {}, 0, 0) && AllEvictsOnly(hub, kills, queues)
  {
  }

  // ---- the large-room path ----

  /** What the tasks have still to do: disjoint lists, together everyone not yet done. */
  ghost predicate Left(rest: seq<seq<Client>>, done: set<Client>, all: set<Client>) {
    && done <= all
    && (forall i :: 0 <= i < |rest| ==> Distinct(rest[i]))
    && (forall i, c :: 0 <= i < |rest| && c in rest[i] ==> c in all && c !in done)
    && (forall i, j, c :: 0 <= i < j < |rest| && c in rest[i] ==> c !in rest[j])
    && (forall c :: c in all && c !in done ==> exists i :: 0 <= i < |rest| && c in rest[i])
  }

  lemma DistinctParts(front: seq<Client>, last: seq<Client>)
    requires Distinct(front + last)
    ensures Distinct(front) && Distinct(last) && forall c :: c in front ==> c !in last
  {
    assert forall i :: 0 <= i < |front| ==> (front + last)[i] == front[i];
    assert forall i :: 0 <= i < |last| ==> (front + last)[|front| + i] == last[i];
  }

  lemma {:induction false} FlattenLeft(batches: seq<seq<Client>>)
    requires Distinct(Flatten(batches))
    ensures Left(batches, {}, ToSet(Flatten(batches)))
  {
    if batches != [] {
      var n := |batches| - 1;
      var front, last := Flatten(batches[..n]), batches[n];
      assert Flatten(batches) == front + last;
      DistinctParts(front, last);
      FlattenLeft(batches[..n]);
      forall c | c in ToSet(front)
        ensures exists i :: 0 <= i < |batches| && c in batches[i]
      {
        var i :| 0 <= i < n && c in batches[..n][i];
        assert c in batches[i];
      }
      assert forall c :: c in ToSet(Flatten(batches)) <==> c in front || c in last;
    }
  }

  lemma TaskStep(rest: seq<seq<Client>>, done: set<Client>, all: set<Client>, i: nat)
    requires Left(rest, done, all) && i < |rest| && rest[i] != []
    ensures Left(rest[i := rest[i][1..]], done + {rest[i][0]}, all)
  {
    var next, d := rest[i := rest[i][1..]], rest[i][0];
    assert rest[i] == [d] + rest[i][1..];
    assert forall j, c :: 0 <= j < |next| && c in next[j] ==> c in rest[j] && c != d;
    forall c | c in all && c !in done + {d}
      ensures exists j :: 0 <= j < |next| && c in next[j]
    {
      var j :| 0 <= j < |rest| && c in rest[j];
      assert c in next[j];
    }
  }

  /** The tasks under the pool: any task that is not finished may be the next to serve a client. */
  method RunTasks(hub: Hub, batches: seq<seq<Client>>, payload: seq<bv8>, ghost all: set<Client>)
    returns (delivered: nat, dropped: nat)
    requires Separate(hub) && Left(batches, {}, all)
    modifies all`queue, hub.shards
    ensures Offered(old(Queues(all)), all, payload)
    ensures Counted(old(Queues(all)), all, delivered, dropped)
    ensures AllEvictsOnly(hub, old(Kills(hub)), old(Queues(all)))
    ensures forall h :: h in hub.shards ==> h.users == old(h.users) && h.rooms == old(h.rooms)
  {
    hide AllEvictsOnly, Offered, Counted, Takes, Left;
    ghost var queues, kills := Queues(all), Kills(hub);
    ghost var done: set<Client> := {};
    NothingYet(hub, queues, kills, payload);
    delivered, dropped := 0, 0;
    var rest := batches;
    while exists i :: 0 <= i < |rest| && rest[i] != []
      invariant Left(rest, done, all) && done <= all
      invariant Offered(queues, done, payload) && Counted(queues, done, delivered, dropped)
      invariant AllEvictsOnly(hub, kills, queues)
      invariant forall h :: h in hub.shards ==> h.users == old(h.users) && h.rooms == old(h.rooms)
      decreases |all - done|
    {
      var i :| 0 <= i < |rest| && rest[i] != [];
      var c := rest[i][0];
      NextClient(rest, done, all, i);
      TaskStep(rest, done, all, i);
      CountOne(queues, done, c, delivered, dropped);
      var ok := SendOne(hub, c, payload, done, kills, queues);
      if ok { delivered := delivered + 1; } else { dropped := dropped + 1; }
      rest := rest[i := rest[i][1..]];
      done := done + {c};
    }
    AllDone(rest, done, all);
  }

  lemma NextClient(rest: seq<seq<Client>>, done: set<Client>, all: set<Client>, i: nat)
    requires Left(rest, done, all) && i < |rest| && rest[i] != []
    ensures rest[i][0] in all && rest[i][0] !in done
    ensures |all - (done + {rest[i][0]})| < |all - done|
  {
    var c := rest[i][0];
    assert all - (done + {c}) == (all - done) - {c};
  }

  lemma AllDone(rest: seq<seq<Client>>, done: set<Client>, all: set<Client>)
    requires Left(rest, done, all) && forall i :: 0 <= i < |rest| ==> rest[i] == []
    ensures done == all
  {
  }

  /** The clients of a set, in some order. */
  method Listing(s: set<Client>) returns (clients: seq<Client>)
    ensures Distinct(clients) && ToSet(clients) == s && |clients| == |s|
  {
    clients := [];
    var rest := s;
    while rest != {}
      invariant rest <= s && Distinct(clients) && ToSet(clients) == s - rest
      invariant |clients| + |rest| == |s|
    {
      var c := Pick(rest);
      assert ToSet(clients + [c]) == ToSet(clients) + {c};
      clients := clients + [c];
      rest := rest - {c};
    }
  }

  /** Queues of any kind are no part of the indexes. */
  twostate lemma IndexesKept(hub: Hub)
    requires old(hub.Valid()) && hub.known == old(hub.known)
    requires forall h :: h in hub.shards ==> h.users == old(h.users) && h.rooms == old(h.rooms)
    requires forall c :: c in hub.known ==> c.active == old(c.active) && c.roomIDs == old(c.roomIDs)
    ensures hub.Valid() && forall r :: hub.Members(r) == old(hub.Members(r))
  {
    assert forall r :: hub.Members(r) == old(hub.Members(r));
    assert forall u :: hub.CurrentOf(u) == old(hub.CurrentOf(u));
    forall c | c in hub.known
      ensures hub.Agrees(c)
    {
      assert old(hub.Agrees(c));
    }
  }

  /** dispatchMessage: whichever path it takes, every member of the room is offered the payload
      once, and the counts are the same. */
  method Dispatch(hub: Hub, room: int, payload: seq<bv8>, threshold: nat, batchSize: nat)
    returns (delivered: nat, dropped: nat)
    requires hub.Valid() && batchSize >= 1
    modifies hub.Members(room)`queue, hub.shards
    ensures hub.Valid() && hub.Members(room) == old(hub.Members(room))
    ensures var all := hub.Members(room);
            && Offered(old(Queues(all)), all, payload)
            && Counted(old(Queues(all)), all, delivered, dropped)
            && AllEvictsOnly(hub, old(Kills(hub)), old(Queues(all)))
  {
    hide AllEvictsOnly, Offered, Counted, Left, Flatten;
    ghost var all := hub.Members(room);
    var clients := Listing(hub.Members(room));
    if |clients| == 0 {
      NothingYet(hub, Queues(all), Kills(hub), payload);
      return 0, 0;
    }
    if |clients| < threshold {
      delivered, dropped := SendInTurn(hub, clients, payload);
    } else {
      var batches := Batches(clients, batchSize);
      FlattenLeft(batches);
      delivered, dropped := RunTasks(hub, batches, payload, all);
    }
    IndexesKept(hub);
  }
}
