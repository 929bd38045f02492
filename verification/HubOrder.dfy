/** One shard's dispatch loop over a whole run: what each client receives, and in which order,
    while tasks interleave, sockets drain, other shards send and connections close. */
module HubOrder {
  import opened Options

  /** Own(k) is the k-th message of this shard's forward queue; Other comes from elsewhere. */
  datatype Payload = Own(k: nat) | Other

  /** Everything ever put into a client's Send channel, how much of it was taken out, and
      whether the channel is closed. */
  datatype Channel = Channel(history: seq<Payload>, drained: nat, closed: bool, capacity: nat)

  /** The message being fanned out, and what each task has left. */
  datatype Job = Job(k: nat, tasks: seq<seq<nat>>)

  const FORWARD_CAPACITY := 1024

  datatype State = State(forwarded: seq<int>, taken: nat, job: Option<Job>, clients: map<nat, Channel>)

  datatype Event =
    | Publish(room: int)             // a message arrives for this shard
    | Take(tasks: seq<seq<nat>>)     // the loop takes the next one and cuts the room into tasks
    | Serve(task: nat)               // one task sends to its next client
    | Barrier                        // all tasks done
    | Foreign(c: nat)                // some other shard sends to c
    | Drain(c: nat)                  // c's write pump takes one payload
    | Close(c: nat)
    | Connect(c: nat, capacity: nat)

  function Offer(q: Channel, p: Payload): Channel {
    if !q.closed && |q.history| - q.drained < q.capacity then q.(history := q.history + [p]) else q
  }

  /** No client is in two tasks, or in one task twice. */
  ghost predicate Parted(tasks: seq<seq<nat>>) {
    forall i, a, j, b ::
      (0 <= i < |tasks| && 0 <= a < |tasks[i]| && 0 <= j < |tasks| && 0 <= b < |tasks[j]| && tasks[i][a] == tasks[j][b])
        ==> i == j && a == b
  }

  ghost predicate Enabled(s: State, e: Event) {
    match e
    case Publish(_) => true
    case Take(tasks) =>
      s.job.None? && s.taken < |s.forwarded| && Parted(tasks)
      && forall i, a :: 0 <= i < |tasks| && 0 <= a < |tasks[i]| ==> tasks[i][a] in s.clients
    case Serve(i) => s.job.Some? && i < |s.job.value.tasks| && s.job.value.tasks[i] != []
                     && s.job.value.tasks[i][0] in s.clients
    case Barrier => s.job.Some? && forall i :: 0 <= i < |s.job.value.tasks| ==> s.job.value.tasks[i] == []
    case Foreign(c) => c in s.clients
    case Drain(c) => c in s.clients && s.clients[c].drained < |s.clients[c].history|
    case Close(c) => c in s.clients
    case Connect(c, _) => c !in s.clients
  }

  function Apply(s: State, e: Event): State
    requires Enabled(s, e)
  {
    match e
    case Publish(room) =>
      if |s.forwarded| < s.taken + FORWARD_CAPACITY then s.(forwarded := s.forwarded + [room]) else s
    case Take(tasks) => s.(taken := s.taken + 1, job := Some(Job(s.taken, tasks)))
    case Serve(i) =>
      var job := s.job.value;
      var c := job.tasks[i][0];
      s.(clients := s.clients[c := Offer(s.clients[c], Own(job.k))],
         job := Some(job.(tasks := job.tasks[i := job.tasks[i][1..]])))
    case Barrier => s.(job := None)
    case Foreign(c) => s.(clients := s.clients[c := Offer(s.clients[c], Other)])
    case Drain(c) => s.(clients := s.clients[c := s.clients[c].(drained := s.clients[c].drained + 1)])
    case Close(c) => s.(clients := s.clients[c := s.clients[c].(closed := true)])
    case Connect(c, capacity) => s.(clients := s.clients[c := Channel([], 0, false, capacity)])
  }

  // ---- the order of what a client receives ----

  /** The forward positions of this shard's payloads, in the order received. */
  function Positions(history: seq<Payload>): (ks: seq<nat>) {
    if history == [] then []
    else
      var n := |history| - 1;
      Positions(history[..n]) + (if history[n].Own? then [history[n].k] else [])
  }

  ghost predicate Increasing(ks: seq<nat>) { forall i, j :: 0 <= i < j < |ks| ==> ks[i] < ks[j] }

  ghost predicate Below(ks: seq<nat>, bound: nat) { forall i :: 0 <= i < |ks| ==> ks[i] < bound }

  ghost predicate Waiting(s: State, c: nat) {
    s.job.Some? && exists i :: 0 <= i < |s.job.value.tasks| && c in s.job.value.tasks[i]
  }

  /** c has this shard's payloads in forward order, and none yet of the message it waits for. */
  ghost predicate ClientOk(s: State, c: nat) {
    c in s.clients ==>
      var ks := Positions(s.clients[c].history);
      Increasing(ks) && Below(ks, if Waiting(s, c) then s.job.value.k else s.taken)
      && 0 <= |s.clients[c].history| - s.clients[c].drained <= s.clients[c].capacity
  }

  ghost predicate Inv(s: State) {
    && s.taken <= |s.forwarded| <= s.taken + FORWARD_CAPACITY
    && (s.job.Some? ==> s.job.value.k + 1 == s.taken && Parted(s.job.value.tasks))
    && forall c :: ClientOk(s, c)
  }

  lemma Appended(history: seq<Payload>, p: Payload)
    ensures Positions(history + [p]) == Positions(history) + if p.Own? then [p.k] else []
  {
    assert (history + [p])[..|history|] == history;
  }

  lemma ServeParted(tasks: seq<seq<nat>>, i: nat)
    requires Parted(tasks) && i < |tasks| && tasks[i] != []
    ensures Parted(tasks[i := tasks[i][1..]])
    ensures var next := tasks[i := tasks[i][1..]];
            forall j :: 0 <= j < |next| ==> tasks[i][0] !in next[j]
  {
    var next := tasks[i := tasks[i][1..]];
    forall j, b | 0 <= j < |next| && 0 <= b < |next[j]|
      ensures next[j][b] == tasks[j][if j == i then b + 1 else b] && next[j][b] != tasks[i][0]
    {
    }
  }

  lemma StepKeepsClient(s: State, e: Event, c: nat)
    requires Inv(s) && Enabled(s, e)
    ensures ClientOk(Apply(s, e), c)
  {
    hide Parted, Positions;
    assert ClientOk(s, c);
    var s' := Apply(s, e);
    match e
    case Serve(i) =>
      var job := s.job.value;
      var d := job.tasks[i][0];
      ServeParted(job.tasks, i);
      assert d in job.tasks[i] && Waiting(s, d);
      Appended(s.clients[d].history, Own(job.k));
      if c != d && Waiting(s', c) {
        var j :| 0 <= j < |job.tasks| && c in s'.job.value.tasks[j];
        assert c in job.tasks[j];
      }
      if c != d && Waiting(s, c) {
        var j :| 0 <= j < |job.tasks| && c in job.tasks[j];
        assert job.tasks[i] == [d] + job.tasks[i][1..];
        assert c in s'.job.value.tasks[j];
      }
    case Foreign(d) => Appended(s.clients[d].history, Other);
    case Connect(_, _) => assert Positions([]) == [] by { NothingReceived(); }
    case Barrier =>
    case Publish(_) =>
    case Take(_) =>
    case Drain(_) =>
    case Close(_) =>
  }

  lemma NothingReceived()
    ensures Positions([]) == []
  {
  }

  lemma StepKeeps(s: State, e: Event)
    requires Inv(s) && Enabled(s, e)
    ensures Inv(Apply(s, e))
  {
    hide ClientOk;
    forall c
      ensures ClientOk(Apply(s, e), c)
    {
      StepKeepsClient(s, e, c);
    }
    if e.Serve? {
      ServeParted(s.job.value.tasks, e.task);
    }
  }

  ghost predicate Stepped(s: State, e: Event, s': State) { Enabled(s, e) && s' == Apply(s, e) }

  ghost predicate Run(states: seq<State>, events: seq<Event>) {
    && |states| == |events| + 1 && states[0] == State([], 0, None, map[])
    && forall i :: 0 <= i < |events| ==> Stepped(states[i], events[i], states[i + 1])
  }

  lemma {:induction false} RunKeeps(states: seq<State>, events: seq<Event>, i: nat)
    requires Run(states, events) && i < |states|
    ensures Inv(states[i])
  {
    if i > 0 {
      RunKeeps(states, events, i - 1);
      assert Stepped(states[i - 1], events[i - 1], states[i]);
      StepKeeps(states[i - 1], events[i - 1]);
    }
  }

  /** Those of the received positions whose message belongs to the room. */
  function OfRoom(ks: seq<nat>, forwarded: seq<int>, room: int): (out: seq<nat>)
    requires forall i :: 0 <= i < |ks| ==> ks[i] < |forwarded|
  {
    if ks == [] then []
    else
      var n := |ks| - 1;
      OfRoom(ks[..n], forwarded, room) + (if forwarded[ks[n]] == room then [ks[n]] else [])
  }

  lemma {:induction false} OfRoomIncreasing(ks: seq<nat>, forwarded: seq<int>, room: int)
    requires Increasing(ks) && Below(ks, |forwarded|)
    ensures var out := OfRoom(ks, forwarded, room);
            Increasing(out) && forall k :: k in out <==> k in ks && forwarded[k] == room
  {
    if ks != [] {
      var front, last := ks[..|ks| - 1], ks[|ks| - 1];
      OfRoomIncreasing(front, forwarded, room);
      assert ks == front + [last];
      var inner := OfRoom(front, forwarded, room);
      forall i | 0 <= i < |inner|
        ensures inner[i] < last
      {
        assert inner[i] in inner && inner[i] in front;
      }
      assert OfRoom(ks, forwarded, room) == inner + if forwarded[last] == room then [last] else [];
    }
  }

  /** In every run each client gets any room's messages in the order they were forwarded, none
      twice, and none that was not forwarded; and its queue never exceeds its capacity. */
  lemma RoomOrder(states: seq<State>, events: seq<Event>, i: nat, c: nat, room: int)
    requires Run(states, events) && i < |states| && c in states[i].clients
    ensures var s := states[i]; var ks := Positions(s.clients[c].history);
            && Below(ks, |s.forwarded|)
            && |s.clients[c].history| - s.clients[c].drained <= s.clients[c].capacity
            && Increasing(OfRoom(ks, s.forwarded, room))
            && forall k :: k in OfRoom(ks, s.forwarded, room) <==> k in ks && s.forwarded[k] == room
  {
    RunKeeps(states, events, i);
    assert ClientOk(states[i], c);
    OfRoomIncreasing(Positions(states[i].clients[c].history), states[i].forwarded, room);
  }

  // ---- who is served ----

  /** Which client a step sends this shard's message to. */
  ghost predicate Serves(s: State, e: Event, c: nat) {
    e.Serve? && s.job.Some? && e.task < |s.job.value.tasks| && s.job.value.tasks[e.task] != []
    && s.job.value.tasks[e.task][0] == c
  }

  lemma StillWaiting(s: State, e: Event, c: nat)
    requires Inv(s) && Enabled(s, e) && Waiting(s, c) && !Serves(s, e, c)
    ensures Waiting(Apply(s, e), c) && Apply(s, e).job.value.k == s.job.value.k
  {
    var tasks := s.job.value.tasks;
    var i :| 0 <= i < |tasks| && c in tasks[i];
    if e.Serve? {
      assert tasks[e.task] == [tasks[e.task][0]] + tasks[e.task][1..];
      assert c in Apply(s, e).job.value.tasks[i];
    }
  }

  /** Every client in a message's snapshot is offered it once before the next message is taken,
      and gets it exactly when its channel is open and has room. */
  lemma {:induction false} ServedInTime(states: seq<State>, events: seq<Event>, i: nat, j: nat, c: nat) returns (m: nat)
    requires Run(states, events) && i < j < |states| && Waiting(states[i], c) && states[j].job.None?
    ensures i <= m < j && Serves(states[m], events[m], c) && states[m].job.value.k == states[i].job.value.k
    ensures c in states[m].clients && c in states[m + 1].clients
    ensures var q := states[m].clients[c];
            states[m + 1].clients[c].history ==
              q.history + if !q.closed && |q.history| - q.drained < q.capacity then [Own(states[i].job.value.k)] else []
    decreases j - i
  {
    hide Inv, Waiting;
    assert Stepped(states[i], events[i], states[i + 1]);
    if Serves(states[i], events[i], c) {
      m := i;
    } else {
      RunKeeps(states, events, i);
      StillWaiting(states[i], events[i], c);
      assert states[i + 1].job.Some?;
      m := ServedInTime(states, events, i + 1, j, c);
    }
  }
}
