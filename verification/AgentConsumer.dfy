/** From Kafka to the inbox: sessions come and go, deliver again what was not committed, and
    crash at any point; one topic partition. */
module AgentConsumer {
  import opened Options

  datatype Message = Message(room: int, sender: int, content: string)

  /** An inbox row for the message at this Kafka offset. */
  datatype Row = Row(offset: nat, message: Message)

  /** Where a group without a committed offset starts reading. */
  datatype Reset = Earliest | Latest

  /** A consumer between two deliveries, or with a record handled but not yet committed. It
      started at `start` knowing that the group began at `base`. */
  datatype Session = Session(base: nat, position: nat, handled: bool)

  /** The committed offset, and where the first session of its line began. */
  datatype Commit = Commit(offset: nat, base: nat)

  datatype State = State(log: seq<Message>, rows: seq<Row>, ineligible: set<nat>,
                         committed: Option<Commit>, sessions: map<nat, Session>)

  datatype Event =
    | Produce(m: Message)
    | Open(k: nat)        // a consumer joins the group
    | Skip(k: nat)        // no enabled binding for the room, or a bot's own message
    | Insert(k: nat)      // the database transaction
    | Acknowledge(k: nat) // consumer.commit()
    | Crash(k: nat)       // at any point, an undecodable record included

  /** The unique index over topic, partition and offset: a second insertion is rolled back. */
  function Inserted(rows: seq<Row>, row: Row): seq<Row> {
    if HasOffset(rows, row.offset) then rows else rows + [row]
  }

  predicate HasOffset(rows: seq<Row>, p: nat) { exists i :: 0 <= i < |rows| && rows[i].offset == p }

  function StartOf(s: State, reset: Reset): Session {
    if s.committed.Some? then Session(s.committed.value.base, s.committed.value.offset, false)
    else
      var end := if reset == Earliest then 0 else |s.log|;
      Session(end, end, false)
  }

  predicate Enabled(s: State, e: Event) {
    match e
    case Produce(_) => true
    case Open(k) => k !in s.sessions
    case Skip(k) => k in s.sessions && !s.sessions[k].handled && s.sessions[k].position < |s.log|
    case Insert(k) => k in s.sessions && !s.sessions[k].handled && s.sessions[k].position < |s.log|
    case Acknowledge(k) => k in s.sessions && s.sessions[k].handled
    case Crash(k) => k in s.sessions
  }

  function Apply(s: State, e: Event, reset: Reset): State
    requires Enabled(s, e)
  {
    match e
    case Produce(m) => s.(log := s.log + [m])
    case Open(k) => s.(sessions := s.sessions[k := StartOf(s, reset)])
    case Skip(k) =>
      var x := s.sessions[k];
      s.(ineligible := s.ineligible + {x.position}, sessions := s.sessions[k := x.(handled := true)])
    case Insert(k) =>
      var x := s.sessions[k];
      s.(rows := Inserted(s.rows, Row(x.position, s.log[x.position])), sessions := s.sessions[k := x.(handled := true)])
    case Acknowledge(k) =>
      var x := s.sessions[k];
      s.(committed := Some(Commit(x.position + 1, x.base)),
         sessions := s.sessions[k := x.(position := x.position + 1, handled := false)])
    case Crash(k) => s.(sessions := s.sessions - {k})
  }

  // ---- exactly once ----

  predicate HasRow(s: State, p: nat) { HasOffset(s.rows, p) }

  /** p has its row, or was found ineligible when it was handled. */
  predicate Handled(s: State, p: nat) { HasRow(s, p) || p in s.ineligible }

  ghost predicate HandledFrom(s: State, base: nat, end: nat) { forall p: nat :: base <= p < end ==> Handled(s, p) }

  ghost predicate SessionOk(s: State, x: Session, reset: Reset) {
    && x.base <= x.position && x.position + (if x.handled then 1 else 0) <= |s.log|
    && HandledFrom(s, x.base, x.position + if x.handled then 1 else 0)
    && (reset == Earliest ==> x.base == 0)
  }

  ghost predicate Inv(s: State, reset: Reset) {
    && (forall i, j :: 0 <= i < j < |s.rows| ==> s.rows[i].offset != s.rows[j].offset)
    && (forall i :: 0 <= i < |s.rows| ==> s.rows[i].offset < |s.log| && s.rows[i].message == s.log[s.rows[i].offset])
    && (forall k :: k in s.sessions ==> SessionOk(s, s.sessions[k], reset))
    && (s.committed.Some? ==> SessionOk(s, Session(s.committed.value.base, s.committed.value.offset, false), reset))
  }

  /** Rows and refusals are never taken back, so what was handled stays handled. */
  lemma HandledStays(s: State, e: Event, reset: Reset, p: nat)
    requires Enabled(s, e) && Handled(s, p)
    ensures Handled(Apply(s, e, reset), p)
  {
    var s' := Apply(s, e, reset);
    assert s.rows <= s'.rows;
    if HasRow(s, p) {
      var i :| 0 <= i < |s.rows| && s.rows[i].offset == p;
      assert s'.rows[i].offset == p;
    }
  }

  lemma SessionStays(s: State, e: Event, reset: Reset, x: Session)
    requires Enabled(s, e) && SessionOk(s, x, reset)
    ensures SessionOk(Apply(s, e, reset), x, reset)
  {
    hide Handled;
    forall p: nat | x.base <= p < x.position + if x.handled then 1 else 0
      ensures Handled(Apply(s, e, reset), p)
    {
      HandledStays(s, e, reset, p);
    }
  }

  /** Inserting or skipping handles the session's record. */
  lemma NowHandled(s: State, e: Event, reset: Reset)
    requires Enabled(s, e) && (e.Insert? || e.Skip?)
    ensures Handled(Apply(s, e, reset), s.sessions[e.k].position)
  {
    var p := s.sessions[e.k].position;
    if e.Insert? && !HasRow(s, p) {
      assert Apply(s, e, reset).rows[|s.rows|].offset == p;
    }
    if e.Insert? && HasRow(s, p) {
      HandledStays(s, e, reset, p);
    }
  }

  lemma StepKeeps(s: State, e: Event, reset: Reset)
    requires Inv(s, reset) && Enabled(s, e)
    ensures Inv(Apply(s, e, reset), reset)
  {
    hide Handled, HasRow;
    var s' := Apply(s, e, reset);
    forall k | k in s.sessions
      ensures SessionOk(s', s.sessions[k], reset)
    {
      SessionStays(s, e, reset, s.sessions[k]);
    }
    if s.committed.Some? {
      SessionStays(s, e, reset, Session(s.committed.value.base, s.committed.value.offset, false));
    }
    if e.Insert? || e.Skip? {
      NowHandled(s, e, reset);
    }
  }

  ghost predicate Stepped(s: State, e: Event, reset: Reset, s': State) { Enabled(s, e) && s' == Apply(s, e, reset) }

  ghost predicate Run(states: seq<State>, events: seq<Event>, reset: Reset) {
    && |states| == |events| + 1 && states[0].rows == [] && states[0].committed.None? && states[0].sessions == map[]
    && states[0].ineligible == {}
    && forall i :: 0 <= i < |events| ==> Stepped(states[i], events[i], reset, states[i + 1])
  }

  lemma {:induction false} RunKeeps(states: seq<State>, events: seq<Event>, reset: Reset, i: nat)
    requires Run(states, events, reset) && i < |states|
    ensures Inv(states[i], reset)
  {
    if i > 0 {
      RunKeeps(states, events, reset, i - 1);
      assert Stepped(states[i - 1], events[i - 1], reset, states[i]);
      StepKeeps(states[i - 1], events[i - 1], reset);
    }
  }

  ghost predicate AllHandled(s: State) {
    s.committed.Some? ==> HandledFrom(s, 0, s.committed.value.offset)
  }

  /** No offset has two rows, each row holds its own record, and everything the committed offset
      has passed is handled if and only if that is so before the group's first position. */
  lemma ExactlyOnce(states: seq<State>, events: seq<Event>, reset: Reset, i: nat)
    requires Run(states, events, reset) && i < |states|
    ensures forall j, k :: 0 <= j < k < |states[i].rows| ==> states[i].rows[j].offset != states[i].rows[k].offset
    ensures forall j :: 0 <= j < |states[i].rows| ==>
              states[i].rows[j].offset < |states[i].log|
              && states[i].rows[j].message == states[i].log[states[i].rows[j].offset]
    ensures var s := states[i];
            s.committed.Some? ==> (AllHandled(s) <==> HandledFrom(s, 0, s.committed.value.base))
    ensures reset == Earliest ==> AllHandled(states[i])
  {
    RunKeeps(states, events, reset, i);
    var s := states[i];
    if s.committed.Some? && HandledFrom(s, 0, s.committed.value.base) {
      forall p: nat | p < s.committed.value.offset
        ensures Handled(s, p)
      {
        assert p >= s.committed.value.base ==> Handled(s, p);
      }
    }
  }

  /** With the default policy a record that arrives before the group's first session is passed
      over: the committed offset lies beyond it and it was never handled. */
  lemma LatestPassesOver(m: Message) returns (states: seq<State>, events: seq<Event>)
    ensures Run(states, events, Latest)
    ensures var s := states[|states| - 1]; s.committed.Some? && s.committed.value.offset > 0 && !Handled(s, 0)
  {
    events := [Produce(m), Open(0), Produce(m), Insert(0), Acknowledge(0)];
    var s0 := State([], [], {}, None, map[]);
    var s1 := Apply(s0, events[0], Latest);
    var s2 := Apply(s1, events[1], Latest);
    var s3 := Apply(s2, events[2], Latest);
    var s4 := Apply(s3, events[3], Latest);
    var s5 := Apply(s4, events[4], Latest);
    states := [s0, s1, s2, s3, s4, s5];
    assert forall i :: 0 <= i < 5 ==> Stepped(states[i], events[i], Latest, states[i + 1]);
    assert s5.rows == [Row(1, m)];
  }

  // ---- the loop itself ----

  /** What the group's consumer meets: the rows, and the group's committed offset. */
  class Inbox {
    var rows: seq<Row>
    var committed: Option<nat>

    constructor ()
      ensures rows == [] && committed == None
    {
      rows, committed := [], None;
    }

    /** session.commit() under the unique index: IntegrityError leaves the table as it was. */
    method TryInsert(row: Row)
      modifies this`rows
      ensures rows == Inserted(old(rows), row)
    {
      if HasOffset(rows, row.offset) {
        return;
      }
      rows := rows + [row];
    }

    /** The loop over the records delivered from `start` on; eligible[i] says whether the i-th has
        an enabled binding and no bot sender when it is looked up. */
    method Consume(log: seq<Message>, start: nat, eligible: seq<bool>)
      requires start + |eligible| <= |log|
      modifies this
      ensures rows == AfterAll(old(rows), log, start, eligible)
      ensures committed == if eligible == [] then old(committed) else Some(start + |eligible|)
    {
      for i := 0 to |eligible|
        invariant rows == AfterAll(old(rows), log, start, eligible[..i])
        invariant committed == if i == 0 then old(committed) else Some(start + i)
      {
        assert eligible[..i + 1][..i] == eligible[..i];
        if !eligible[i] {
          committed := Some(start + i + 1);
          continue;
        }
        TryInsert(Row(start + i, log[start + i]));
        committed := Some(start + i + 1);
      }
      assert eligible[..|eligible|] == eligible;
    }
  }

  function AfterAll(rows: seq<Row>, log: seq<Message>, start: nat, eligible: seq<bool>): seq<Row>
    requires start + |eligible| <= |log|
  {
    if eligible == [] then rows
    else
      var n := |eligible| - 1;
      var before := AfterAll(rows, log, start, eligible[..n]);
      if eligible[n] then Inserted(before, Row(start + n, log[start + n])) else before
  }

  /** Delivering the same records again, found eligible no oftener, adds nothing. */
  lemma AgainAddsNothing(rows: seq<Row>, log: seq<Message>, start: nat, eligible: seq<bool>, again: seq<bool>)
    requires start + |eligible| <= |log| && |again| == |eligible|
    requires forall i :: 0 <= i < |again| && again[i] ==> eligible[i]
    ensures var once := AfterAll(rows, log, start, eligible); AfterAll(once, log, start, again) == once
  {
    AgainUpTo(rows, log, start, eligible, again, |again|);
    assert again[..|again|] == again;
  }

  lemma {:induction false} AgainUpTo(rows: seq<Row>, log: seq<Message>, start: nat, eligible: seq<bool>,
                                     again: seq<bool>, n: nat)
    requires start + |eligible| <= |log| && n <= |again| == |eligible|
    requires forall i :: 0 <= i < |again| && again[i] ==> eligible[i]
    ensures var once := AfterAll(rows, log, start, eligible); AfterAll(once, log, start, again[..n]) == once
  {
    if n > 0 {
      AgainUpTo(rows, log, start, eligible, again, n - 1);
      assert again[..n][..n - 1] == again[..n - 1];
      if again[n - 1] {
        Present(rows, log, start, eligible, n - 1);
      }
    }
  }

  lemma {:induction false} Present(rows: seq<Row>, log: seq<Message>, start: nat, eligible: seq<bool>, i: nat)
    requires start + |eligible| <= |log| && i < |eligible| && eligible[i]
    ensures HasOffset(AfterAll(rows, log, start, eligible), start + i)
  {
    var n := |eligible| - 1;
    var before := AfterAll(rows, log, start, eligible[..n]);
    var after := AfterAll(rows, log, start, eligible);
    if i < n {
      Present(rows, log, start, eligible[..n], i);
      var j :| 0 <= j < |before| && before[j].offset == start + i;
      assert before <= after by { InsertedHas(before, Row(start + n, log[start + n])); }
      assert j < |after| && after[j].offset == start + i;
    } else {
      InsertedHas(before, Row(start + n, log[start + n]));
    }
  }

  lemma InsertedHas(rows: seq<Row>, row: Row)
    ensures rows <= Inserted(rows, row) && HasOffset(Inserted(rows, row), row.offset)
  {
    var after := Inserted(rows, row);
    if after != rows {
      assert after[|rows|] == row;
    }
  }
}
