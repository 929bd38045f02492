/** Verdicts are unique and final over every interleaving of workers. */
module AgentVerdicts {
  import opened AgentPipeline
  import opened Options

  /** What never goes back: rows stay, records are only added, and a settled row changes only
      from approved to chunked. */
  ghost predicate Grows(db: Db, db': Db) {
    && (forall id :: id in db.rows ==> id in db'.rows && RowGrows(db.rows[id], db'.rows[id]))
    && db.records <= db'.records && db.removals <= db'.removals
  }

  predicate RowGrows(row: Row, row': Row) {
    && row'.room == row.room && row'.sender == row.sender
    && (Settled(row.status) ==> row'.status == row.status || (row.status == Judged(Approved) && row'.status == Chunked))
  }

  lemma GrowsOn(a: Db, b: Db, c: Db)
    requires Grows(a, b) && Grows(b, c)
    ensures Grows(a, c)
  {
  }

  lemma WorkerKept(db: Db, db': Db, x: Worker)
    requires Grows(db, db') && WorkerOk(db, x)
    ensures WorkerOk(db', x)
  {
  }

  // ---- what each transaction does to the rows ----

  /** Changing the status of unsettled rows to unsettled ones touches no record. */
  lemma UnsettledChange(db: Db, db': Db)
    requires DbOk(db) && db'.rows.Keys == db.rows.Keys && db'.records == db.records && db'.removals == db.removals
    requires forall id :: id in db.rows ==>
               db'.rows[id].room == db.rows[id].room && db'.rows[id].sender == db.rows[id].sender
               && (db'.rows[id].status == db.rows[id].status
                   || (!Settled(db.rows[id].status) && !Settled(db'.rows[id].status)))
    ensures DbOk(db') && Grows(db, db')
  {
    forall id | id in db'.rows && Settled(db'.rows[id].status)
      ensures HasRecord(db', id)
    {
      assert HasRecord(db, id);
    }
  }

  lemma {:induction false} ClaimedRows(db: Db, picked: seq<nat>, bots: set<int>)
    requires forall id :: id in picked ==> id in db.rows
    ensures var db' := Claim(db, picked, bots);
            db'.records == db.records && db'.removals == db.removals
            && forall id :: id in db.rows ==>
                 db'.rows[id] == if id !in picked then db.rows[id]
                                 else db.rows[id].(status := if db.rows[id].sender in bots then Ignored else Processing)
  {
    if picked != [] {
      ClaimedRows(db, picked[..|picked| - 1], bots);
    }
  }

  lemma {:induction false} ChunkedRows(db: Db, ids: seq<nat>)
    requires forall id :: id in ids ==> id in db.rows
    ensures var db' := SetAll(db, ids, Chunked);
            db'.records == db.records && db'.removals == db.removals
            && forall id :: id in db.rows ==>
                 db'.rows[id] == if id in ids then db.rows[id].(status := Chunked) else db.rows[id]
  {
    if ids != [] {
      ChunkedRows(db, ids[..|ids| - 1]);
    }
  }

  lemma ChunkingKeeps(db: Db, ids: seq<nat>)
    requires DbOk(db) && WorkerOk(db, Chunking(ids))
    ensures DbOk(SetAll(db, ids, Chunked)) && Grows(db, SetAll(db, ids, Chunked))
  {
    ChunkedRows(db, ids);
    var db' := SetAll(db, ids, Chunked);
    forall id | id in db'.rows && Settled(db'.rows[id].status)
      ensures HasRecord(db', id)
    {
      assert HasRecord(db, id);
    }
    forall k | 0 <= k < |db'.records|
      ensures Fits(db'.rows[db'.records[k].inbox].status, db'.records[k].verdict)
    {
      assert Fits(db.rows[db.records[k].inbox].status, db.records[k].verdict);
    }
  }

  lemma StillRecorded(db: Db, db': Db, id: nat)
    requires HasRecord(db, id) && db.records <= db'.records
    ensures HasRecord(db', id)
  {
    var k :| 0 <= k < |db.records| && db.records[k].inbox == id;
    assert db'.records[k].inbox == id;
  }

  /** One judgement: the row had no verdict, gets this one, and with it at most one removal. */
  lemma JudgeOneKeeps(db: Db, id: nat, d: Decision)
    requires DbOk(db) && id in db.rows && JudgeOne(db, id, d).Some?
    ensures var db' := JudgeOne(db, id, d).value;
            DbOk(db') && Grows(db, db') && db'.rows.Keys == db.rows.Keys
            && db'.rows[id].status == Judged(d.verdict)
            && db'.records == db.records + [Record(id, d.verdict)]
            && (db'.removals != db.removals <==> d.verdict == Rejected && d.requestRemoval)
  {
    hide HasRecord;
    var db' := JudgeOne(db, id, d).value;
    assert !Settled(db.rows[id].status);
    forall k | 0 <= k < |db.records|
      ensures db.records[k].inbox != id
    {
      Recorded(db, k);
    }
    Recorded(db', |db.records|);
    forall j | j in db'.rows && Settled(db'.rows[j].status)
      ensures HasRecord(db', j)
    {
      if j != id {
        StillRecorded(db, db', j);
      }
    }
  }

  lemma Recorded(db: Db, k: nat)
    requires k < |db.records|
    ensures HasRecord(db, db.records[k].inbox)
  {
  }

  lemma {:induction false} JudgeKeeps(db: Db, batch: seq<nat>, decisions: map<nat, Decision>)
    requires DbOk(db) && (forall id :: id in batch ==> id in db.rows) && Judge(db, batch, decisions).Some?
    ensures var db' := Judge(db, batch, decisions).value;
            DbOk(db') && Grows(db, db') && WorkerOk(db', Chunking(ApprovedOf(batch, decisions)))
  {
    hide DbOk, Grows;
    if batch != [] {
      var n := |batch| - 1;
      JudgeKeeps(db, batch[..n], decisions);
      var mid := Judge(db, batch[..n], decisions).value;
      var last := Judge(db, batch, decisions).value;
      JudgeOneKeeps(mid, batch[n], DecisionFor(decisions, batch[n]));
      GrowsOn(db, mid, last);
      WorkerKept(mid, last, Chunking(ApprovedOf(batch[..n], decisions)));
    } else {
      GrowsSelf(db);
    }
  }

  lemma GrowsSelf(db: Db)
    ensures Grows(db, db)
  {
  }

  // ---- every step, every run ----

  lemma StepDb(s: State, e: Event)
    requires Inv(s) && Enabled(s, e)
    ensures DbOk(Apply(s, e).db) && Grows(s.db, Apply(s, e).db)
  {
    hide DbOk, Grows;
    var s' := Apply(s, e);
    GrowsSelf(s.db);
    match e
    case Arrive(id, room, sender) => ArriveKeeps(s.db, id, room, sender);
    case RequeueStale(stale) => UnsettledChange(s.db, s'.db);
    case ClaimRoom(_, _, picked, bots) =>
      ClaimedRows(s.db, picked, bots);
      UnsettledChange(s.db, s'.db);
    case SaveModeration(w, decisions) =>
      assert WorkerOk(s.db, WorkerAt(s, w));
      if Judge(s.db, WorkerAt(s, w).batch, decisions).Some? {
        JudgeKeeps(s.db, WorkerAt(s, w).batch, decisions);
      }
    case RetryApproved(_, _, _) =>
    case MarkChunked(w) =>
      assert WorkerOk(s.db, WorkerAt(s, w));
      ChunkingKeeps(s.db, WorkerAt(s, w).batch);
    case GiveUp(_) =>
  }

  lemma ArriveKeeps(db: Db, id: nat, room: int, sender: int)
    requires DbOk(db) && id !in db.rows
    ensures var db' := db.(rows := db.rows[id := Row(room, sender, Pending)]); DbOk(db') && Grows(db, db')
  {
    var db' := db.(rows := db.rows[id := Row(room, sender, Pending)]);
    forall j | j in db'.rows && Settled(db'.rows[j].status)
      ensures HasRecord(db', j)
    {
      assert HasRecord(db, j);
    }
  }

  lemma StepKeeps(s: State, e: Event)
    requires Inv(s) && Enabled(s, e)
    ensures Inv(Apply(s, e)) && Grows(s.db, Apply(s, e).db)
  {
    hide DbOk, Grows;
    var s' := Apply(s, e);
    StepDb(s, e);
    forall w
      ensures WorkerOk(s'.db, WorkerAt(s', w))
    {
      assert WorkerOk(s.db, WorkerAt(s, w));
      WorkerKept(s.db, s'.db, WorkerAt(s, w));
      if e.SaveModeration? && e.w == w {
        var batch := WorkerAt(s, w).batch;
        if Judge(s.db, batch, e.decisions).Some? {
          JudgeKeeps(s.db, batch, e.decisions);
        }
      }
      if e.ClaimRoom? && e.w == w {
        ClaimedRows(s.db, e.picked, e.bots);
      }
    }
  }

  ghost predicate Stepped(s: State, e: Event, s': State) { Enabled(s, e) && s' == Apply(s, e) }

  ghost predicate Run(states: seq<State>, events: seq<Event>) {
    && |states| == |events| + 1 && states[0] == State(Db(map[], [], []), map[])
    && forall i :: 0 <= i < |events| ==> Stepped(states[i], events[i], states[i + 1])
  }

  lemma {:induction false} RunKeeps(states: seq<State>, events: seq<Event>, i: nat)
    requires Run(states, events) && i < |states|
    ensures Inv(states[i])
  {
    if i > 0 {
      RunKeeps(states, events, i - 1);
      assert Stepped(states[i - 1], events[i - 1], states[i]);
      StepKeeps(states[i - 1], events[i - 1]);
    }
  }

  /** At most one record per row; a record exactly when the status is settled, and then the
      status is the record's verdict, or chunked over an approved one. */
  lemma OneVerdict(states: seq<State>, events: seq<Event>, i: nat, id: nat)
    requires Run(states, events) && i < |states| && id in states[i].db.rows
    ensures var db := states[i].db;
            && (HasRecord(db, id) <==> Settled(db.rows[id].status))
            && (forall j, k :: 0 <= j < k < |db.records| && db.records[j].inbox == id ==> db.records[k].inbox != id)
            && (forall k :: 0 <= k < |db.records| && db.records[k].inbox == id ==>
                  Fits(db.rows[id].status, db.records[k].verdict))
  {
    RunKeeps(states, events, i);
  }

  /** At most one removal request per row, only for a rejected one, against its sender. */
  lemma OneRemoval(states: seq<State>, events: seq<Event>, i: nat, j: nat, k: nat)
    requires Run(states, events) && i < |states| && j < |states[i].db.removals| && k < |states[i].db.removals|
    ensures var db := states[i].db;
            var r := db.removals[j].record;
            && r < |db.records| && db.records[r].inbox in db.rows
            && db.rows[db.records[r].inbox].status == Judged(Rejected)
            && db.rows[db.records[r].inbox].sender == db.removals[j].user
            && (db.removals[k].record < |db.records| ==>
                  db.records[db.removals[k].record].inbox == db.records[r].inbox ==> j == k)
  {
    RunKeeps(states, events, i);
    var db := states[i].db;
    assert Fits(db.rows[db.records[db.removals[j].record].inbox].status, Rejected);
  }

  lemma {:induction false} RunGrows(states: seq<State>, events: seq<Event>, i: nat, j: nat)
    requires Run(states, events) && i <= j < |states|
    ensures Grows(states[i].db, states[j].db)
  {
    hide Grows;
    if i == j {
      GrowsSelf(states[i].db);
    } else {
      RunGrows(states, events, i, j - 1);
      RunKeeps(states, events, j - 1);
      assert Stepped(states[j - 1], events[j - 1], states[j]);
      StepKeeps(states[j - 1], events[j - 1]);
      GrowsOn(states[i].db, states[j - 1].db, states[j].db);
    }
  }

  /** A verdict once given stays: the record is kept, and the row keeps it or goes on from
      approved to chunked. */
  lemma VerdictFinal(states: seq<State>, events: seq<Event>, i: nat, j: nat, k: nat)
    requires Run(states, events) && i <= j < |states| && k < |states[i].db.records|
    ensures k < |states[j].db.records| && states[j].db.records[k] == states[i].db.records[k]
    ensures var r := states[i].db.records[k];
            r.inbox in states[j].db.rows && Fits(states[j].db.rows[r.inbox].status, r.verdict)
  {
    RunGrows(states, events, i, j);
    RunKeeps(states, events, j);
  }
}
