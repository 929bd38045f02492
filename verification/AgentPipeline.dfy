/** The agent's inbox: any number of pipeline workers move rows from pending to a verdict and
    on to chunked, each database transaction one atomic step. */
module AgentPipeline {
  import opened Options

  datatype Verdict = Approved | Rejected | NeedsReview

  datatype Status = Pending | Ignored | Processing | Judged(v: Verdict) | Chunked

  datatype Row = Row(room: int, sender: int, status: Status)

  /** A moderation record; its id is its place in the table. */
  datatype Record = Record(inbox: nat, verdict: Verdict)

  datatype Removal = Removal(record: nat, user: int)

  datatype Db = Db(rows: map<nat, Row>, records: seq<Record>, removals: seq<Removal>)

  datatype Decision = Decision(verdict: Verdict, requestRemoval: bool)

  // ---- the transactions ----

  predicate HasRecord(db: Db, id: nat) { exists k :: 0 <= k < |db.records| && db.records[k].inbox == id }

  function DecisionFor(decisions: map<nat, Decision>, id: nat): Decision {
    if id in decisions then decisions[id] else Decision(NeedsReview, false)
  }

  function SetStatus(db: Db, id: nat, status: Status): Db
    requires id in db.rows
  {
    db.(rows := db.rows[id := db.rows[id].(status := status)])
  }

  function SetAll(db: Db, ids: seq<nat>, status: Status): (db': Db)
    requires forall id :: id in ids ==> id in db.rows
    ensures db'.rows.Keys == db.rows.Keys
  {
    if ids == [] then db
    else
      var n := |ids| - 1;
      SetStatus(SetAll(db, ids[..n], status), ids[n], status)
  }

  /** One turn of the moderation loop; the unique index refuses a second record for a row. */
  function JudgeOne(db: Db, id: nat, d: Decision): Option<Db>
    requires id in db.rows
  {
    if HasRecord(db, id) then None
    else
      var judged := SetStatus(db.(records := db.records + [Record(id, d.verdict)]), id, Judged(d.verdict));
      Some(if d.verdict == Rejected && d.requestRemoval
           then judged.(removals := judged.removals + [Removal(|db.records|, db.rows[id].sender)])
           else judged)
  }

  /** The whole transaction: every message gets its record, or nothing changes. */
  function Judge(db: Db, batch: seq<nat>, decisions: map<nat, Decision>): (r: Option<Db>)
    requires forall id :: id in batch ==> id in db.rows
    ensures r.Some? ==> r.value.rows.Keys == db.rows.Keys
  {
    if batch == [] then Some(db)
    else
      var n := |batch| - 1;
      var before := Judge(db, batch[..n], decisions);
      if before.None? then None else JudgeOne(before.value, batch[n], DecisionFor(decisions, batch[n]))
  }

  /** Those of the batch the decisions approve, in order. */
  function ApprovedOf(batch: seq<nat>, decisions: map<nat, Decision>): (out: seq<nat>)
    ensures forall id :: id in out <==> id in batch && DecisionFor(decisions, id).verdict == Approved
  {
    if batch == [] then []
    else
      var n := |batch| - 1;
      ApprovedOf(batch[..n], decisions)
      + if DecisionFor(decisions, batch[n]).verdict == Approved then [batch[n]] else []
  }

  /** Claiming: a bot's own message is ignored, the others are taken up. */
  function Claim(db: Db, picked: seq<nat>, bots: set<int>): (db': Db)
    requires forall id :: id in picked ==> id in db.rows
    ensures db'.rows.Keys == db.rows.Keys
  {
    if picked == [] then db
    else
      var n := |picked| - 1;
      SetStatus(Claim(db, picked[..n], bots), picked[n],
                if db.rows[picked[n]].sender in bots then Ignored else Processing)
  }

  function UsersOf(db: Db, picked: seq<nat>, bots: set<int>): (out: seq<nat>)
    requires forall id :: id in picked ==> id in db.rows
    ensures forall id :: id in out <==> id in picked && db.rows[id].sender !in bots
  {
    if picked == [] then []
    else
      var n := |picked| - 1;
      UsersOf(db, picked[..n], bots) + if db.rows[picked[n]].sender in bots then [] else [picked[n]]
  }

  // ---- workers ----

  datatype Worker =
    | Idle
    | Moderating(batch: seq<nat>)   // claimed; the agent is judging
    | Chunking(batch: seq<nat>)     // approved; to be marked chunked

  datatype State = State(db: Db, workers: map<nat, Worker>)

  datatype Event =
    | Arrive(id: nat, room: int, sender: int)                       // the consumer inserts a row
    | RequeueStale(stale: set<nat>)                                 // any worker, any leases deemed stale
    | ClaimRoom(w: nat, room: int, picked: seq<nat>, bots: set<int>)
    | SaveModeration(w: nat, decisions: map<nat, Decision>)
    | RetryApproved(w: nat, room: int, picked: seq<nat>)
    | MarkChunked(w: nat)
    | GiveUp(w: nat)                                                // a crash, or an error that ends the round

  function WorkerAt(s: State, w: nat): Worker { if w in s.workers then s.workers[w] else Idle }

  predicate InRoom(db: Db, ids: seq<nat>, room: int, status: Status) {
    forall id :: id in ids ==> id in db.rows && db.rows[id].room == room && db.rows[id].status == status
  }

  predicate Enabled(s: State, e: Event) {
    match e
    case Arrive(id, _, _) => id !in s.db.rows
    case RequeueStale(stale) => forall id :: id in stale ==> id in s.db.rows && s.db.rows[id].status == Processing
    case ClaimRoom(w, room, picked, _) => WorkerAt(s, w).Idle? && InRoom(s.db, picked, room, Pending)
    case SaveModeration(w, _) =>
      WorkerAt(s, w).Moderating? && forall id :: id in WorkerAt(s, w).batch ==> id in s.db.rows
    case RetryApproved(w, room, picked) => WorkerAt(s, w).Idle? && InRoom(s.db, picked, room, Judged(Approved))
    case MarkChunked(w) => WorkerAt(s, w).Chunking? && forall id :: id in WorkerAt(s, w).batch ==> id in s.db.rows
    case GiveUp(_) => true
  }

  function Requeue(db: Db, stale: set<nat>): Db {
    db.(rows := map id | id in db.rows :: if id in stale then db.rows[id].(status := Pending) else db.rows[id])
  }

  function Apply(s: State, e: Event): State
    requires Enabled(s, e)
  {
    match e
    case Arrive(id, room, sender) => s.(db := s.db.(rows := s.db.rows[id := Row(room, sender, Pending)]))
    case RequeueStale(stale) => s.(db := Requeue(s.db, stale))
    case ClaimRoom(w, _, picked, bots) =>
      State(Claim(s.db, picked, bots), s.workers[w := Moderating(UsersOf(s.db, picked, bots))])
    case SaveModeration(w, decisions) =>
      var batch := WorkerAt(s, w).batch;
      var judged := Judge(s.db, batch, decisions);
      if judged.None? then s.(workers := s.workers[w := Idle])
      else State(judged.value, s.workers[w := Chunking(ApprovedOf(batch, decisions))])
    case RetryApproved(w, _, picked) => s.(workers := s.workers[w := Chunking(picked)])
    case MarkChunked(w) => State(SetAll(s.db, WorkerAt(s, w).batch, Chunked), s.workers[w := Idle])
    case GiveUp(w) => s.(workers := s.workers[w := Idle])
  }

  // ---- what holds in every reachable state ----

  predicate Settled(status: Status) { status.Judged? || status.Chunked? }

  /** The status a row may have once its verdict is v. */
  predicate Fits(status: Status, v: Verdict) { status == Judged(v) || (status.Chunked? && v == Approved) }

  ghost predicate RecordsUnique(db: Db) {
    forall i, j :: 0 <= i < j < |db.records| ==> db.records[i].inbox != db.records[j].inbox
  }

  ghost predicate RecordsFit(db: Db) {
    forall k :: 0 <= k < |db.records| ==>
      db.records[k].inbox in db.rows && Fits(db.rows[db.records[k].inbox].status, db.records[k].verdict)
  }

  ghost predicate RecordsComplete(db: Db) {
    forall id :: id in db.rows && Settled(db.rows[id].status) ==> HasRecord(db, id)
  }

  ghost predicate RemovalsOk(db: Db) {
    && (forall k :: 0 <= k < |db.removals| ==>
          var r := db.removals[k];
          r.record < |db.records| && db.records[r.record].verdict == Rejected
          && db.records[r.record].inbox in db.rows && r.user == db.rows[db.records[r.record].inbox].sender)
    && (forall i, j :: 0 <= i < j < |db.removals| ==> db.removals[i].record != db.removals[j].record)
  }

  ghost predicate DbOk(db: Db) { RecordsUnique(db) && RecordsFit(db) && RecordsComplete(db) && RemovalsOk(db) }

  ghost predicate WorkerOk(db: Db, x: Worker) {
    match x
    case Idle => true
    case Moderating(batch) => forall id :: id in batch ==> id in db.rows
    case Chunking(batch) => forall id :: id in batch ==> id in db.rows && Fits(db.rows[id].status, Approved)
  }

  ghost predicate Inv(s: State) { DbOk(s.db) && forall w :: WorkerOk(s.db, WorkerAt(s, w)) }
}
