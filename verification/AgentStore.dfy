/** The pipeline's transactions as the workers run them, row by row, on the inbox tables. */
module AgentStore {
  import opened AgentPipeline
  import opened Options

  class Store {
    var rows: map<nat, Row>
    var records: seq<Record>
    var removals: seq<Removal>

    function Value(): Db
      reads this
    {
      Db(rows, records, removals)
    }

    constructor ()
      ensures Value() == Db(map[], [], [])
    {
      rows, records, removals := map[], [], [];
    }

    /** The first transaction of _process_room, on the rows its query locked. */
    method ClaimRoom(messages: seq<nat>, bots: set<int>) returns (userMessages: seq<nat>)
      requires forall id :: id in messages ==> id in rows
      modifies this
      ensures Value() == Claim(old(Value()), messages, bots)
      ensures userMessages == UsersOf(old(Value()), messages, bots)
    {
      ghost var before := Value();
      userMessages := [];
      for i := 0 to |messages|
        invariant Value() == Claim(before, messages[..i], bots)
        invariant userMessages == UsersOf(before, messages[..i], bots)
      {
        var id := messages[i];
        assert messages[..i + 1][..i] == messages[..i];
        SameSender(before, messages[..i], bots, id);
        if rows[id].sender in bots {
          rows := rows[id := rows[id].(status := Ignored)];
        } else {
          rows := rows[id := rows[id].(status := Processing)];
          userMessages := userMessages + [id];
        }
      }
      assert messages[..|messages|] == messages;
    }

    /** One turn of the loop, up to the flush that the unique index may refuse. */
    method JudgeRow(id: nat, item: Decision) returns (ok: bool)
      requires id in rows
      modifies this
      ensures var judged := JudgeOne(old(Value()), id, item);
              ok == judged.Some? && Value() == if ok then judged.value else old(Value())
    {
      if HasRecord(Value(), id) {
        return false;
      }
      records := records + [Record(id, item.verdict)];
      rows := rows[id := rows[id].(status := Judged(item.verdict))];
      if item.verdict == Rejected && item.requestRemoval {
        removals := removals + [Removal(|records| - 1, rows[id].sender)];
      }
      ok := true;
    }

    /** _save_moderation: a second record for any row undoes the whole transaction. */
    method SaveModeration(messages: seq<nat>, decisions: map<nat, Decision>) returns (approved: Option<seq<nat>>)
      requires forall id :: id in messages ==> id in rows
      modifies this
      ensures var judged := Judge(old(Value()), messages, decisions);
              && Value() == (if judged.None? then old(Value()) else judged.value)
              && approved == if judged.None? then None else Some(ApprovedOf(messages, decisions))
    {
      hide JudgeOne, ApprovedOf;
      ghost var before := Value();
      var saved := (rows, records, removals);
      var approvedIds: set<nat> := {};
      for i := 0 to |messages|
        invariant Judge(before, messages[..i], decisions) == Some(Value())
        invariant approvedIds == set id | id in messages[..i] && DecisionFor(decisions, id).verdict == Approved
      {
        assert messages[..i + 1][..i] == messages[..i];
        var item := DecisionFor(decisions, messages[i]);
        var ok := JudgeRow(messages[i], item);
        if !ok {
          JudgeStops(before, messages, decisions, i + 1);
          rows, records, removals := saved.0, saved.1, saved.2;
          return None;
        }
        if item.verdict == Approved {
          approvedIds := approvedIds + {messages[i]};
        }
      }
      assert messages[..|messages|] == messages;
      var out := Keep(messages, approvedIds, decisions);
      approved := Some(out);
    }

    /** [item for item in messages if item.id in approved_ids] */
    static method Keep(messages: seq<nat>, approvedIds: set<nat>, ghost decisions: map<nat, Decision>)
      returns (out: seq<nat>)
      requires approvedIds == set id | id in messages && DecisionFor(decisions, id).verdict == Approved
      ensures out == ApprovedOf(messages, decisions)
    {
      out := [];
      for i := 0 to |messages|
        invariant out == ApprovedOf(messages[..i], decisions)
      {
        assert messages[..i + 1][..i] == messages[..i];
        if messages[i] in approvedIds {
          out := out + [messages[i]];
        }
      }
      assert messages[..|messages|] == messages;
    }

    method MarkChunked(messages: seq<nat>)
      requires forall id :: id in messages ==> id in rows
      modifies this
      ensures Value() == SetAll(old(Value()), messages, Chunked)
    {
      ghost var before := Value();
      for i := 0 to |messages|
        invariant Value() == SetAll(before, messages[..i], Chunked)
      {
        assert messages[..i + 1][..i] == messages[..i];
        rows := rows[messages[i] := rows[messages[i]].(status := Chunked)];
      }
      assert messages[..|messages|] == messages;
    }
  }

  lemma {:induction false} SameSender(db: Db, picked: seq<nat>, bots: set<int>, id: nat)
    requires id in db.rows && forall j :: j in picked ==> j in db.rows
    ensures Claim(db, picked, bots).rows[id].sender == db.rows[id].sender
    ensures Claim(db, picked, bots).records == db.records && Claim(db, picked, bots).removals == db.removals
  {
    if picked != [] {
      SameSender(db, picked[..|picked| - 1], bots, id);
    }
  }

  /** Once one insertion is refused the transaction has failed, whatever is left. */
  lemma {:induction false} JudgeStops(db: Db, batch: seq<nat>, decisions: map<nat, Decision>, i: nat)
    requires i <= |batch| && (forall id :: id in batch ==> id in db.rows) && Judge(db, batch[..i], decisions).None?
    ensures Judge(db, batch, decisions).None?
  {
    var n := |batch| - 1;
    if i == |batch| {
      assert batch[..i] == batch;
    } else {
      assert batch[..n][..i] == batch[..i];
      JudgeStops(db, batch[..n], decisions, i);
    }
  }
}
