/** The archiver's loop: records in, batches out, and where a restart goes on. */
module Archiver {
  import opened Sequences
  import opened Options

  const BATCH_SIZE := 1000

  /** A record of the partition, by its place in the log. */
  datatype Record = Readable(body: string) | Garbage

  datatype Message = Message(offset: nat, body: string)

  datatype Batch = Batch(messages: seq<Message>, offset: nat)

  /** One turn of the loop: whether the ticker fired, and whether the read brought a record. */
  datatype Turn = Turn(tick: bool, ready: bool)

  /** The readable records in from..to, in offset order. */
  function Decoded(log: seq<Record>, from: nat, to: nat): seq<Message>
    requires to <= |log|
  {
    if to <= from then []
    else Decoded(log, from, to - 1)
         + match log[to - 1] case Readable(body) => [Message(to - 1, body)] case Garbage => []
  }

  lemma {:induction false} DecodedMembers(log: seq<Record>, from: nat, to: nat, m: Message)
    requires to <= |log|
    ensures m in Decoded(log, from, to) <==> from <= m.offset < to && log[m.offset] == Readable(m.body)
  {
    if from < to {
      DecodedMembers(log, from, to - 1, m);
    }
  }

  /** Decoded splits at any offset between. */
  lemma {:induction false} DecodedSplits(log: seq<Record>, from: nat, mid: nat, to: nat)
    requires from <= mid <= to <= |log|
    ensures Decoded(log, from, to) == Decoded(log, from, mid) + Decoded(log, mid, to)
  {
    if mid < to {
      DecodedSplits(log, from, mid, to - 1);
    }
  }

  predicate BatchOk(b: Batch) {
    1 <= |b.messages| <= BATCH_SIZE && b.offset == b.messages[|b.messages| - 1].offset
  }

  ghost predicate AllOk(batches: seq<Batch>) { forall i :: 0 <= i < |batches| ==> BatchOk(batches[i]) }

  function MessagesOf(batches: seq<Batch>): seq<seq<Message>> {
    seq(|batches|, i requires 0 <= i < |batches| => batches[i].messages)
  }

  /** What the flushed batches hold, one after the other. */
  function Archived(batches: seq<Batch>): seq<Message> { Flatten(MessagesOf(batches)) }

  lemma NothingArchived()
    ensures Archived([]) == [] && AllOk([])
  {
  }

  lemma ArchivedOne(batches: seq<Batch>, b: Batch)
    ensures Archived(batches + [b]) == Archived(batches) + b.messages
  {
    FlattenOne(MessagesOf(batches), b.messages);
    assert MessagesOf(batches + [b]) == MessagesOf(batches) + [b.messages];
  }

  /** The offset the reader stands at after these turns. */
  function Position(log: seq<Record>, from: nat, turns: seq<Turn>): (p: nat)
    requires from <= |log|
    ensures from <= p <= |log|
  {
    if turns == [] then from
    else
      var p := Position(log, from, turns[..|turns| - 1]);
      if turns[|turns| - 1].ready && p < |log| then p + 1 else p
  }

  /** flush: the batch is handed to the pool and the buffer emptied; an empty one is no batch. */
  method Flush(batches: seq<Batch>, msgBatch: seq<Message>, lastOffset: nat)
    returns (out: seq<Batch>, left: seq<Message>)
    requires AllOk(batches)
    requires |msgBatch| <= BATCH_SIZE && (msgBatch != [] ==> lastOffset == msgBatch[|msgBatch| - 1].offset)
    ensures AllOk(out)
    ensures left == [] && Archived(out) == Archived(batches) + msgBatch
  {
    out, left := batches, msgBatch;
    if |left| == 0 {
      return;
    }
    out := out + [Batch(left, lastOffset)];
    ArchivedOne(batches, Batch(left, lastOffset));
    left := [];
  }

  /** Start, until it is told to stop: the batches together are the decoded stream, in order,
      whatever the ticks, read errors and unreadable records. */
  method Start(log: seq<Record>, from: nat, turns: seq<Turn>) returns (batches: seq<Batch>)
    requires from <= |log|
    ensures AllOk(batches)
    ensures Archived(batches) == Decoded(log, from, Position(log, from, turns))
  {
    hide Archived, AllOk;
    batches := [];
    NothingArchived();
    var msgBatch: seq<Message> := [];
    var lastOffset, next := 0, from;
    for i := 0 to |turns|
      invariant next == Position(log, from, turns[..i])
      invariant AllOk(batches)
      invariant |msgBatch| < BATCH_SIZE
      invariant msgBatch != [] ==> lastOffset == msgBatch[|msgBatch| - 1].offset
      invariant Archived(batches) + msgBatch == Decoded(log, from, next)
    {
      assert turns[..i + 1][..i] == turns[..i];
      if turns[i].tick {
        batches, msgBatch := Flush(batches, msgBatch, lastOffset);
      }
      if !turns[i].ready || next == |log| {
        continue;
      }
      var record := log[next];
      next := next + 1;
      if record.Garbage? {
        continue;
      }
      msgBatch := msgBatch + [Message(next - 1, record.body)];
      lastOffset := next - 1;
      if |msgBatch| >= BATCH_SIZE {
        batches, msgBatch := Flush(batches, msgBatch, lastOffset);
      }
    }
    assert turns[..|turns|] == turns;
    batches, msgBatch := Flush(batches, msgBatch, lastOffset);
  }

  // ---- stopping and resuming ----

  /** One life of the worker: where it read from and to, the batches it flushed, the flush jobs that
      stored their batch, and those among them that went on to save their offset, in that order. */
  datatype Life = Life(from: nat, to: nat, batches: seq<Batch>, stored: set<nat>, finished: seq<nat>)

  ghost predicate LifeOk(log: seq<Record>, x: Life) {
    && x.from <= x.to <= |log|
    && AllOk(x.batches)
    && Archived(x.batches) <= Decoded(log, x.from, x.to)
    && (forall i :: i in x.stored ==> i < |x.batches|)
    && (forall k :: 0 <= k < |x.finished| ==> x.finished[k] in x.stored)
  }

  /** The offset in Redis after this life: the one that was saved last. */
  function Saved(before: Option<nat>, x: Life): Option<nat>
    requires forall k :: 0 <= k < |x.finished| ==> x.finished[k] < |x.batches|
  {
    if x.finished == [] then before else Some(x.batches[x.finished[|x.finished| - 1]].offset)
  }

  /** m reached the store, whether or not the job that had it lived to save its offset. */
  ghost predicate Stored(x: Life, m: Message) {
    exists i :: i in x.stored && i < |x.batches| && m in x.batches[i].messages
  }

  /** Nothing readable from the life's start up to `to` was left out of the store. */
  ghost predicate NothingSkipped(log: seq<Record>, x: Life, to: nat)
    requires to <= |log|
  {
    forall m :: m in Decoded(log, x.from, to) ==> Stored(x, m)
  }

  /** Every job submitted up to the one whose offset was saved last has stored its batch. */
  ghost predicate Gapless(x: Life) {
    x.finished != [] ==> forall i: nat :: i <= x.finished[|x.finished| - 1] ==> i in x.stored
  }

  /** Batches stand in offset order: those up to i hold exactly what is readable up to its offset. */
  lemma BatchReach(log: seq<Record>, from: nat, to: nat, batches: seq<Batch>, i: nat)
    requires from <= to <= |log| && i < |batches|
    requires AllOk(batches)
    requires Archived(batches) <= Decoded(log, from, to)
    ensures from <= batches[i].offset < to && Archived(batches[..i + 1]) == Decoded(log, from, batches[i].offset + 1)
  {
    hide Archived, Decoded;
    assert BatchOk(batches[i]);
    ArchivedPrefix(batches, i + 1);
    assert batches[..i + 1] == batches[..i] + [batches[i]];
    ArchivedOne(batches[..i], batches[i]);
    PrefixEndsAt(log, from, to, Archived(batches[..i + 1]));
  }

  lemma {:induction false} ArchivedPrefix(batches: seq<Batch>, i: nat)
    requires i <= |batches|
    ensures Archived(batches[..i]) <= Archived(batches)
    decreases |batches| - i
  {
    if i < |batches| {
      ArchivedPrefix(batches, i + 1);
      assert batches[..i + 1] == batches[..i] + [batches[i]];
      ArchivedOne(batches[..i], batches[i]);
    } else {
      assert batches[..i] == batches;
    }
  }

  /** A nonempty prefix of the decoded stream is what is readable up to its own last message. */
  lemma {:induction false} PrefixEndsAt(log: seq<Record>, from: nat, to: nat, front: seq<Message>)
    requires from <= to <= |log| && front != [] && front <= Decoded(log, from, to)
    ensures var last := front[|front| - 1].offset; from <= last < to && front == Decoded(log, from, last + 1)
  {
    if front != Decoded(log, from, to) || log[to - 1].Garbage? {
      assert front <= Decoded(log, from, to - 1);
      PrefixEndsAt(log, from, to - 1, front);
    }
  }

  function SpanStart(from: nat, batches: seq<Batch>, i: nat): nat
    requires i < |batches|
  {
    if i == 0 then from else batches[i - 1].offset + 1
  }

  lemma Cancel<T>(a: seq<T>, b: seq<T>, c: seq<T>)
    requires a + b == a + c
    ensures b == c
  {
    assert b == (a + b)[|a|..] && c == (a + c)[|a|..];
  }

  /** A batch is what is readable between the one before it and its own offset. */
  lemma BatchSpan(log: seq<Record>, from: nat, to: nat, batches: seq<Batch>, i: nat)
    requires from <= to <= |log| && i < |batches| && AllOk(batches) && Archived(batches) <= Decoded(log, from, to)
    ensures SpanStart(from, batches, i) <= batches[i].offset < to
    ensures batches[i].messages == Decoded(log, SpanStart(from, batches, i), batches[i].offset + 1)
  {
    hide Archived, Decoded;
    assert BatchOk(batches[i]);
    BatchReach(log, from, to, batches, i);
    assert batches[..i + 1] == batches[..i] + [batches[i]];
    ArchivedOne(batches[..i], batches[i]);
    if i == 0 {
      assert batches[..0] == [];
      NothingArchived();
    } else {
      BatchReach(log, from, to, batches, i - 1);
      assert batches[..i - 1 + 1] == batches[..i];
      var was, now := batches[i - 1].offset + 1, batches[i].offset + 1;
      if now <= was {
        DecodedSplits(log, from, now, was);
      } else {
        DecodedSplits(log, from, was, now);
        Cancel(Archived(batches[..i]), batches[i].messages, Decoded(log, was, now));
      }
    }
  }

  lemma {:induction false} OffsetsRise(log: seq<Record>, from: nat, to: nat, batches: seq<Batch>, i: nat, j: nat)
    requires from <= to <= |log| && i < j < |batches| && AllOk(batches) && Archived(batches) <= Decoded(log, from, to)
    ensures batches[i].offset < batches[j].offset
  {
    BatchSpan(log, from, to, batches, j);
    if i < j - 1 {
      OffsetsRise(log, from, to, batches, i, j - 1);
    }
  }

  /** No message is in two batches. */
  lemma OneBatch(log: seq<Record>, from: nat, to: nat, batches: seq<Batch>, i: nat, j: nat, m: Message)
    requires from <= to <= |log| && i < j < |batches| && AllOk(batches) && Archived(batches) <= Decoded(log, from, to)
    requires m in batches[i].messages
    ensures m !in batches[j].messages
  {
    hide Archived, Decoded, AllOk;
    BatchSpan(log, from, to, batches, i);
    BatchSpan(log, from, to, batches, j);
    DecodedMembers(log, SpanStart(from, batches, i), batches[i].offset + 1, m);
    DecodedMembers(log, SpanStart(from, batches, j), batches[j].offset + 1, m);
    if i < j - 1 {
      OffsetsRise(log, from, to, batches, i, j - 1);
    }
  }

  lemma {:induction false} InSomeBatch(batches: seq<Batch>, m: Message) returns (i: nat)
    requires m in Archived(batches)
    ensures i < |batches| && m in batches[i].messages
  {
    if batches == [] {
      NothingArchived();
      assert false;
    } else {
      var n := |batches| - 1;
      assert batches == batches[..n] + [batches[n]];
      ArchivedOne(batches[..n], batches[n]);
      if m in batches[n].messages {
        i := n;
      } else {
        i := InSomeBatch(batches[..n], m);
      }
    }
  }

  /** Up to the saved offset nothing is skipped if and only if every flush job submitted before the
      one that saved it has stored its batch; jobs that succeed in submission order leave no gap. */
  lemma ResumeExact(log: seq<Record>, x: Life)
    requires LifeOk(log, x) && x.finished != []
    ensures x.from <= Saved(None, x).value < |log|
    ensures NothingSkipped(log, x, Saved(None, x).value + 1) <==> Gapless(x)
  {
    hide Archived, Decoded, AllOk, Stored;
    var last := x.finished[|x.finished| - 1];
    BatchReach(log, x.from, x.to, x.batches, last);
    if Gapless(x) {
      forall m | m in Decoded(log, x.from, x.batches[last].offset + 1)
        ensures Stored(x, m)
      {
        var i := InSomeBatch(x.batches[..last + 1], m);
        assert i in x.stored;
        IsStored(x, i, m);
      }
    }
    if NothingSkipped(log, x, Saved(None, x).value + 1) {
      forall i: nat | i <= last
        ensures i in x.stored
      {
        MustFinish(log, x, i);
      }
    }
  }

  lemma IsStored(x: Life, i: nat, m: Message)
    requires i in x.stored && i < |x.batches| && m in x.batches[i].messages
    ensures Stored(x, m)
  {
  }

  lemma MustFinish(log: seq<Record>, x: Life, i: nat)
    requires LifeOk(log, x) && x.finished != [] && i <= x.finished[|x.finished| - 1]
    requires x.from <= Saved(None, x).value < |log| && NothingSkipped(log, x, Saved(None, x).value + 1)
    ensures i in x.stored
  {
    hide Archived, Decoded;
    var last := x.finished[|x.finished| - 1];
    assert BatchOk(x.batches[i]);
    var m := x.batches[i].messages[0];
    BatchSpan(log, x.from, x.to, x.batches, i);
    DecodedMembers(log, SpanStart(x.from, x.batches, i), x.batches[i].offset + 1, m);
    if i < last { OffsetsRise(log, x.from, x.to, x.batches, i, last); }
    if i > 1 { OffsetsRise(log, x.from, x.to, x.batches, 0, i - 1); }
    if i > 0 { BatchSpan(log, x.from, x.to, x.batches, 0); }
    DecodedMembers(log, x.from, x.batches[last].offset + 1, m);
    assert Stored(x, m);
    var j :| j in x.stored && j < |x.batches| && m in x.batches[j].messages;
    if j < i { OneBatch(log, x.from, x.to, x.batches, j, i, m); }
    if i < j { OneBatch(log, x.from, x.to, x.batches, i, j, m); }
  }

  // ---- one life after another ----

  /** Each life starts just past the saved offset, or at the beginning when none can be read. */
  ghost predicate Lives(log: seq<Record>, lives: seq<Life>, saved: seq<Option<nat>>) {
    && |saved| == |lives| + 1 && saved[0] == None
    && forall i :: 0 <= i < |lives| ==> LifeOk(log, lives[i]) && Follows(lives[i], saved[i], saved[i + 1])
  }

  ghost predicate Follows(x: Life, before: Option<nat>, after: Option<nat>)
    requires forall k :: 0 <= k < |x.finished| ==> x.finished[k] < |x.batches|
  {
    (x.from == 0 || (before.Some? && x.from == before.value + 1)) && after == Saved(before, x)
  }

  /** If every life's jobs store without gaps, whatever the saved offset has passed is in the
      store, however often the worker was stopped and wherever it was cut off. */
  lemma {:induction false} NeverSkips(log: seq<Record>, lives: seq<Life>, saved: seq<Option<nat>>, i: nat, m: Message)
    requires Lives(log, lives, saved) && i < |saved| && forall k :: 0 <= k < |lives| ==> Gapless(lives[k])
    requires saved[i].Some? && m.offset <= saved[i].value && m.offset < |log| && log[m.offset] == Readable(m.body)
    ensures exists k :: 0 <= k < i && Stored(lives[k], m)
  {
    hide Gapless, Stored;
    var x := lives[i - 1];
    assert Follows(x, saved[i - 1], saved[i]);
    if x.finished == [] || m.offset < x.from {
      NeverSkips(log, lives, saved, i - 1, m);
    } else {
      ResumeExact(log, x);
      DecodedMembers(log, x.from, Saved(None, x).value + 1, m);
      assert Stored(lives[i - 1], m);
    }
  }
}
