/** Message history, page by page: the store's cursor query and a client's walk through it. */
module History {
  datatype Message = Message(id: int, room: int, createdAt: int, deleted: bool, content: string)

  // ---- the order of history ----

  /** (created_at, id) order. */
  predicate Before(a: Message, b: Message) { a.createdAt < b.createdAt || (a.createdAt == b.createdAt && a.id < b.id) }

  ghost predicate Ascending(s: seq<Message>) { forall i, j :: 0 <= i < j < |s| ==> Before(s[i], s[j]) }

  /** Ids are the primary key. */
  ghost predicate UniqueIds(db: seq<Message>) { forall i, j :: 0 <= i < j < |db| ==> db[i].id != db[j].id }

  function Insert(s: seq<Message>, m: Message): seq<Message> {
    if s == [] || Before(s[|s| - 1], m) then s + [m]
    else Insert(s[..|s| - 1], m) + [s[|s| - 1]]
  }

  /** The rows a query with this condition selects, in (created_at, id) order. */
  function Select(db: seq<Message>, want: Message -> bool): seq<Message> {
    if db == [] then []
    else
      var rest := Select(db[..|db| - 1], want);
      if want(db[|db| - 1]) then Insert(rest, db[|db| - 1]) else rest
  }

  lemma {:induction false} InsertSorted(s: seq<Message>, m: Message)
    requires Ascending(s) && forall i :: 0 <= i < |s| ==> s[i].id != m.id
    ensures Ascending(Insert(s, m)) && forall x :: x in Insert(s, m) <==> x in s || x == m
  {
    if s != [] && !Before(s[|s| - 1], m) {
      var front, last := s[..|s| - 1], s[|s| - 1];
      InsertSorted(front, m);
      assert s == front + [last];
      var out := Insert(front, m);
      forall i | 0 <= i < |out|
        ensures Before(out[i], last)
      {
        assert out[i] in out;
        if out[i] in front {
          var k :| 0 <= k < |front| && front[k] == out[i];
          assert Before(s[k], s[|s| - 1]);
        }
      }
    }
  }

  lemma {:induction false} SelectSorted(db: seq<Message>, want: Message -> bool)
    requires UniqueIds(db)
    ensures Ascending(Select(db, want)) && forall x :: x in Select(db, want) <==> x in db && want(x)
  {
    if db != [] {
      var front, last := db[..|db| - 1], db[|db| - 1];
      assert db == front + [last];
      SelectSorted(front, want);
      var rest := Select(front, want);
      forall i | 0 <= i < |rest|
        ensures rest[i].id != last.id
      {
        assert rest[i] in rest;
        var k :| 0 <= k < |front| && front[k] == rest[i];
        assert db[k].id != db[|front|].id;
      }
      if want(last) { InsertSorted(rest, last); }
    }
  }

  /** A sorted list is determined by its members. */
  lemma {:induction false} SortedUnique(a: seq<Message>, b: seq<Message>)
    requires Ascending(a) && Ascending(b) && forall x :: x in a <==> x in b
    ensures a == b
  {
    HasMember(a);
    HasMember(b);
    if a != [] && b != [] {
      var x, y := a[|a| - 1], b[|b| - 1];
      assert x in b && y in a;
      var i :| 0 <= i < |b| && b[i] == x;
      var j :| 0 <= j < |a| && a[j] == y;
      assert x == y;
      var a', b' := a[..|a| - 1], b[..|b| - 1];
      forall m
        ensures m in a' <==> m in b'
      {
        InFront(a, m);
        InFront(b, m);
      }
      SortedUnique(a', b');
      assert a == a' + [x] && b == b' + [y];
    }
  }

  lemma HasMember(s: seq<Message>)
    ensures s == [] || s[0] in s
  {
  }

  lemma InFront(s: seq<Message>, m: Message)
    requires Ascending(s) && s != []
    ensures m in s[..|s| - 1] <==> m in s && m != s[|s| - 1]
  {
    if m in s[..|s| - 1] {
      var k :| 0 <= k < |s| - 1 && s[k] == m;
      assert Before(s[k], s[|s| - 1]);
    }
    if m in s && m != s[|s| - 1] {
      var k :| 0 <= k < |s| && s[k] == m;
      assert s[..|s| - 1][k] == m;
    }
  }

  // ---- the query ----

  function Live(room: int): Message -> bool { (m: Message) => m.room == room && !m.deleted }

  /** First(&cursor): the live row with this id, of whatever room. */
  predicate IsCursor(db: seq<Message>, id: int, m: Message) { m in db && m.id == id && !m.deleted }

  function Cursor(db: seq<Message>, id: int): (m: seq<Message>)
    ensures |m| <= 1 && (m != [] ==> IsCursor(db, id, m[0]))
  {
    if db == [] then []
    else if db[|db| - 1].id == id && !db[|db| - 1].deleted then [db[|db| - 1]]
    else
      assert db == db[..|db| - 1] + [db[|db| - 1]];
      Cursor(db[..|db| - 1], id)
  }

  lemma {:induction false} CursorFinds(db: seq<Message>, m: Message)
    requires UniqueIds(db) && IsCursor(db, m.id, m)
    ensures Cursor(db, m.id) == [m]
  {
    var front, last := db[..|db| - 1], db[|db| - 1];
    var k :| 0 <= k < |db| && db[k] == m;
    assert k < |front| ==> front[k] == m;
    if last.id == m.id {
      assert k == |front|;
    } else {
      CursorFinds(front, m);
    }
  }

  /** The rows a page may come from. */
  function PageTest(db: seq<Message>, room: int, cursor: int): Message -> bool {
    if cursor <= 0 then Live(room)
    else
      var at := Cursor(db, cursor);
      if at == [] then (m: Message) => m.room == room && !m.deleted && m.id < cursor
      else (m: Message) => m.room == room && !m.deleted
             && (m.createdAt < at[0].createdAt || (m.createdAt == at[0].createdAt && m.id < cursor))
  }

  /** The newest `limit` of a sorted list. */
  function Newest(s: seq<Message>, limit: nat): seq<Message> { if |s| <= limit then s else s[|s| - limit..] }

  function Reversed(s: seq<Message>): (r: seq<Message>)
    ensures |r| == |s|
  {
    seq(|s|, i requires 0 <= i < |s| => s[|s| - 1 - i])
  }

  /** ORDER BY created_at DESC, id DESC LIMIT limit, into a fresh slice. */
  method Find(db: seq<Message>, want: Message -> bool, limit: nat) returns (rows: array<Message>)
    ensures fresh(rows) && rows[..] == Reversed(Newest(Select(db, want), limit))
  {
    var found := Reversed(Newest(Select(db, want), limit));
    rows := new Message[|found|] (i requires 0 <= i < |found| => found[i]);
    assert rows[..] == found;
  }

  /** The two-index loop. */
  method ReverseInPlace(a: array<Message>)
    modifies a
    ensures a[..] == Reversed(old(a[..]))
  {
    ghost var was := a[..];
    var i, j := 0, a.Length - 1;
    while i < j
      invariant 0 <= i <= a.Length && i + j == a.Length - 1 && i <= j + 1
      invariant forall k :: 0 <= k < i || j < k < a.Length ==> a[k] == was[a.Length - 1 - k]
      invariant forall k :: i <= k <= j ==> a[k] == was[k]
    {
      a[i], a[j] := a[j], a[i];
      i, j := i + 1, j - 1;
    }
  }

  lemma ReversedTwice(s: seq<Message>)
    ensures Reversed(Reversed(s)) == s
  {
  }

  /** GetHistoryByCursor: the newest `limit` live messages of the room below the cursor, oldest first. */
  method GetHistoryByCursor(db: seq<Message>, room: int, cursor: int, limit: nat) returns (messages: seq<Message>)
    requires UniqueIds(db)
    ensures messages == Page(db, room, cursor, limit)
  {
    var rows := Find(db, PageTest(db, room, cursor), limit);
    ReverseInPlace(rows);
    ReversedTwice(Newest(Select(db, PageTest(db, room, cursor)), limit));
    messages := rows[..];
  }

  function Page(db: seq<Message>, room: int, cursor: int, limit: nat): seq<Message> {
    Newest(Select(db, PageTest(db, room, cursor)), limit)
  }

  // ---- the walk ----

  /** What the handler makes of the limit parameter. */
  function EffectiveLimit(raw: int): (limit: nat)
    ensures 1 <= limit <= 100
  {
    if raw > 100 then 100 else if raw <= 0 then 50 else raw
  }

  datatype Reply = Reply(messages: seq<Message>, nextCursor: int, hasMore: bool)

  method GetChatHistory(db: seq<Message>, room: int, cursor: int, raw: int) returns (r: Reply)
    requires UniqueIds(db)
    ensures r == ReplyOf(db, room, cursor, raw)
  {
    var limit := EffectiveLimit(raw);
    var messages := GetHistoryByCursor(db, room, cursor, limit);
    var nextCursor := 0;
    if |messages| > 0 {
      nextCursor := messages[0].id;
    }
    r := Reply(messages, nextCursor, |messages| == limit);
  }

  function ReplyOf(db: seq<Message>, room: int, cursor: int, raw: int): Reply {
    var page := Page(db, room, cursor, EffectiveLimit(raw));
    Reply(page, if page == [] then 0 else page[0].id, |page| == EffectiveLimit(raw))
  }

  ghost predicate PositiveIds(db: seq<Message>) { forall i :: 0 <= i < |db| ==> db[i].id > 0 }

  /** The room's live history below the cursor; with no cursor, all of it. */
  function Older(db: seq<Message>, room: int, cursor: int): seq<Message> { Select(db, PageTest(db, room, cursor)) }

  /** The walk's cursors: none, or a live message's id. */
  predicate Known(db: seq<Message>, cursor: int) { cursor <= 0 || Cursor(db, cursor) != [] }

  lemma TestBelow(db: seq<Message>, room: int, cursor: int, m: Message, x: Message)
    requires UniqueIds(db) && PositiveIds(db) && Known(db, cursor) && m in db && x in db
    requires PageTest(db, room, cursor)(m)
    ensures PageTest(db, room, m.id)(x) <==> PageTest(db, room, cursor)(x) && Before(x, m)
  {
    assert IsCursor(db, m.id, m);
    CursorFinds(db, m);
    var k :| 0 <= k < |db| && db[k] == m;
    assert db[k].id > 0;
  }

  /** Below a message of the history lies exactly what comes before it. */
  lemma OlderShrinks(db: seq<Message>, room: int, cursor: int, i: nat)
    requires UniqueIds(db) && PositiveIds(db) && Known(db, cursor) && i < |Older(db, room, cursor)|
    ensures var m := Older(db, room, cursor)[i];
            Older(db, room, m.id) == Older(db, room, cursor)[..i] && Known(db, m.id) && m.id > 0
  {
    hide Select, PageTest, Cursor;
    var all := Older(db, room, cursor);
    var m := all[i];
    SelectSorted(db, PageTest(db, room, cursor));
    SelectSorted(db, PageTest(db, room, m.id));
    assert m in all;
    KnownMember(db, room, cursor, m);
    forall x
      ensures x in Older(db, room, m.id) <==> x in all[..i]
    {
      BelowIsPrefix(all, i, x);
      if x in db { TestBelow(db, room, cursor, m, x); }
    }
    SortedUnique(Older(db, room, m.id), all[..i]);
  }

  lemma KnownMember(db: seq<Message>, room: int, cursor: int, m: Message)
    requires UniqueIds(db) && PositiveIds(db) && m in db && PageTest(db, room, cursor)(m)
    ensures Known(db, m.id) && m.id > 0
  {
    CursorFinds(db, m);
    var k :| 0 <= k < |db| && db[k] == m;
    assert db[k].id > 0;
  }

  lemma BelowIsPrefix(s: seq<Message>, i: nat, x: Message)
    requires Ascending(s) && i < |s|
    ensures x in s[..i] <==> x in s && Before(x, s[i])
  {
    if x in s && Before(x, s[i]) {
      var k :| 0 <= k < |s| && s[k] == x;
      assert k < i;
      assert s[..i][k] == x;
    }
  }

  /** Following next_cursor until has_more is false: everything read, oldest first. */
  ghost function Walk(db: seq<Message>, room: int, cursor: int, raw: int): seq<Message>
    requires UniqueIds(db) && PositiveIds(db) && Known(db, cursor)
    decreases |Older(db, room, cursor)|
  {
    var r := ReplyOf(db, room, cursor, raw);
    if !r.hasMore then r.messages
    else
      OlderShrinks(db, room, cursor, |Older(db, room, cursor)| - |r.messages|);
      Walk(db, room, r.nextCursor, raw) + r.messages
  }

  /** The walk ends, and reads the room's whole live history, each message once, in order. */
  lemma {:induction false} WalkReadsAll(db: seq<Message>, room: int, cursor: int, raw: int)
    requires UniqueIds(db) && PositiveIds(db) && Known(db, cursor)
    ensures Walk(db, room, cursor, raw) == Older(db, room, cursor)
    decreases |Older(db, room, cursor)|
  {
    hide Select, PageTest, Cursor, Known;
    var all := Older(db, room, cursor);
    var r := ReplyOf(db, room, cursor, raw);
    if r.hasMore {
      var n := |all| - |r.messages|;
      OlderShrinks(db, room, cursor, n);
      WalkReadsAll(db, room, r.nextCursor, raw);
      assert all == all[..n] + all[n..];
    }
  }

  lemma HistoryComplete(db: seq<Message>, room: int, raw: int)
    requires UniqueIds(db) && PositiveIds(db)
    ensures var all := Walk(db, room, 0, raw);
            Ascending(all) && forall m :: m in all <==> m in db && m.room == room && !m.deleted
  {
    WalkReadsAll(db, room, 0, raw);
    SelectSorted(db, PageTest(db, room, 0));
  }
}
