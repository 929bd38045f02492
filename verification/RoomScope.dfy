/** What the accepted conditions mean: a query whose scope and link terms are in place reads
    the same tuples from the whole database as from the database cut down to one room. */
module RoomScope {
  import opened SqlAst
  import opened SqlSemantics
  import opened RoomSchema
  import opened RoomLinks
  import opened Options

  // ---- the database of one room ----

  predicate InRoom(table: string, r: Row, room: int, sem: Semantics) {
    var c := ScopeColumn(table);
    c.Some? && Equal(Get(r, c.value), Int(room), sem) == True
  }

  /** A user belongs to the room through a room_members row of it. */
  ghost predicate MemberOf(db: Database, u: Row, room: int, sem: Semantics) {
    exists m :: m in TableRows(db, "room_members") && InRoom("room_members", m, room, sem)
                && Equal(Get(u, "id"), Get(m, "user_id"), sem) == True
  }

  ghost predicate Keep(db: Database, table: string, r: Row, room: int, sem: Semantics) {
    if table == "users" then MemberOf(db, r, room, sem) else InRoom(table, r, room, sem)
  }

  ghost function Restrict(db: Database, room: int, sem: Semantics): Database {
    map table | table in db :: Filter(db[table], (r: Row) => Keep(db, table, r, room, sem))
  }

  // ---- what a TRUE term says about a tuple ----

  ghost predicate LinkTrue(t: Tuple, u: string, m: string, sem: Semantics) {
    Equal(Lookup(t, u, "id"), Lookup(t, m, "user_id"), sem) == True
  }

  lemma ColumnValue(e: Node, alias: string, column: string, t: Tuple, room: int, sem: Semantics)
    requires IsColumn(e, alias, column) && Lower(alias) == alias && Lower(column) == column
    requires |column| != |ROOM_MARKER|
    ensures Eval(e, t, room, sem) == Lookup(t, alias, column)
  {
    assert |e.kind.column| == |Lower(e.kind.column)| == |column|;
  }

  lemma LinkForced(cond: Node, u: string, m: string, t: Tuple, room: int, sem: Semantics)
    requires LinkTerm(Some(cond), u, m) && Holds(cond, t, room, sem) && Lower(u) == u && Lower(m) == m
    ensures LinkTrue(t, u, m, sem)
  {
    var p :| ValidPath(cond, p) && Conjunct(cond, p) && IsLink(At(cond, p), u, m);
    ConjunctForced(cond, p, t, room, sem);
    var e := At(cond, p);
    EqForced(e, t, room, sem);
    LowerNames();
    if IsColumn(e.kids[0], u, "id") && IsColumn(e.kids[1], m, "user_id") {
      ColumnValue(e.kids[0], u, "id", t, room, sem);
      ColumnValue(e.kids[1], m, "user_id", t, room, sem);
    } else {
      ColumnValue(e.kids[1], u, "id", t, room, sem);
      ColumnValue(e.kids[0], m, "user_id", t, room, sem);
    }
  }

  lemma LowerNames()
    ensures Lower("id") == "id" && Lower("user_id") == "user_id" && Lower("room_id") == "room_id"
  {
    assert Lower("user_id") == "user_id";
  }

  lemma ScopeForced(cond: Node, alias: string, table: string, t: Tuple, room: int, sem: Semantics)
    requires ScopeColumn(table).Some? && ScopeTerm(Some(cond), alias, ScopeColumn(table).value)
    requires Holds(cond, t, room, sem) && Lower(alias) == alias
    ensures alias in t && t[alias].Some? && InRoom(table, t[alias].value, room, sem)
  {
    var c := ScopeColumn(table).value;
    var p :| ValidPath(cond, p) && Conjunct(cond, p) && IsScope(At(cond, p), alias, c);
    ConjunctForced(cond, p, t, room, sem);
    var e := At(cond, p);
    EqForced(e, t, room, sem);
    LowerNames();
    var k := if IsColumn(e.kids[0], alias, c) && IsRoomMarker(e.kids[1]) then 0 else 1;
    ColumnValue(e.kids[k], alias, c, t, room, sem);
    assert Eval(e.kids[1 - k], t, room, sem) == Int(room);
  }

  // ---- filtering nested-loop joins ----

  lemma {:induction false} FilterAppend<T>(s: seq<T>, u: seq<T>, p: T -> bool)
    ensures Filter(s + u, p) == Filter(s, p) + Filter(u, p)
  {
    if s == [] {
      assert s + u == u;
    } else {
      var head := if p(s[0]) then [s[0]] else [];
      assert (s + u)[0] == s[0] && (s + u)[1..] == s[1..] + u;
      FilterAppend(s[1..], u, p);
      assert Filter(s + u, p) == head + (Filter(s[1..], p) + Filter(u, p));
      assert Filter(s, p) == head + Filter(s[1..], p);
    }
  }

  lemma {:induction false} FilterMember<T>(s: seq<T>, p: T -> bool, x: T)
    ensures x in Filter(s, p) <==> x in s && p(x)
  {
    if s != [] {
      FilterMember(s[1..], p, x);
    }
  }

  /** Filtering by the weaker test first changes nothing. */
  lemma {:induction false} FilterTwice<T>(s: seq<T>, weak: T -> bool, strong: T -> bool)
    requires forall x :: x in s && strong(x) ==> weak(x)
    ensures Filter(Filter(s, weak), strong) == Filter(s, strong)
  {
    if s != [] {
      FilterTwice(s[1..], weak, strong);
      assert s[0] in s;
      FilterAppend(if weak(s[0]) then [s[0]] else [], Filter(s[1..], weak), strong);
    }
  }

  /** Filtering a nested loop: what f(x) leaves is g(x) when x is live and nothing when not. */
  lemma {:induction false} FlatMapFilter<A, B>(s: seq<A>, f: A -> seq<B>, g: A -> seq<B>,
                                              live: A -> bool, alive: B -> bool)
    requires forall x :: x in s ==> Filter(f(x), alive) == if live(x) then g(x) else []
    ensures Filter(FlatMap(s, f), alive) == FlatMap(Filter(s, live), g)
  {
    if s != [] {
      assert s[0] in s;
      FlatMapFilter(s[1..], f, g, live, alive);
      FilterAppend(f(s[0]), FlatMap(s[1..], f), alive);
      var rest := Filter(s[1..], live);
      if live(s[0]) {
        assert Filter(s, live) == [s[0]] + rest;
        assert ([s[0]] + rest)[1..] == rest;
      } else {
        assert Filter(s, live) == rest;
      }
    }
  }

  lemma {:induction false} FlatMapMember<A, B>(s: seq<A>, f: A -> seq<B>, y: B) returns (x: A)
    requires y in FlatMap(s, f)
    ensures x in s && y in f(x)
  {
    if y in f(s[0]) {
      x := s[0];
    } else {
      x := FlatMapMember(s[1..], f, y);
    }
  }

  /** A new slot decides on its own whether the tuple stays alive. */
  ghost predicate SplitsOn(ls: seq<Tuple>, a: string, rows: seq<Row>, alive: Tuple -> bool, keep: Row -> bool) {
    forall l, r :: l in ls && r in rows ==> (alive(l[a := Some(r)]) <==> alive(l) && keep(r))
  }

  lemma ExtendAlive(l: Tuple, a: string, rows: seq<Row>, on: Tuple -> bool, alive: Tuple -> bool, keep: Row -> bool)
    requires forall r :: r in rows ==> (alive(l[a := Some(r)]) <==> alive(l) && keep(r))
    ensures Filter(Extend(l, a, rows, on), alive)
            == if alive(l) then Extend(l, a, Filter(rows, keep), on) else []
  {
    var f := ExtendOf(l, a, on);
    if alive(l) {
      FlatMapFilter(rows, f, f, keep, alive);
    } else {
      FlatMapFilter(rows, f, f, (r: Row) => false, alive);
      NoneLeft(rows);
    }
  }

  lemma {:induction false} NoneLeft<T>(s: seq<T>)
    ensures Filter(s, (x: T) => false) == []
  {
    if s != [] {
      NoneLeft(s[1..]);
    }
  }

  lemma InnerJoinAlive(ls: seq<Tuple>, a: string, rows: seq<Row>, on: Tuple -> bool,
                       alive: Tuple -> bool, keep: Row -> bool)
    requires SplitsOn(ls, a, rows, alive, keep)
    ensures Filter(InnerJoin(ls, a, rows, on), alive)
            == InnerJoin(Filter(ls, alive), a, Filter(rows, keep), on)
  {
    forall l | l in ls
      ensures Filter(InnerOf(a, rows, on)(l), alive)
              == if alive(l) then InnerOf(a, Filter(rows, keep), on)(l) else []
    {
      ExtendAlive(l, a, rows, on, alive, keep);
    }
    FlatMapFilter(ls, InnerOf(a, rows, on), InnerOf(a, Filter(rows, keep), on), alive, alive);
  }

  /** A LEFT JOIN whose unmatched tuples die is an inner join. */
  lemma LeftJoinStrict(ls: seq<Tuple>, a: string, rows: seq<Row>, on: Tuple -> bool,
                       alive: Tuple -> bool, keep: Row -> bool)
    requires SplitsOn(ls, a, rows, alive, keep)
    requires forall l :: l in ls ==> !alive(l[a := None])
    ensures Filter(LeftJoin(ls, a, rows, on), alive)
            == InnerJoin(Filter(ls, alive), a, Filter(rows, keep), on)
  {
    forall l | l in ls
      ensures Filter(LeftOf(a, rows, on)(l), alive)
              == if alive(l) then InnerOf(a, Filter(rows, keep), on)(l) else []
    {
      ExtendAlive(l, a, rows, on, alive, keep);
    }
    FlatMapFilter(ls, LeftOf(a, rows, on), InnerOf(a, Filter(rows, keep), on), alive, alive);
  }

  /** If every match of a live tuple is kept, its matches are the same in the cut-down table. */
  lemma LeftJoinOwn(ls: seq<Tuple>, a: string, rows: seq<Row>, on: Tuple -> bool,
                    alive: Tuple -> bool, keep: Row -> bool)
    requires SplitsOn(ls, a, rows, alive, keep)
    requires forall l :: l in ls ==> (alive(l[a := None]) <==> alive(l))
    requires forall l, r :: l in ls && alive(l) && r in rows && on(l[a := Some(r)]) ==> keep(r)
    ensures Filter(LeftJoin(ls, a, rows, on), alive)
            == LeftJoin(Filter(ls, alive), a, Filter(rows, keep), on)
  {
    forall l | l in ls
      ensures Filter(LeftOf(a, rows, on)(l), alive)
              == if alive(l) then LeftOf(a, Filter(rows, keep), on)(l) else []
    {
      ExtendAlive(l, a, rows, on, alive, keep);
      if alive(l) {
        AllAlive(l, a, rows, on, alive, keep);
      }
    }
    FlatMapFilter(ls, LeftOf(a, rows, on), LeftOf(a, Filter(rows, keep), on), alive, alive);
  }

  lemma {:induction false} AllAlive(l: Tuple, a: string, rows: seq<Row>, on: Tuple -> bool,
                                    alive: Tuple -> bool, keep: Row -> bool)
    requires alive(l) && forall r :: r in rows ==> (alive(l[a := Some(r)]) <==> keep(r))
    requires forall r :: r in rows && on(l[a := Some(r)]) ==> keep(r)
    ensures Filter(Extend(l, a, rows, on), alive) == Extend(l, a, rows, on)
  {
    if rows != [] {
      assert rows[0] in rows;
      AllAlive(l, a, rows[1..], on, alive, keep);
      FilterAppend(Match(l[a := Some(rows[0])], on), Extend(l, a, rows[1..], on), alive);
    }
  }

  /** The matches of a RIGHT JOIN, without its unmatched rows. */
  function RightMatchesOf(ls: seq<Tuple>, a: string, on: Tuple -> bool): Row -> seq<Tuple> {
    r => ExtendLeft(ls, a, r, on)
  }

  /** A RIGHT JOIN whose unmatched rows die keeps only its matches. */
  lemma RightJoinStrict(ls: seq<Tuple>, a: string, rows: seq<Row>, on: Tuple -> bool,
                        nulls: Tuple, alive: Tuple -> bool, keep: Row -> bool)
    requires SplitsOn(ls, a, rows, alive, keep)
    requires forall r :: r in rows ==> !alive(nulls[a := Some(r)])
    ensures Filter(RightJoin(ls, a, rows, on, nulls), alive)
            == FlatMap(Filter(rows, keep), RightMatchesOf(Filter(ls, alive), a, on))
  {
    var f, g := RightOf(ls, a, on, nulls), RightMatchesOf(Filter(ls, alive), a, on);
    forall r | r in rows
      ensures Filter(f(r), alive) == if keep(r) then g(r) else []
    {
      var h := ExtendLeftOf(a, r, on);
      if keep(r) {
        FlatMapFilter(ls, h, h, alive, alive);
      } else {
        FlatMapFilter(ls, h, h, (l: Tuple) => false, alive);
        NoneLeft(ls);
      }
    }
    FlatMapFilter(rows, f, g, keep, alive);
  }

  // ---- tuples that can still become part of the answer ----

  ghost predicate SlotOk(db: Database, q: Query, k: nat, a: string, slot: Option<Row>, room: int, sem: Semantics) {
    a in AllAliases(q)
    && match slot
       case None => NoneOk(q, a, k)
       case Some(r) => Keep(db, AllAliases(q)[a], r, room, sem)
  }

  /** After k joins every slot is one the WHERE, the links and the joins to come can accept. */
  ghost predicate Alive(db: Database, q: Query, k: nat, t: Tuple, room: int, sem: Semantics) {
    forall a :: a in t ==> SlotOk(db, q, k, a, t[a], room, sem)
  }

  predicate IsLower(s: string) { Lower(s) == s }

  ghost predicate Resolved(q: Query) {
    DistinctAliases(q) && LinksBind(q) && Scoped(q)
    && (forall a :: a in AllAliases(q) ==> IsLower(a))
  }

  // ---- what is known of every tuple after k joins ----

  /** The tuple does not come from a match of join i. */
  ghost predicate Missed(q: Query, i: nat, m: string, t: Tuple)
    requires i < |q.joins|
  {
    match q.joins[i].side
    case Inner => Empty(t, m)
    case Left => Empty(t, q.joins[i].ref.alias)
    case Right => forall b :: b in Aliases(q, i) ==> Empty(t, b)
  }

  predicate Empty(t: Tuple, a: string) { a in t && t[a] == None }

  /** The ON of join i says this of a tuple, from the moment that join is done. */
  ghost predicate JoinFact(q: Query, i: nat, t: Tuple, sem: Semantics)
    requires i < |q.joins|
  {
    forall u, m :: LinkedAt(q, i, u, m) ==> LinkTrue(t, u, m, sem) || Missed(q, i, m, t)
  }

  ghost predicate Facts(q: Query, k: nat, t: Tuple, sem: Semantics)
    requires k <= |q.joins|
  {
    forall i :: 0 <= i < k ==> JoinFact(q, i, t, sem)
  }

  /** A filled slot holds a row of its alias's table. */
  ghost predicate Slots(d: Database, aliases: map<string, string>, t: Tuple) {
    t.Keys == aliases.Keys
    && forall a :: a in t && t[a].Some? ==> t[a].value in TableRows(d, aliases[a])
  }

  ghost predicate Known(d: Database, q: Query, k: nat, t: Tuple, sem: Semantics)
    requires k <= |q.joins|
  {
    Slots(d, Aliases(q, k), t) && Facts(q, k, t, sem)
  }

  lemma BoundNames(t: Tuple, u: string, m: string, sem: Semantics)
    requires LinkTrue(t, u, m, sem)
    ensures u in t && t[u].Some? && m in t && t[m].Some?
  {
  }

  /** A further slot under a new name takes no known fact away. */
  lemma FactKept(q: Query, i: nat, t: Tuple, a: string, slot: Option<Row>, sem: Semantics)
    requires i < |q.joins| && JoinFact(q, i, t, sem) && a !in t
    ensures JoinFact(q, i, t[a := slot], sem)
  {
    hide LinkedAt;
    forall u, m | LinkedAt(q, i, u, m)
      ensures LinkTrue(t[a := slot], u, m, sem) || Missed(q, i, m, t[a := slot])
    {
      if LinkTrue(t, u, m, sem) {
        BoundNames(t, u, m, sem);
      } else {
        assert forall b :: Empty(t, b) ==> Empty(t[a := slot], b);
      }
    }
  }

  /** The tuple of empty slots satisfies every fact. */
  lemma NullFact(q: Query, i: nat, k: nat, sem: Semantics)
    requires DistinctAliases(q) && i < k <= |q.joins|
    ensures JoinFact(q, i, NullTuple(q, k), sem)
  {
    hide LinkTerm;
    AliasesGrow(q, i + 1, k);
    AliasesGrow(q, i, k);
  }

  /** The join step itself establishes its own fact. */
  lemma FactMade(q: Query, i: nat, t: Tuple, room: int, sem: Semantics)
    requires Resolved(q) && i < |q.joins| && OnHolds(q.joins[i].on, t, room, sem)
    ensures JoinFact(q, i, t, sem)
  {
    forall u, m | LinkedAt(q, i, u, m)
      ensures LinkTrue(t, u, m, sem)
    {
      AliasesGrow(q, i + 1, |q.joins|);
      assert IsLower(u) && IsLower(m);
      LinkForced(q.joins[i].on.value, u, m, t, room, sem);
    }
  }

  lemma FactUnmatched(q: Query, i: nat, t: Tuple, sem: Semantics)
    requires i < |q.joins| && q.joins[i].side != Inner
    requires q.joins[i].side == Left ==> Empty(t, q.joins[i].ref.alias)
    requires q.joins[i].side == Right ==> forall b :: b in Aliases(q, i) ==> Empty(t, b)
    ensures JoinFact(q, i, t, sem)
  {
    hide LinkedAt;
  }

  lemma {:induction false} FromMember(a: string, rows: seq<Row>, t: Tuple) returns (r: Row)
    requires t in FromRows(a, rows)
    ensures r in rows && t == map[a := Some(r)]
  {
    if t == map[a := Some(rows[0])] {
      r := rows[0];
    } else {
      r := FromMember(a, rows[1..], t);
    }
  }

  /** Old facts survive a new slot; the newest join brings its own. */
  lemma KnownStep(d: Database, q: Query, k: nat, l: Tuple, slot: Option<Row>, t: Tuple, sem: Semantics)
    requires DistinctAliases(q) && 0 < k <= |q.joins| && Known(d, q, k - 1, l, sem)
    requires t == l[q.joins[k - 1].ref.alias := slot] && JoinFact(q, k - 1, t, sem)
    requires slot.Some? ==> slot.value in TableRows(d, q.joins[k - 1].ref.table)
    ensures Known(d, q, k, t, sem)
  {
    hide JoinFact;
    var ref := q.joins[k - 1].ref;
    assert FreshAlias(q, k - 1);
    assert Slots(d, Aliases(q, k), t) by {
      SlotsStep(d, Aliases(q, k - 1), l, ref, slot);
    }
    forall i | 0 <= i < k - 1
      ensures JoinFact(q, i, t, sem)
    {
      FactKept(q, i, l, ref.alias, slot, sem);
    }
  }

  lemma SlotsStep(d: Database, aliases: map<string, string>, l: Tuple, ref: TableRef, slot: Option<Row>)
    requires Slots(d, aliases, l) && ref.alias !in aliases
    requires slot.Some? ==> slot.value in TableRows(d, ref.table)
    ensures Slots(d, aliases[ref.alias := ref.table], l[ref.alias := slot])
  {
  }

  lemma KnownNulls(d: Database, q: Query, k: nat, sem: Semantics)
    requires DistinctAliases(q) && k <= |q.joins|
    ensures Known(d, q, k, NullTuple(q, k), sem)
  {
    hide JoinFact;
    forall i | 0 <= i < k
      ensures JoinFact(q, i, NullTuple(q, k), sem)
    {
      NullFact(q, i, k, sem);
    }
  }

  /** The three ways a join step produces a tuple. */
  datatype Origin = Matched(l: Tuple, r: Row) | Unmatched(l: Tuple) | NoLeft(r: Row)

  ghost predicate Produces(o: Origin, j: JoinClause, rows: seq<Row>, ls: seq<Tuple>, nulls: Tuple,
                           t: Tuple, room: int, sem: Semantics) {
    match o
    case Matched(l, r) => l in ls && r in rows && t == l[j.ref.alias := Some(r)] && OnHolds(j.on, t, room, sem)
    case Unmatched(l) => j.side == Left && l in ls && t == l[j.ref.alias := None]
    case NoLeft(r) => j.side == Right && r in rows && t == nulls[j.ref.alias := Some(r)]
  }

  lemma StepMember(j: JoinClause, rows: seq<Row>, ls: seq<Tuple>, nulls: Tuple, room: int, sem: Semantics, t: Tuple)
    returns (o: Origin)
    requires t in JoinStep(j, rows, ls, nulls, room, sem)
    ensures Produces(o, j, rows, ls, nulls, t, room, sem)
  {
    hide FlatMap, OnHolds;
    var a := j.ref.alias;
    var on := OnTest(j, room, sem);
    match j.side {
      case Inner =>
        var l := FlatMapMember(ls, InnerOf(a, rows, on), t);
        var r := FlatMapMember(rows, ExtendOf(l, a, on), t);
        o := Matched(l, r);
      case Left =>
        var l := FlatMapMember(ls, LeftOf(a, rows, on), t);
        if t == l[a := None] {
          o := Unmatched(l);
        } else {
          var r := FlatMapMember(rows, ExtendOf(l, a, on), t);
          o := Matched(l, r);
        }
      case Right =>
        var r := FlatMapMember(rows, RightOf(ls, a, on, nulls), t);
        if t == nulls[a := Some(r)] {
          o := NoLeft(r);
        } else {
          var l := FlatMapMember(ls, ExtendLeftOf(a, r, on), t);
          o := Matched(l, r);
        }
    }
  }

  lemma {:induction false} AllKnown(d: Database, q: Query, k: nat, room: int, sem: Semantics, t: Tuple)
    requires DistinctAliases(q) && Resolved(q) && k <= |q.joins| && t in Joined(d, q, k, room, sem)
    ensures Known(d, q, k, t, sem)
    decreases k
  {
    hide Resolved, JoinFact, OnHolds, JoinStep;
    if k == 0 {
      var r := FromMember(q.first.alias, TableRows(d, q.first.table), t);
    } else {
      hide Known;
      var j := q.joins[k - 1];
      var ls, nulls := Joined(d, q, k - 1, room, sem), NullTuple(q, k - 1);
      var o := StepMember(j, TableRows(d, j.ref.table), ls, nulls, room, sem, t);
      match o {
        case Matched(l, r) =>
          AllKnown(d, q, k - 1, room, sem, l);
          FactMade(q, k - 1, t, room, sem);
          KnownStep(d, q, k, l, Some(r), t, sem);
        case Unmatched(l) =>
          AllKnown(d, q, k - 1, room, sem, l);
          FactUnmatched(q, k - 1, t, sem);
          KnownStep(d, q, k, l, None, t, sem);
        case NoLeft(r) =>
          KnownNulls(d, q, k - 1, sem);
          assert FreshAlias(q, k - 1);
          FactUnmatched(q, k - 1, t, sem);
          KnownStep(d, q, k, nulls, Some(r), t, sem);
      }
    }
  }

  // ---- the induction over the joins ----

  ghost function AliveTest(db: Database, q: Query, k: nat, room: int, sem: Semantics): Tuple -> bool {
    t => Alive(db, q, k, t, room, sem)
  }

  ghost function KeepTest(db: Database, table: string, room: int, sem: Semantics): Row -> bool {
    r => Keep(db, table, r, room, sem)
  }

  lemma AliveSplits(db: Database, q: Query, k: nat, t: Tuple, a: string, slot: Option<Row>, room: int, sem: Semantics)
    requires a !in t
    ensures Alive(db, q, k, t[a := slot], room, sem)
            <==> Alive(db, q, k, t, room, sem) && SlotOk(db, q, k, a, slot, room, sem)
  {
    hide SlotOk;
    var u := t[a := slot];
    assert u[a] == slot;
    assert forall b :: b in t ==> b in u && u[b] == t[b];
  }

  /** A match under a link to a room_members row of the room is a member of the room. */
  lemma MatchIsMember(db: Database, d: Database, q: Query, k: nat, t: Tuple, u: string, m: string, room: int,
                      sem: Semantics)
    requires Resolved(q) && k < |q.joins| && LinkedAt(q, k, u, m) && OnHolds(q.joins[k].on, t, room, sem)
    requires m in t && t[m].Some? ==>
               t[m].value in TableRows(db, "room_members") && InRoom("room_members", t[m].value, room, sem)
    ensures u in t && t[u].Some? && MemberOf(db, t[u].value, room, sem)
  {
    AliasesGrow(q, k + 1, |q.joins|);
    assert IsLower(u) && IsLower(m);
    LinkForced(q.joins[k].on.value, u, m, t, room, sem);
    BoundNames(t, u, m, sem);
  }

  /** A live tuple's match under the link of its own join is a member of the room. */
  lemma OwnMatchKept(db: Database, d: Database, q: Query, k: nat, l: Tuple, r: Row, room: int, sem: Semantics)
    requires Resolved(q) && Within(d, db) && 0 < k <= |q.joins| && q.joins[k - 1].side == Left
    requires NoneOk(q, q.joins[k - 1].ref.alias, k)
    requires Slots(d, Aliases(q, k - 1), l) && Alive(db, q, k, l, room, sem)
    requires OnHolds(q.joins[k - 1].on, l[q.joins[k - 1].ref.alias := Some(r)], room, sem)
    ensures Keep(db, "users", r, room, sem)
  {
    hide LinksBind, NoneOk, LinkedAt, OnHolds;
    var u := q.joins[k - 1].ref.alias;
    var t := l[u := Some(r)];
    var m := OwnLink(q, k - 1);
    assert FreshAlias(q, k - 1);
    AliasesGrow(q, k - 1, |q.joins|);
    MemberFilled(db, q, k, l, m, room, sem);
    assert t[m] == l[m] && l[m].value in TableRows(d, "room_members");
    MatchIsMember(db, d, q, k - 1, t, u, m, room, sem);
  }

  /** A live tuple's room_members slot holds a row of the room. */
  lemma MemberFilled(db: Database, q: Query, k: nat, l: Tuple, m: string, room: int, sem: Semantics)
    requires Alive(db, q, k, l, room, sem) && m in l && IsMember(q, m)
    ensures l[m].Some? && InRoom("room_members", l[m].value, room, sem)
  {
    assert SlotOk(db, q, k, m, l[m], room, sem);
  }

  ghost predicate Within(d: Database, db: Database) {
    forall table, r :: r in TableRows(d, table) ==> r in TableRows(db, table)
  }

  lemma RestrictedRows(db: Database, table: string, room: int, sem: Semantics)
    ensures TableRows(Restrict(db, room, sem), table)
            == Filter(TableRows(db, table), KeepTest(db, table, room, sem))
  {
    if table in db {
      FilterSame(db[table], (r: Row) => Keep(db, table, r, room, sem), KeepTest(db, table, room, sem));
    }
  }

  lemma {:induction false} FilterSame<T>(s: seq<T>, p: T -> bool, p': T -> bool)
    requires forall x :: x in s ==> p(x) == p'(x)
    ensures Filter(s, p) == Filter(s, p')
  {
    if s != [] {
      assert s[0] in s;
      FilterSame(s[1..], p, p');
    }
  }

  lemma RestrictWithin(db: Database, room: int, sem: Semantics)
    ensures Within(Restrict(db, room, sem), db)
  {
    forall table, r | r in TableRows(Restrict(db, room, sem), table)
      ensures r in TableRows(db, table)
    {
      RestrictedRows(db, table, room, sem);
      FilterMember(TableRows(db, table), KeepTest(db, table, room, sem), r);
    }
  }

  /** Join k - 1 may leave its whole left side empty. */
  ghost predicate LeftMayGo(q: Query, k: nat)
    requires 0 < k <= |q.joins|
  {
    forall b :: b in Aliases(q, k - 1) ==> NoneOk(q, b, k)
  }

  /** A join step on live tuples and kept rows only. */
  ghost function CoreStep(q: Query, k: nat, rows: seq<Row>, ls: seq<Tuple>, room: int, sem: Semantics): seq<Tuple>
    requires 0 < k <= |q.joins|
  {
    var j := q.joins[k - 1];
    var on := OnTest(j, room, sem);
    match j.side
    case Inner => InnerJoin(ls, j.ref.alias, rows, on)
    case Left =>
      if NoneOk(q, j.ref.alias, k) then LeftJoin(ls, j.ref.alias, rows, on) else InnerJoin(ls, j.ref.alias, rows, on)
    case Right =>
      if LeftMayGo(q, k) then RightJoin(ls, j.ref.alias, rows, on, NullTuple(q, k - 1))
      else FlatMap(rows, RightMatchesOf(ls, j.ref.alias, on))
  }

  /** What a new slot does to a live tuple, for the table of join k - 1. */
  lemma StepSlots(db: Database, d: Database, q: Query, k: nat, ls: seq<Tuple>, room: int, sem: Semantics)
    requires DistinctAliases(q) && 0 < k <= |q.joins|
    requires forall l :: l in ls ==> Slots(d, Aliases(q, k - 1), l)
    ensures var j := q.joins[k - 1];
            var a, alive := j.ref.alias, AliveTest(db, q, k, room, sem);
            && SplitsOn(ls, a, TableRows(d, j.ref.table), alive, KeepTest(db, j.ref.table, room, sem))
            && (NoneOk(q, a, k) ==> forall l :: l in ls ==> (alive(l[a := None]) <==> alive(l)))
            && (!NoneOk(q, a, k) ==> forall l :: l in ls ==> !alive(l[a := None]))
  {
    hide Alive, Keep, NoneOk;
    var j := q.joins[k - 1];
    var a := j.ref.alias;
    assert FreshAlias(q, k - 1);
    AliasesGrow(q, k, |q.joins|);
    forall l | l in ls
      ensures Alive(db, q, k, l[a := None], room, sem) <==> Alive(db, q, k, l, room, sem) && NoneOk(q, a, k)
    {
      AliveSplits(db, q, k, l, a, None, room, sem);
    }
    forall l, r | l in ls && r in TableRows(d, j.ref.table)
      ensures Alive(db, q, k, l[a := Some(r)], room, sem)
              <==> Alive(db, q, k, l, room, sem) && Keep(db, j.ref.table, r, room, sem)
    {
      AliveSplits(db, q, k, l, a, Some(r), room, sem);
    }
  }

  lemma StepOwn(db: Database, d: Database, q: Query, k: nat, ls: seq<Tuple>, room: int, sem: Semantics)
    requires DistinctAliases(q) && Resolved(q) && 0 < k <= |q.joins| && Within(d, db)
    requires q.joins[k - 1].side == Left && NoneOk(q, q.joins[k - 1].ref.alias, k)
    requires forall l :: l in ls ==> Slots(d, Aliases(q, k - 1), l)
    ensures var j := q.joins[k - 1];
            forall l, r :: l in ls && AliveTest(db, q, k, room, sem)(l) && r in TableRows(d, j.ref.table)
                           && OnTest(j, room, sem)(l[j.ref.alias := Some(r)])
                           ==> KeepTest(db, j.ref.table, room, sem)(r)
  {
    hide Resolved, Alive, Keep, OnHolds, Slots, NoneOk;
    var j := q.joins[k - 1];
    UsersTable(q, k);
    forall l, r | l in ls && Alive(db, q, k, l, room, sem) && r in TableRows(d, j.ref.table)
                  && OnHolds(j.on, l[j.ref.alias := Some(r)], room, sem)
      ensures Keep(db, j.ref.table, r, room, sem)
    {
      OwnMatchKept(db, d, q, k, l, r, room, sem);
    }
  }

  lemma UsersTable(q: Query, k: nat)
    requires DistinctAliases(q) && 0 < k <= |q.joins| && NoneOk(q, q.joins[k - 1].ref.alias, k)
    ensures q.joins[k - 1].ref.table == "users"
  {
    AliasesGrow(q, k, |q.joins|);
  }

  lemma NullsDead(db: Database, d: Database, q: Query, k: nat, room: int, sem: Semantics)
    requires DistinctAliases(q) && 0 < k <= |q.joins| && !LeftMayGo(q, k)
    ensures var j := q.joins[k - 1];
            forall r :: r in TableRows(d, j.ref.table)
                        ==> !AliveTest(db, q, k, room, sem)(NullTuple(q, k - 1)[j.ref.alias := Some(r)])
  {
    hide NoneOk;
    var j := q.joins[k - 1];
    var b :| b in Aliases(q, k - 1) && !NoneOk(q, b, k);
    assert FreshAlias(q, k - 1);
    forall r | r in TableRows(d, j.ref.table)
      ensures !Alive(db, q, k, NullTuple(q, k - 1)[j.ref.alias := Some(r)], room, sem)
    {
      var t := NullTuple(q, k - 1)[j.ref.alias := Some(r)];
      assert b in t && t[b] == None && !SlotOk(db, q, k, b, t[b], room, sem);
    }
  }

  // ---- a RIGHT JOIN that may leave its left side empty ----

  lemma NullsAlive(db: Database, d: Database, q: Query, k: nat, r: Row, room: int, sem: Semantics)
    requires DistinctAliases(q) && 0 < k <= |q.joins| && LeftMayGo(q, k)
    ensures var j := q.joins[k - 1];
            Alive(db, q, k, NullTuple(q, k - 1)[j.ref.alias := Some(r)], room, sem)
            <==> Keep(db, j.ref.table, r, room, sem)
  {
    hide NoneOk, Keep;
    var j := q.joins[k - 1];
    assert FreshAlias(q, k - 1);
    AliasesGrow(q, k - 1, |q.joins|);
    AliasesGrow(q, k, |q.joins|);
    var nulls := NullTuple(q, k - 1);
    forall a | a in nulls
      ensures SlotOk(db, q, k, a, nulls[a], room, sem)
    {
    }
    AliveSplits(db, q, k, nulls, j.ref.alias, Some(r), room, sem);
  }

  /** A tuple that matches a kept row was live before the join, too. */
  lemma MatchedAlive(db: Database, d: Database, q: Query, k: nat, l: Tuple, r: Row, room: int, sem: Semantics)
    requires DistinctAliases(q) && Resolved(q) && 0 < k <= |q.joins| && Within(d, db)
    requires q.joins[k - 1].side == Right && LeftMayGo(q, k) && Slots(d, Aliases(q, k - 1), l)
    requires r in TableRows(d, q.joins[k - 1].ref.table) && Keep(db, q.joins[k - 1].ref.table, r, room, sem)
    requires OnHolds(q.joins[k - 1].on, l[q.joins[k - 1].ref.alias := Some(r)], room, sem)
    ensures forall k' :: Alive(db, q, k', l, room, sem)
  {
    hide NoneOk, Resolved, OnHolds, LinksBind;
    var j := q.joins[k - 1];
    var t := l[j.ref.alias := Some(r)];
    assert FreshAlias(q, k - 1);
    AliasesGrow(q, k - 1, |q.joins|);
    AliasesGrow(q, k, |q.joins|);
    forall a | a in l
      ensures l[a].Some? && a in AllAliases(q) && AllAliases(q)[a] == "users" && MemberOf(db, l[a].value, room, sem)
    {
      assert NoneOk(q, a, k);
      LinkedToRight(q, k, a);
      assert t[j.ref.alias] == Some(r) && t[a] == l[a];
      MatchIsMember(db, d, q, k - 1, t, a, j.ref.alias, room, sem);
    }
  }

  lemma LinkedToRight(q: Query, k: nat, a: string)
    requires Resolved(q) && 0 < k <= |q.joins| && q.joins[k - 1].side == Right && LeftMayGo(q, k)
    requires a in Aliases(q, k - 1)
    ensures LinkedAt(q, k - 1, a, q.joins[k - 1].ref.alias) && q.joins[k - 1].ref.table == "room_members"
    ensures IsUser(q, a)
  {
    hide NoneOk, LinksBind;
    AllLinked(q, k - 1, a);
    AliasesGrow(q, k, |q.joins|);
    NoMemberYet(q, k - 1);
    AliasesGrow(q, k - 1, |q.joins|);
  }

  /** If only live tuples match r, the others can be left out of the loop. */
  lemma {:induction false} ExtendLeftLive(ls: seq<Tuple>, a: string, r: Row, on: Tuple -> bool, live: Tuple -> bool)
    requires forall l :: l in ls && on(l[a := Some(r)]) ==> live(l)
    ensures ExtendLeft(ls, a, r, on) == ExtendLeft(Filter(ls, live), a, r, on)
  {
    if ls != [] {
      assert ls[0] in ls;
      ExtendLeftLive(ls[1..], a, r, on, live);
      var rest := Filter(ls[1..], live);
      if live(ls[0]) {
        assert Filter(ls, live) == [ls[0]] + rest && ([ls[0]] + rest)[1..] == rest;
      } else {
        assert Filter(ls, live) == rest;
      }
    }
  }

  lemma {:induction false} FilterAll<T>(s: seq<T>, p: T -> bool)
    requires forall x :: x in s ==> p(x)
    ensures Filter(s, p) == s
  {
    if s != [] {
      assert s[0] in s;
      FilterAll(s[1..], p);
    }
  }

  lemma {:induction false} FilterNone<T>(s: seq<T>, p: T -> bool)
    requires forall x :: x in s ==> !p(x)
    ensures Filter(s, p) == []
  {
    if s != [] {
      assert s[0] in s;
      FilterNone(s[1..], p);
    }
  }

  /** before and after: being live before the join and after it. */
  lemma RightJoinOwn(ls: seq<Tuple>, a: string, rows: seq<Row>, on: Tuple -> bool, nulls: Tuple,
                     before: Tuple -> bool, after: Tuple -> bool, keep: Row -> bool)
    requires SplitsOn(ls, a, rows, after, keep)
    requires forall r :: r in rows ==> (after(nulls[a := Some(r)]) <==> keep(r))
    requires forall l, r :: l in ls && r in rows && keep(r) && on(l[a := Some(r)]) ==> before(l) && after(l)
    ensures Filter(RightJoin(ls, a, rows, on, nulls), after)
            == RightJoin(Filter(ls, before), a, Filter(rows, keep), on, nulls)
  {
    var f, g := RightOf(ls, a, on, nulls), RightOf(Filter(ls, before), a, on, nulls);
    forall r | r in rows
      ensures Filter(f(r), after) == if keep(r) then g(r) else []
    {
      forall t | t in ExtendLeft(ls, a, r, on)
        ensures after(t) <==> keep(r)
      {
        var l := FlatMapMember(ls, ExtendLeftOf(a, r, on), t);
        assert t == l[a := Some(r)];
      }
      if keep(r) {
        ExtendLeftLive(ls, a, r, on, before);
        FilterAll(f(r), after);
      } else {
        FilterNone(f(r), after);
      }
    }
    FlatMapFilter(rows, f, g, keep, after);
  }

  /** The live part of a join step depends only on the tuples live before it and the kept rows. */
  lemma StepAlive(db: Database, d: Database, q: Query, k: nat, ls: seq<Tuple>, room: int, sem: Semantics)
    requires DistinctAliases(q) && Resolved(q) && 0 < k <= |q.joins| && Within(d, db)
    requires forall l :: l in ls ==> Slots(d, Aliases(q, k - 1), l)
    ensures var j := q.joins[k - 1];
            var rows := TableRows(d, j.ref.table);
            Filter(JoinStep(j, rows, ls, NullTuple(q, k - 1), room, sem), AliveTest(db, q, k, room, sem))
            == CoreStep(q, k, Filter(rows, KeepTest(db, j.ref.table, room, sem)),
                        Filter(ls, AliveTest(db, q, k - 1, room, sem)), room, sem)
  {
    hide Resolved, NoneOk, Slots, SplitsOn, LeftMayGo;
    var j := q.joins[k - 1];
    var a, rows := j.ref.alias, TableRows(d, j.ref.table);
    var on, keep := OnTest(j, room, sem), KeepTest(db, j.ref.table, room, sem);
    var alive := AliveTest(db, q, k, room, sem);
    StepSlots(db, d, q, k, ls, room, sem);
    if j.side == Right && LeftMayGo(q, k) {
      StepRight(db, d, q, k, ls, room, sem);
    } else {
      AliveKept(db, d, q, k, ls, room, sem);
      match j.side {
        case Inner => InnerJoinAlive(ls, a, rows, on, alive, keep);
        case Left =>
          if NoneOk(q, a, k) {
            StepOwn(db, d, q, k, ls, room, sem);
            LeftJoinOwn(ls, a, rows, on, alive, keep);
          } else {
            LeftJoinStrict(ls, a, rows, on, alive, keep);
          }
        case Right =>
          NullsDead(db, d, q, k, room, sem);
          RightJoinStrict(ls, a, rows, on, NullTuple(q, k - 1), alive, keep);
      }
    }
  }

  lemma StepRight(db: Database, d: Database, q: Query, k: nat, ls: seq<Tuple>, room: int, sem: Semantics)
    requires DistinctAliases(q) && Resolved(q) && 0 < k <= |q.joins| && Within(d, db)
    requires q.joins[k - 1].side == Right && LeftMayGo(q, k)
    requires forall l :: l in ls ==> Slots(d, Aliases(q, k - 1), l)
    ensures var j := q.joins[k - 1];
            var rows := TableRows(d, j.ref.table);
            Filter(JoinStep(j, rows, ls, NullTuple(q, k - 1), room, sem), AliveTest(db, q, k, room, sem))
            == CoreStep(q, k, Filter(rows, KeepTest(db, j.ref.table, room, sem)),
                        Filter(ls, AliveTest(db, q, k - 1, room, sem)), room, sem)
  {
    hide Resolved, NoneOk, Slots, Alive, Keep, OnHolds, LeftMayGo;
    var j := q.joins[k - 1];
    var a, rows := j.ref.alias, TableRows(d, j.ref.table);
    var on, keep, nulls := OnTest(j, room, sem), KeepTest(db, j.ref.table, room, sem), NullTuple(q, k - 1);
    StepSlots(db, d, q, k, ls, room, sem);
    forall r | r in rows
      ensures AliveTest(db, q, k, room, sem)(nulls[a := Some(r)]) <==> keep(r)
    {
      NullsAlive(db, d, q, k, r, room, sem);
    }
    forall l, r | l in ls && r in rows && keep(r) && on(l[a := Some(r)])
      ensures AliveTest(db, q, k - 1, room, sem)(l) && AliveTest(db, q, k, room, sem)(l)
    {
      MatchedAlive(db, d, q, k, l, r, room, sem);
    }
    RightJoinOwn(ls, a, rows, on, nulls, AliveTest(db, q, k - 1, room, sem), AliveTest(db, q, k, room, sem), keep);
  }

  /** Any other join leaves the live tuples so far as they were. */
  lemma AliveKept(db: Database, d: Database, q: Query, k: nat, ls: seq<Tuple>, room: int, sem: Semantics)
    requires DistinctAliases(q) && Resolved(q) && 0 < k <= |q.joins|
    requires q.joins[k - 1].side == Right ==> !LeftMayGo(q, k)
    requires forall l :: l in ls ==> Slots(d, Aliases(q, k - 1), l)
    ensures Filter(ls, AliveTest(db, q, k - 1, room, sem)) == Filter(ls, AliveTest(db, q, k, room, sem))
  {
    hide NoneOk, LinksBind, Keep;
    forall a | a in Aliases(q, k - 1)
      ensures NoneOk(q, a, k) <==> NoneOk(q, a, k - 1)
    {
      NoneOkKept(q, k - 1, a);
    }
    forall l | l in ls
      ensures Alive(db, q, k - 1, l, room, sem) <==> Alive(db, q, k, l, room, sem)
    {
      assert forall a :: a in l ==>
               (SlotOk(db, q, k - 1, a, l[a], room, sem) <==> SlotOk(db, q, k, a, l[a], room, sem));
    }
    FilterSame(ls, AliveTest(db, q, k - 1, room, sem), AliveTest(db, q, k, room, sem));
  }

  lemma {:induction false} FromAlive(db: Database, q: Query, rows: seq<Row>, room: int, sem: Semantics)
    requires DistinctAliases(q)
    ensures Filter(FromRows(q.first.alias, rows), AliveTest(db, q, 0, room, sem))
            == FromRows(q.first.alias, Filter(rows, KeepTest(db, q.first.table, room, sem)))
  {
    if rows != [] {
      hide Alive, Keep;
      var a, alive := q.first.alias, AliveTest(db, q, 0, room, sem);
      var head := [map[a := Some(rows[0])]];
      FirstAlive(db, q, rows[0], room, sem);
      FromAlive(db, q, rows[1..], room, sem);
      FilterAppend(head, FromRows(a, rows[1..]), alive);
      assert head[1..] == [];
      assert Filter(head, alive) == if alive(head[0]) then head else [];
      var rest := Filter(rows[1..], KeepTest(db, q.first.table, room, sem));
      assert ([rows[0]] + rest)[1..] == rest;
      assert FromRows(a, rows) == head + FromRows(a, rows[1..]);
      assert alive(head[0]) <==> Keep(db, q.first.table, rows[0], room, sem);
      if Keep(db, q.first.table, rows[0], room, sem) {
        assert Filter(rows, KeepTest(db, q.first.table, room, sem)) == [rows[0]] + rest;
        assert FromRows(a, [rows[0]] + rest) == head + FromRows(a, rest);
      } else {
        assert Filter(rows, KeepTest(db, q.first.table, room, sem)) == rest;
      }
    }
  }

  lemma FirstAlive(db: Database, q: Query, r: Row, room: int, sem: Semantics)
    requires DistinctAliases(q)
    ensures Alive(db, q, 0, map[q.first.alias := Some(r)], room, sem) <==> Keep(db, q.first.table, r, room, sem)
  {
    AliasesGrow(q, 0, |q.joins|);
    var t: Tuple := map[q.first.alias := Some(r)];
    assert t[q.first.alias] == Some(r);
  }

  /** The live tuples after k joins are the same in both databases. */
  lemma {:induction false} JoinedAlive(db: Database, q: Query, k: nat, room: int, sem: Semantics)
    requires DistinctAliases(q) && Resolved(q) && k <= |q.joins|
    ensures Filter(Joined(db, q, k, room, sem), AliveTest(db, q, k, room, sem))
            == Filter(Joined(Restrict(db, room, sem), q, k, room, sem), AliveTest(db, q, k, room, sem))
    decreases k
  {
    hide Resolved, Restrict, JoinStep, CoreStep, Filter;
    var dr := Restrict(db, room, sem);
    RestrictWithin(db, room, sem);
    if k == 0 {
      SameKept(db, q.first.table, room, sem);
      FromAlive(db, q, TableRows(db, q.first.table), room, sem);
      FromAlive(db, q, TableRows(dr, q.first.table), room, sem);
    } else {
      JoinedAlive(db, q, k - 1, room, sem);
      SameKept(db, q.joins[k - 1].ref.table, room, sem);
      JoinedSlots(db, q, k - 1, room, sem);
      JoinedSlots(dr, q, k - 1, room, sem);
      StepAlive(db, db, q, k, Joined(db, q, k - 1, room, sem), room, sem);
      StepAlive(db, dr, q, k, Joined(dr, q, k - 1, room, sem), room, sem);
    }
  }

  /** Every slot holds a row of its alias's table, or none. */
  lemma {:induction false} AllSlots(d: Database, q: Query, k: nat, room: int, sem: Semantics, t: Tuple)
    requires DistinctAliases(q) && k <= |q.joins| && t in Joined(d, q, k, room, sem)
    ensures Slots(d, Aliases(q, k), t)
    decreases k
  {
    hide OnHolds, JoinStep;
    if k == 0 {
      var r := FromMember(q.first.alias, TableRows(d, q.first.table), t);
    } else {
      var j := q.joins[k - 1];
      var ls, nulls := Joined(d, q, k - 1, room, sem), NullTuple(q, k - 1);
      var o := StepMember(j, TableRows(d, j.ref.table), ls, nulls, room, sem, t);
      assert FreshAlias(q, k - 1);
      if o.NoLeft? {
        SlotsStep(d, Aliases(q, k - 1), nulls, j.ref, Some(o.r));
      } else {
        AllSlots(d, q, k - 1, room, sem, o.l);
        SlotsStep(d, Aliases(q, k - 1), o.l, j.ref, if o.Matched? then Some(o.r) else None);
      }
    }
  }

  lemma JoinedSlots(d: Database, q: Query, k: nat, room: int, sem: Semantics)
    requires DistinctAliases(q) && k <= |q.joins|
    ensures forall l :: l in Joined(d, q, k, room, sem) ==> Slots(d, Aliases(q, k), l)
  {
    hide Joined, Slots;
    forall l | l in Joined(d, q, k, room, sem)
      ensures Slots(d, Aliases(q, k), l)
    {
      AllSlots(d, q, k, room, sem, l);
    }
  }

  lemma SameKept(db: Database, table: string, room: int, sem: Semantics)
    ensures Filter(TableRows(Restrict(db, room, sem), table), KeepTest(db, table, room, sem))
            == Filter(TableRows(db, table), KeepTest(db, table, room, sem))
  {
    RestrictedRows(db, table, room, sem);
    var keep := KeepTest(db, table, room, sem);
    FilterTwice(TableRows(db, table), keep, keep);
  }

  // ---- a tuple the WHERE accepts is live ----

  /** Whatever the joins, a filled-in scoped alias of an accepted tuple is a row of the room. */
  lemma ScopedSlot(q: Query, t: Tuple, a: string, room: int, sem: Semantics)
    requires Scoped(q) && a in AllAliases(q) && AllAliases(q)[a] != "users" && IsLower(a)
    requires OnHolds(q.cond, t, room, sem)
    ensures a in t && t[a].Some? && InRoom(AllAliases(q)[a], t[a].value, room, sem)
  {
    ScopeForced(q.cond.value, a, AllAliases(q)[a], t, room, sem);
  }

  lemma LinkedSlot(db: Database, d: Database, q: Query, t: Tuple, u: string, m: string, room: int, sem: Semantics)
    requires Resolved(q) && Slots(d, AllAliases(q), t) && Within(d, db) && IsMember(q, m)
    requires OnHolds(q.cond, t, room, sem) && LinkTrue(t, u, m, sem)
    ensures u in t && t[u].Some? && MemberOf(db, t[u].value, room, sem)
  {
    assert IsLower(m);
    ScopedSlot(q, t, m, room, sem);
    BoundNames(t, u, m, sem);
    assert t[m].value in TableRows(d, "room_members");
  }

  lemma WhereLinked(db: Database, d: Database, q: Query, t: Tuple, u: string, m: string, room: int, sem: Semantics)
    requires Resolved(q) && Slots(d, AllAliases(q), t) && Within(d, db) && OnHolds(q.cond, t, room, sem)
    requires IsUser(q, u) && IsMember(q, m) && LinkTerm(q.cond, u, m)
    ensures u in t && t[u].Some? && MemberOf(db, t[u].value, room, sem)
  {
    hide LinkTerm;
    assert IsLower(u) && IsLower(m);
    LinkForced(q.cond.value, u, m, t, room, sem);
    LinkedSlot(db, d, q, t, u, m, room, sem);
  }

  lemma JoinLinked(db: Database, d: Database, q: Query, k: nat, t: Tuple, u: string, m: string, room: int,
                   sem: Semantics)
    requires Resolved(q) && Known(d, q, |q.joins|, t, sem) && Within(d, db) && OnHolds(q.cond, t, room, sem)
    requires k < |q.joins| && LinkedAt(q, k, u, m) && !Missed(q, k, m, t)
    ensures u in t && t[u].Some? && MemberOf(db, t[u].value, room, sem)
  {
    hide Resolved, OnHolds, LinkTerm, Missed;
    assert JoinFact(q, k, t, sem);
    LinkedSlot(db, d, q, t, u, m, room, sem);
  }

  /** A required alias of an accepted tuple is filled, a users alias with a member of the room. */
  lemma {:induction false} RequiredSlot(db: Database, d: Database, q: Query, t: Tuple, a: string, n: nat, room: int,
                                        sem: Semantics)
    requires Resolved(q) && Known(d, q, |q.joins|, t, sem) && Within(d, db) && OnHolds(q.cond, t, room, sem)
    requires RequiredIn(q, a, n)
    ensures a in t && t[a].Some? && (IsUser(q, a) ==> MemberOf(db, t[a].value, room, sem))
    decreases n, 0
  {
    hide LinkTerm, OnHolds, Resolved, MemberOf, Facts, Within, Scoped, Slots, Missed, Forced;
    LowerAlias(q, a);
    if !IsUser(q, a) {
      ScopedSlot(q, t, a, room, sem);
    } else if m :| IsMember(q, m) && LinkTerm(q.cond, a, m) {
      WhereLinked(db, d, q, t, a, m, room, sem);
    } else {
      var k, m :| LinkedAt(q, k, a, m) && Forced(q, k, n - 1);
      NotMissed(db, d, q, t, k, m, n - 1, room, sem);
      JoinLinked(db, d, q, k, t, a, m, room, sem);
    }
  }

  lemma {:induction false} NotMissed(db: Database, d: Database, q: Query, t: Tuple, k: nat, m: string, n: nat,
                                     room: int, sem: Semantics)
    requires Resolved(q) && Known(d, q, |q.joins|, t, sem) && Within(d, db) && OnHolds(q.cond, t, room, sem)
    requires k < |q.joins| && IsMember(q, m) && Forced(q, k, n)
    ensures !Missed(q, k, m, t)
    decreases n, 1
  {
    hide LinkTerm, OnHolds, Resolved, MemberOf, Facts, Within, Scoped, Slots, RequiredIn;
    LowerAlias(q, m);
    ScopedSlot(q, t, m, room, sem);
    if q.joins[k].side == Left {
      RequiredSlot(db, d, q, t, q.joins[k].ref.alias, n, room, sem);
    } else if q.joins[k].side == Right {
      var b :| b in Aliases(q, k) && RequiredIn(q, b, n);
      RequiredSlot(db, d, q, t, b, n, room, sem);
    }
  }

  /** A users slot of an accepted tuple holds a member of the room, or is empty and may be. */
  lemma UserSlot(db: Database, d: Database, q: Query, t: Tuple, u: string, room: int, sem: Semantics)
    requires Resolved(q) && Known(d, q, |q.joins|, t, sem) && Within(d, db)
    requires IsUser(q, u) && OnHolds(q.cond, t, room, sem)
    ensures SlotOk(db, q, |q.joins|, u, t[u], room, sem)
  {
    hide LinkTerm, OnHolds, RequiredIn, MemberOf, Facts, Within, Scoped;
    if n: nat :| RequiredIn(q, u, n) {
      RequiredSlot(db, d, q, t, u, n, room, sem);
    } else if t[u].Some? {
      CarriedSlot(db, d, q, t, u, room, sem);
    } else {
      assert NoneOk(q, u, |q.joins|);
    }
  }

  lemma CarriedSlot(db: Database, d: Database, q: Query, t: Tuple, u: string, room: int, sem: Semantics)
    requires Resolved(q) && Known(d, q, |q.joins|, t, sem) && Within(d, db) && OnHolds(q.cond, t, room, sem)
    requires Optional(q, u) && u in t && t[u].Some?
    ensures MemberOf(db, t[u].value, room, sem)
  {
    hide LinkTerm, OnHolds, Required, MemberOf, Facts, Within, Scoped, Slots;
    assert Carried(q, u);
    var k, m :| LinkedAt(q, k, u, m)
                && (q.joins[k].side == Right || (q.joins[k].side == Left && q.joins[k].ref.alias == u));
    if q.joins[k].side == Right { CarriedLeft(q, k, u, m); }
    JoinLinked(db, d, q, k, t, u, m, room, sem);
  }

  lemma LowerAlias(q: Query, a: string)
    requires Resolved(q) && a in AllAliases(q)
    ensures IsLower(a) && Scoped(q)
  {
  }

  lemma AcceptedAlive(db: Database, d: Database, q: Query, t: Tuple, room: int, sem: Semantics)
    requires DistinctAliases(q) && Resolved(q) && Within(d, db)
    requires t in Joined(d, q, |q.joins|, room, sem) && OnHolds(q.cond, t, room, sem)
    ensures Alive(db, q, |q.joins|, t, room, sem)
  {
    AllKnown(d, q, |q.joins|, room, sem, t);
    hide Resolved, Joined, OnHolds, JoinFact, NoneOk;
    forall a | a in t
      ensures SlotOk(db, q, |q.joins|, a, t[a], room, sem)
    {
      if AllAliases(q)[a] == "users" {
        UserSlot(db, d, q, t, a, room, sem);
      } else {
        LowerAlias(q, a);
        ScopedSlot(q, t, a, room, sem);
      }
    }
  }

  /** Room isolation: cutting the database down to the room changes no surviving tuple, nor
      their order, so no projection, grouping, ordering or LIMIT of them either. */
  lemma RoomIsolation(db: Database, q: Query, room: int, sem: Semantics)
    requires DistinctAliases(q) && Resolved(q)
    ensures Survivors(db, q, room, sem) == Survivors(Restrict(db, room, sem), q, room, sem)
  {
    hide Resolved, Restrict, Joined, Filter;
    var dr := Restrict(db, room, sem);
    var n := |q.joins|;
    var alive := AliveTest(db, q, n, room, sem);
    var pass := CondTest(q, room, sem);
    RestrictWithin(db, room, sem);
    JoinedAlive(db, q, n, room, sem);
    forall t | t in Joined(db, q, n, room, sem) && pass(t)
      ensures alive(t)
    {
      AcceptedAlive(db, db, q, t, room, sem);
    }
    forall t | t in Joined(dr, q, n, room, sem) && pass(t)
      ensures alive(t)
    {
      AcceptedAlive(db, dr, q, t, room, sem);
    }
    FilterTwice(Joined(db, q, n, room, sem), alive, pass);
    FilterTwice(Joined(dr, q, n, room, sem), alive, pass);
  }
}
