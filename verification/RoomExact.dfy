/** The condition on the links is exact: a query made of scope and link terms alone whose links do
    not bind has a database on which the two sides differ. */
module RoomExact {
  import opened SqlAst
  import opened SqlSemantics
  import opened RoomSchema
  import opened RoomLinks
  import opened RoomScope
  import opened Options

  // ---- conditions made of scope and link terms ----

  ghost predicate LinkLeaf(e: Node, scope: map<string, string>, u: string, m: string) {
    u in scope && scope[u] == "users" && m in scope && scope[m] == "room_members" && IsLink(e, u, m)
  }

  ghost predicate ScopeLeaf(e: Node, scope: map<string, string>, a: string) {
    a in scope && scope[a] != "users" && IsScope(e, a, ScopeColumn(scope[a]).value)
  }

  ghost predicate Leaf(e: Node, scope: map<string, string>) {
    (exists u, m :: LinkLeaf(e, scope, u, m)) || exists a :: ScopeLeaf(e, scope, a)
  }

  /** ANDs and parentheses over such terms, about the aliases in scope. */
  ghost predicate Plain(n: Node, scope: map<string, string>) {
    match n.kind
    case And => |n.kids| == 2 && Plain(n.kids[0], scope) && Plain(n.kids[1], scope)
    case Paren => |n.kids| == 1 && Plain(n.kids[0], scope)
    case _ => Leaf(n, scope)
  }

  ghost predicate PlainQuery(q: Query) {
    && (q.cond.Some? ==> Plain(q.cond.value, AllAliases(q)))
    && (forall k :: 0 <= k < |q.joins| && q.joins[k].on.Some? ==> Plain(q.joins[k].on.value, Aliases(q, k + 1)))
  }

  ghost predicate LeafAt(n: Node, scope: map<string, string>, p: Path) {
    ValidPath(n, p) && Conjunct(n, p) && Leaf(At(n, p), scope)
  }

  /** A plain condition is TRUE when all its terms are; so one that is not has a term that is not. */
  lemma {:induction false} FailingLeaf(n: Node, scope: map<string, string>, t: Tuple, room: int, sem: Semantics)
    returns (p: Path)
    requires Plain(n, scope) && !Holds(n, t, room, sem)
    ensures LeafAt(n, scope, p) && !Holds(At(n, p), t, room, sem)
  {
    hide Leaf;
    p := [];
    if n.kind.And? || n.kind.Paren? {
      var i: nat := if n.kind.And? && Holds(n.kids[0], t, room, sem) then 1 else 0;
      var rest := FailingLeaf(n.kids[i], scope, t, room, sem);
      p := [i] + rest;
      assert p[1..] == rest;
    }
  }

  lemma LinkValue(e: Node, u: string, m: string, t: Tuple, room: int, sem: Semantics)
    requires IsLink(e, u, m) && IsLower(u) && IsLower(m)
    ensures LinkTrue(t, u, m, sem) ==> Holds(e, t, room, sem)
  {
    LowerNames();
    if IsColumn(e.kids[0], u, "id") && IsColumn(e.kids[1], m, "user_id") {
      ColumnValue(e.kids[0], u, "id", t, room, sem);
      ColumnValue(e.kids[1], m, "user_id", t, room, sem);
    } else {
      ColumnValue(e.kids[1], u, "id", t, room, sem);
      ColumnValue(e.kids[0], m, "user_id", t, room, sem);
    }
  }

  lemma ScopeValue(e: Node, a: string, table: string, t: Tuple, room: int, sem: Semantics)
    requires table != "users" && IsScope(e, a, ScopeColumn(table).value) && IsLower(a)
    requires a in t && t[a].Some? && InRoom(table, t[a].value, room, sem)
    ensures Holds(e, t, room, sem)
  {
    var c := ScopeColumn(table).value;
    LowerNames();
    var i := if IsColumn(e.kids[0], a, c) && IsRoomMarker(e.kids[1]) then 0 else 1;
    ColumnValue(e.kids[i], a, c, t, room, sem);
    assert Eval(e.kids[1 - i], t, room, sem) == Int(room);
  }

  // ---- a database with one member and one other user ----

  const ROOM := 7

  function RoomRow(): Row { map["id" := Int(ROOM), "room_id" := Int(ROOM), "user_id" := Int(1)] }
  function UserRow(id: int): Row { map["id" := Int(id)] }

  ghost function TwoUsers(): Database {
    map table | table in TABLES :: if table == "users" then [UserRow(1), UserRow(2)] else [RoomRow()]
  }

  /** v takes the user outside the room, every other users alias the member. */
  function RowFor(table: string, a: string, v: string): Row {
    if table != "users" then RoomRow() else if a == v then UserRow(2) else UserRow(1)
  }

  lemma RowInTable(table: string, a: string, v: string)
    requires table in TABLES
    ensures RowFor(table, a, v) in TableRows(TwoUsers(), table)
  {
    assert UserRow(1) == [UserRow(1), UserRow(2)][0] && UserRow(2) == [UserRow(1), UserRow(2)][1];
  }

  /** The tuple that takes these rows, and leaves a table out where the ON refuses its row. */
  ghost function Witness(q: Query, v: string, k: nat, sem: Semantics): Tuple
    requires k <= |q.joins|
  {
    if k == 0 then map[q.first.alias := Some(RowFor(q.first.table, q.first.alias, v))]
    else
      var j := q.joins[k - 1];
      var before := Witness(q, v, k - 1, sem);
      var matched := before[j.ref.alias := Some(RowFor(j.ref.table, j.ref.alias, v))];
      if OnHolds(j.on, matched, ROOM, sem) then matched else before[j.ref.alias := None]
  }

  ghost predicate KnownTables(q: Query) {
    q.first.table in TABLES && forall k :: 0 <= k < |q.joins| ==> q.joins[k].ref.table in TABLES
  }

  /** The queries the result is about, and the alias whose links do not bind. */
  ghost predicate Loose(q: Query, v: string) {
    && DistinctAliases(q) && KnownTables(q) && PlainQuery(q)
    && (forall a :: a in AllAliases(q) ==> IsLower(a))
    && IsUser(q, v) && OnlyLoosely(q, v)
  }

  /** What the tuple looks like after k joins: only optional users aliases other than v are empty,
      and only once v and some room_members alias are there. */
  ghost predicate WitnessOk(q: Query, v: string, k: nat, t: Tuple)
    requires k <= |q.joins|
  {
    && t.Keys == Aliases(q, k).Keys
    && (forall a :: a in t ==> SlotFits(q, v, k, a, t[a]))
  }

  ghost predicate SlotFits(q: Query, v: string, k: nat, a: string, slot: Option<Row>)
    requires k <= |q.joins|
  {
    a in Aliases(q, k)
    && match slot
       case Some(r) => r == RowFor(Aliases(q, k)[a], a, v)
       case None => a != v && Optional(q, a) && v in Aliases(q, k) && exists m :: m in Aliases(q, k) && IsMember(q, m)
  }

  /** A link term the tuple does not meet is v's, or that of an empty alias. */
  lemma FailingLink(q: Query, v: string, k: nat, t: Tuple, e: Node, u: string, m: string, sem: Semantics)
    requires Loose(q, v) && k <= |q.joins| && WitnessOk(q, v, k, t)
    requires LinkLeaf(e, Aliases(q, k), u, m) && !Holds(e, t, ROOM, sem)
    ensures u in t && (u == v || t[u] == None)
    ensures IsUser(q, u) && IsMember(q, m) && !LinkTrue(t, u, m, sem)
  {
    hide IsLink, PlainQuery, OnlyLoosely, Required;
    AliasesGrow(q, k, |q.joins|);
    LinkValue(e, u, m, t, ROOM, sem);
    assert SlotFits(q, v, k, u, t[u]) && SlotFits(q, v, k, m, t[m]);
  }

  lemma ScopesHold(q: Query, v: string, k: nat, t: Tuple, e: Node, a: string, sem: Semantics)
    requires Loose(q, v) && k <= |q.joins| && WitnessOk(q, v, k, t) && ScopeLeaf(e, Aliases(q, k), a)
    ensures Holds(e, t, ROOM, sem)
  {
    hide IsScope, PlainQuery, OnlyLoosely;
    AliasesGrow(q, k, |q.joins|);
    assert SlotFits(q, v, k, a, t[a]);
    assert InRoom(Aliases(q, k)[a], RoomRow(), ROOM, sem);
    ScopeValue(e, a, Aliases(q, k)[a], t, ROOM, sem);
  }

  /** The WHERE holds of the whole tuple. */
  lemma WitnessWhere(q: Query, v: string, t: Tuple, sem: Semantics)
    requires Loose(q, v) && WitnessOk(q, v, |q.joins|, t)
    ensures OnHolds(q.cond, t, ROOM, sem)
  {
    hide IsLink, IsScope;
    if q.cond.Some? && !Holds(q.cond.value, t, ROOM, sem) {
      var p := FailingLeaf(q.cond.value, AllAliases(q), t, ROOM, sem);
      var e := At(q.cond.value, p);
      if u, m :| LinkLeaf(e, AllAliases(q), u, m) {
        assert u in t && SlotFits(q, v, |q.joins|, u, t[u]);
        FailingLink(q, v, |q.joins|, t, e, u, m, sem);
        LinkFound(q.cond.value, p, u, m);
        WhereRequired(q, u, m);
      } else {
        var a :| ScopeLeaf(e, AllAliases(q), a);
        ScopesHold(q, v, |q.joins|, t, e, a, sem);
      }
    }
  }

  // ---- one join further ----

  /** Where the ON refuses the row, a term of v or of an empty alias is to blame, the join is a
      LEFT JOIN of an optional alias, and no other row would do. */
  lemma Refused(q: Query, v: string, k: nat, before: Tuple, sem: Semantics) returns (u: string, m: string)
    requires Loose(q, v) && 0 < k <= |q.joins| && WitnessOk(q, v, k - 1, before)
    requires var j := q.joins[k - 1];
             !OnHolds(j.on, before[j.ref.alias := Some(RowFor(j.ref.table, j.ref.alias, v))], ROOM, sem)
    ensures var j := q.joins[k - 1];
            && j.side == Left && j.ref.alias != v && Optional(q, j.ref.alias)
            && v in Aliases(q, k - 1) && m in Aliases(q, k - 1) && IsMember(q, m)
            && LinkTerm(j.on, u, m) && u in Aliases(q, k - 1) && !LinkTrue(before, u, m, sem)
  {
    hide IsLink, IsScope, OnlyLoosely, Holds, LinkTerm, Optional, LinkTrue, WitnessOk;
    var j := q.joins[k - 1];
    var a := j.ref.alias;
    var t := before[a := Some(RowFor(j.ref.table, a, v))];
    MatchedOk(q, v, k, before);
    var p := FailingLeaf(j.on.value, Aliases(q, k), t, ROOM, sem);
    var e := At(j.on.value, p);
    if b :| ScopeLeaf(e, Aliases(q, k), b) {
      ScopesHold(q, v, k, t, e, b, sem);
    }
    u, m :| LinkLeaf(e, Aliases(q, k), u, m);
    FailingLink(q, v, k, t, e, u, m, sem);
    LinkFound(j.on.value, p, u, m);
    BlamedBefore(q, v, k, before, u, m, sem);
  }

  lemma LinkFound(n: Node, p: Path, u: string, m: string)
    requires ValidPath(n, p) && Conjunct(n, p) && IsLink(At(n, p), u, m)
    ensures LinkTerm(Some(n), u, m)
  {
  }

  /** The term to blame is about aliases already there, whatever the new slot holds. */
  lemma BlamedBefore(q: Query, v: string, k: nat, before: Tuple, u: string, m: string, sem: Semantics)
    requires Loose(q, v) && 0 < k <= |q.joins| && WitnessOk(q, v, k - 1, before) && LinkedAt(q, k - 1, u, m)
    requires IsUser(q, u)
    requires var a := q.joins[k - 1].ref.alias;
             var t := before[a := Some(RowFor(q.joins[k - 1].ref.table, a, v))];
             (u == v || (u in t && t[u] == None)) && !LinkTrue(t, u, m, sem)
    ensures var j := q.joins[k - 1];
            && j.side == Left && j.ref.alias != v && Optional(q, j.ref.alias)
            && v in Aliases(q, k - 1) && m in Aliases(q, k - 1) && IsMember(q, m)
            && u in Aliases(q, k - 1) && !LinkTrue(before, u, m, sem)
  {
    hide LinkTerm, PlainQuery, OnlyLoosely, Required;
    RefusedSide(q, v, k, before, u, m);
    assert FreshAlias(q, k - 1);
    AliasesGrow(q, k - 1, |q.joins|);
    AliasesGrow(q, k, |q.joins|);
  }

  lemma MatchedOk(q: Query, v: string, k: nat, before: Tuple)
    requires DistinctAliases(q) && 0 < k <= |q.joins| && WitnessOk(q, v, k - 1, before)
    ensures var j := q.joins[k - 1];
            WitnessOk(q, v, k, before[j.ref.alias := Some(RowFor(j.ref.table, j.ref.alias, v))])
  {
    assert FreshAlias(q, k - 1);
    AliasesGrow(q, k - 1, k);
    var a := q.joins[k - 1].ref.alias;
    forall b | b in before
      ensures SlotFits(q, v, k, b, before[b])
    {
      assert SlotFits(q, v, k - 1, b, before[b]);
    }
  }

  lemma RefusedSide(q: Query, v: string, k: nat, before: Tuple, u: string, m: string)
    requires Loose(q, v) && 0 < k <= |q.joins| && WitnessOk(q, v, k - 1, before)
    requires LinkedAt(q, k - 1, u, m) && (u == v || (u in before && before[u] == None))
    ensures var j := q.joins[k - 1];
            j.side == Left && j.ref.alias != v && Optional(q, j.ref.alias) && v in Aliases(q, k - 1)
  {
    hide LinkTerm, PlainQuery, Required;
    if u == v {
      assert q.joins[k - 1].ref.alias != v;
    } else {
      assert SlotFits(q, v, k - 1, u, None);
      EmptySide(q, v, k, u, m);
    }
  }

  /** An empty alias is linked only in a LEFT JOIN of an optional alias. */
  lemma EmptySide(q: Query, v: string, k: nat, u: string, m: string)
    requires Loose(q, v) && 0 < k <= |q.joins| && LinkedAt(q, k - 1, u, m) && SlotFits(q, v, k - 1, u, None)
    ensures var j := q.joins[k - 1];
            j.side == Left && j.ref.alias != v && Optional(q, j.ref.alias) && v in Aliases(q, k - 1)
  {
    hide LinkTerm, PlainQuery, OnlyLoosely, RequiredIn, Required;
    var w := q.joins[k - 1].ref.alias;
    assert FreshAlias(q, k - 1);
    AliasesGrow(q, k - 1, |q.joins|);
    AliasesGrow(q, k, |q.joins|);
    if q.joins[k - 1].side == Inner || (q.joins[k - 1].side == Left && Required(q, w)) {
      JoinRequired(q, k - 1, u, m);
    }
    if q.joins[k - 1].side == Right {
      var b :| b in Aliases(q, k - 1) && IsMember(q, b);
      assert RightLink(q, k - 1, u);
      RightRequired(q, k - 1, u, b);
    }
    if !IsUser(q, w) { ScopedRequired(q, w); }
  }

  lemma RefusedOk(q: Query, v: string, k: nat, before: Tuple, m: string)
    requires DistinctAliases(q) && 0 < k <= |q.joins| && WitnessOk(q, v, k - 1, before)
    requires q.joins[k - 1].ref.alias != v && Optional(q, q.joins[k - 1].ref.alias)
    requires v in Aliases(q, k - 1) && m in Aliases(q, k - 1) && IsMember(q, m)
    ensures WitnessOk(q, v, k, before[q.joins[k - 1].ref.alias := None])
  {
    hide Optional;
    assert FreshAlias(q, k - 1);
    AliasesGrow(q, k - 1, k);
    forall b | b in before
      ensures SlotFits(q, v, k, b, before[b])
    {
      assert SlotFits(q, v, k - 1, b, before[b]);
    }
  }

  lemma {:induction false} FlatMapHas<A, B>(s: seq<A>, f: A -> seq<B>, x: A, y: B)
    requires x in s && y in f(x)
    ensures y in FlatMap(s, f)
  {
    if x != s[0] {
      FlatMapHas(s[1..], f, x, y);
    }
  }

  /** A tuple and a row that match are joined, whatever the side. */
  lemma MatchJoined(j: JoinClause, rows: seq<Row>, ls: seq<Tuple>, nulls: Tuple, l: Tuple, r: Row, sem: Semantics)
    requires l in ls && r in rows && OnHolds(j.on, l[j.ref.alias := Some(r)], ROOM, sem)
    ensures l[j.ref.alias := Some(r)] in JoinStep(j, rows, ls, nulls, ROOM, sem)
  {
    hide FlatMap, OnHolds;
    var a, on, t := j.ref.alias, OnTest(j, ROOM, sem), l[j.ref.alias := Some(r)];
    assert t in Match(t, on);
    FlatMapHas(rows, ExtendOf(l, a, on), r, t);
    FlatMapHas(ls, ExtendLeftOf(a, r, on), l, t);
    match j.side
    case Inner => FlatMapHas(ls, InnerOf(a, rows, on), l, t);
    case Left =>
      assert t in Extend(l, a, rows, on);
      FlatMapHas(ls, LeftOf(a, rows, on), l, t);
    case Right =>
      assert t in ExtendLeft(ls, a, r, on);
      FlatMapHas(rows, RightOf(ls, a, on, nulls), r, t);
  }

  lemma {:induction false} NothingMapped<A(!new), B>(s: seq<A>, f: A -> seq<B>)
    requires forall x :: f(x) == []
    ensures FlatMap(s, f) == []
  {
    if s != [] { NothingMapped(s[1..], f); }
  }

  /** A tuple that no row matches is kept by a LEFT JOIN. */
  lemma UnmatchedJoined(j: JoinClause, rows: seq<Row>, ls: seq<Tuple>, nulls: Tuple, l: Tuple, sem: Semantics)
    requires j.side == Left && l in ls && forall r :: !OnHolds(j.on, l[j.ref.alias := Some(r)], ROOM, sem)
    ensures l[j.ref.alias := None] in JoinStep(j, rows, ls, nulls, ROOM, sem)
  {
    hide FlatMap, OnHolds;
    var a, on := j.ref.alias, OnTest(j, ROOM, sem);
    forall r
      ensures ExtendOf(l, a, on)(r) == []
    {
      assert !on(l[a := Some(r)]);
    }
    NothingMapped(rows, ExtendOf(l, a, on));
    assert LeftOf(a, rows, on)(l) == [l[a := None]];
    FlatMapHas(ls, LeftOf(a, rows, on), l, l[a := None]);
  }

  lemma StillRefused(q: Query, k: nat, before: Tuple, u: string, m: string, r: Row, sem: Semantics)
    requires 0 < k <= |q.joins| && LinkTerm(q.joins[k - 1].on, u, m) && !LinkTrue(before, u, m, sem)
    requires u != q.joins[k - 1].ref.alias && m != q.joins[k - 1].ref.alias && IsLower(u) && IsLower(m)
    ensures !OnHolds(q.joins[k - 1].on, before[q.joins[k - 1].ref.alias := Some(r)], ROOM, sem)
  {
    var t := before[q.joins[k - 1].ref.alias := Some(r)];
    if Holds(q.joins[k - 1].on.value, t, ROOM, sem) {
      LinkForced(q.joins[k - 1].on.value, u, m, t, ROOM, sem);
    }
  }

  lemma WitnessFirst(q: Query, v: string, sem: Semantics)
    requires Loose(q, v)
    ensures Witness(q, v, 0, sem) in Joined(TwoUsers(), q, 0, ROOM, sem) && WitnessOk(q, v, 0, Witness(q, v, 0, sem))
  {
    RowInTable(q.first.table, q.first.alias, v);
    FromHas(q.first.alias, TableRows(TwoUsers(), q.first.table), RowFor(q.first.table, q.first.alias, v));
  }

  lemma MatchedJoined(q: Query, v: string, k: nat, before: Tuple, sem: Semantics)
    requires Loose(q, v) && 0 < k <= |q.joins| && before in Joined(TwoUsers(), q, k - 1, ROOM, sem)
    requires var j := q.joins[k - 1];
             OnHolds(j.on, before[j.ref.alias := Some(RowFor(j.ref.table, j.ref.alias, v))], ROOM, sem)
    ensures var j := q.joins[k - 1];
            before[j.ref.alias := Some(RowFor(j.ref.table, j.ref.alias, v))] in Joined(TwoUsers(), q, k, ROOM, sem)
  {
    hide OnHolds, JoinStep, TwoUsers, OnlyLoosely, PlainQuery, RowFor;
    var j := q.joins[k - 1];
    RowInTable(j.ref.table, j.ref.alias, v);
    MatchJoined(j, TableRows(TwoUsers(), j.ref.table), Joined(TwoUsers(), q, k - 1, ROOM, sem), NullTuple(q, k - 1),
                before, RowFor(j.ref.table, j.ref.alias, v), sem);
  }

  /** The joins do produce the tuple. */
  lemma {:induction false} WitnessJoined(q: Query, v: string, k: nat, sem: Semantics)
    requires Loose(q, v) && k <= |q.joins|
    ensures Witness(q, v, k, sem) in Joined(TwoUsers(), q, k, ROOM, sem) && WitnessOk(q, v, k, Witness(q, v, k, sem))
    decreases k
  {
    hide OnHolds, Joined, TwoUsers, WitnessOk, OnlyLoosely, PlainQuery, Optional, LinkTerm, RowFor, LinkTrue;
    if k == 0 {
      WitnessFirst(q, v, sem);
    } else {
      WitnessJoined(q, v, k - 1, sem);
      var j, before := q.joins[k - 1], Witness(q, v, k - 1, sem);
      if OnHolds(j.on, before[j.ref.alias := Some(RowFor(j.ref.table, j.ref.alias, v))], ROOM, sem) {
        MatchedJoined(q, v, k, before, sem);
        MatchedOk(q, v, k, before);
      } else {
        var u, m := Refused(q, v, k, before, sem);
        RefusedOk(q, v, k, before, m);
        RefusedJoined(q, v, k, before, u, m, sem);
      }
    }
  }

  lemma RefusedJoined(q: Query, v: string, k: nat, before: Tuple, u: string, m: string, sem: Semantics)
    requires Loose(q, v) && 0 < k <= |q.joins| && before in Joined(TwoUsers(), q, k - 1, ROOM, sem)
    requires q.joins[k - 1].side == Left && LinkTerm(q.joins[k - 1].on, u, m)
    requires m in Aliases(q, k - 1) && u in Aliases(q, k - 1) && !LinkTrue(before, u, m, sem)
    ensures before[q.joins[k - 1].ref.alias := None] in Joined(TwoUsers(), q, k, ROOM, sem)
  {
    hide Joined, JoinStep, OnHolds, TwoUsers, LinkTerm, LinkTrue;
    var j := q.joins[k - 1];
    assert u != j.ref.alias && m != j.ref.alias && IsLower(u) && IsLower(m) by { Older(q, v, k, u, m); }
    forall r
      ensures !OnHolds(j.on, before[j.ref.alias := Some(r)], ROOM, sem)
    {
      StillRefused(q, k, before, u, m, r, sem);
    }
    JoinedLeft(q, k, before, sem);
  }

  lemma Older(q: Query, v: string, k: nat, u: string, m: string)
    requires Loose(q, v) && 0 < k <= |q.joins| && u in Aliases(q, k - 1) && m in Aliases(q, k - 1)
    ensures u != q.joins[k - 1].ref.alias && m != q.joins[k - 1].ref.alias && IsLower(u) && IsLower(m)
  {
    assert FreshAlias(q, k - 1);
    AliasesGrow(q, k - 1, |q.joins|);
  }

  lemma JoinedLeft(q: Query, k: nat, before: Tuple, sem: Semantics)
    requires 0 < k <= |q.joins| && before in Joined(TwoUsers(), q, k - 1, ROOM, sem) && q.joins[k - 1].side == Left
    requires forall r :: !OnHolds(q.joins[k - 1].on, before[q.joins[k - 1].ref.alias := Some(r)], ROOM, sem)
    ensures before[q.joins[k - 1].ref.alias := None] in Joined(TwoUsers(), q, k, ROOM, sem)
  {
    hide JoinStep, OnHolds, TwoUsers;
    UnmatchedJoined(q.joins[k - 1], TableRows(TwoUsers(), q.joins[k - 1].ref.table),
                    Joined(TwoUsers(), q, k - 1, ROOM, sem),
                    NullTuple(q, k - 1), before, sem);
  }

  lemma {:induction false} FromHas(a: string, rows: seq<Row>, r: Row)
    requires r in rows
    ensures map[a := Some(r)] in FromRows(a, rows)
  {
    if r != rows[0] { FromHas(a, rows[1..], r); }
  }

  // ---- the result ----

  ghost predicate Isolated(db: Database, q: Query, room: int, sem: Semantics) {
    Survivors(db, q, room, sem) == Survivors(Restrict(db, room, sem), q, room, sem)
  }

  lemma StrayUser(sem: Semantics)
    ensures UserRow(2) !in TableRows(Restrict(TwoUsers(), ROOM, sem), "users")
  {
    hide Restrict;
    RestrictedRows(TwoUsers(), "users", ROOM, sem);
    FilterMember(TableRows(TwoUsers(), "users"), KeepTest(TwoUsers(), "users", ROOM, sem), UserRow(2));
    forall m | m in TableRows(TwoUsers(), "room_members")
      ensures Equal(Get(UserRow(2), "id"), Get(m, "user_id"), sem) != True
    {
      assert m == RoomRow();
    }
  }

  /** A loosely linked alias lets the tuple through that the room's own database does not have. */
  lemma LooseDiffers(q: Query, v: string, sem: Semantics)
    requires Loose(q, v)
    ensures !Isolated(TwoUsers(), q, ROOM, sem)
  {
    hide Joined, TwoUsers, Restrict, OnHolds, OnlyLoosely, PlainQuery;
    var n := |q.joins|;
    var t, d := Witness(q, v, n, sem), Restrict(TwoUsers(), ROOM, sem);
    WitnessJoined(q, v, n, sem);
    WitnessWhere(q, v, t, sem);
    FilterMember(Joined(TwoUsers(), q, n, ROOM, sem), CondTest(q, ROOM, sem), t);
    FilterMember(Joined(d, q, n, ROOM, sem), CondTest(q, ROOM, sem), t);
    assert SlotFits(q, v, n, v, t[v]);
    StrayUser(sem);
    if t in Joined(d, q, n, ROOM, sem) {
      AllSlots(d, q, n, ROOM, sem, t);
    }
  }

  /** Exactness: a scoped query made of scope and link terms gives every database and its
      restriction to any room the same tuples if and only if its links bind. */
  lemma LinksExact(q: Query)
    requires DistinctAliases(q) && KnownTables(q) && PlainQuery(q) && Scoped(q)
    requires forall a :: a in AllAliases(q) ==> IsLower(a)
    ensures LinksBind(q) <==> forall db, room, sem :: Isolated(db, q, room, sem)
  {
    hide PlainQuery, Scoped, LinksBind, OnlyLoosely, Survivors, Restrict;
    LooseLinks(q);
    if LinksBind(q) {
      forall db, room, sem
        ensures Isolated(db, q, room, sem)
      {
        assert Resolved(q);
        RoomIsolation(db, q, room, sem);
      }
    } else {
      var v :| IsUser(q, v) && OnlyLoosely(q, v);
      var sem := Semantics(s => s, s => 0.0, s => false, (k, vs) => Null);
      LooseDiffers(q, v, sem);
    }
  }
}
