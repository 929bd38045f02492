/** What a single-level SELECT reads: three-valued conditions, rows, and joins as nested
    loops. Everything MySQL decides that the argument does not depend on (collations,
    text-to-number conversion, the value of every other operator) is a parameter. */
module SqlSemantics {
  import opened SqlAst
  import opened Options

  type Row = map<string, Value>
  type Database = map<string, seq<Row>>

  /** One row of the joined table: each alias holds a row, or None where an outer join
      found no match. */
  type Tuple = map<string, Option<Row>>

  datatype Semantics = Semantics(
    collate: string -> string,
    number: string -> real,
    truth: string -> bool,
    apply: (Kind, seq<Value>) -> Value)

  // ---- names ----

  function LowerChar(c: char): char { if 'A' <= c <= 'Z' then c + 'a' - 'A' else c }
  function UpperChar(c: char): char { if 'a' <= c <= 'z' then c - 'a' + 'A' else c }

  function Lower(s: string): (r: string)
    ensures |r| == |s|
  {
    seq(|s|, i requires 0 <= i < |s| => LowerChar(s[i]))
  }

  function Upper(s: string): (r: string)
    ensures |r| == |s|
  {
    seq(|s|, i requires 0 <= i < |s| => UpperChar(s[i]))
  }

  lemma LowerTwice(s: string)
    ensures Lower(Lower(s)) == Lower(s)
  {
  }

  const ROOM_MARKER := "__ROOM_ID__"

  predicate IsRoomMarker(n: Node) {
    n.kind.Column? && n.kind.table == "" && Upper(n.kind.column) == ROOM_MARKER
  }

  predicate IsColumn(n: Node, alias: string, column: string) {
    n.kind.Column? && Lower(n.kind.table) == Lower(alias) && Lower(n.kind.column) == Lower(column)
  }

  // ---- conditions ----

  datatype Tri = True | False | Unknown

  function AndTri(a: Tri, b: Tri): Tri {
    if a == False || b == False then False else if a == True && b == True then True else Unknown
  }

  function NotTri(a: Tri): Tri {
    match a case True => False case False => True case Unknown => Unknown
  }

  function OrTri(a: Tri, b: Tri): Tri { NotTri(AndTri(NotTri(a), NotTri(b))) }

  function FromTri(a: Tri): Value {
    match a case True => Int(1) case False => Int(0) case Unknown => Null
  }

  function Truth(v: Value, sem: Semantics): Tri {
    match v
    case Null => Unknown
    case Int(n) => if n == 0 then False else True
    case Text(s) => if sem.truth(s) then True else False
  }

  function Equal(a: Value, b: Value, sem: Semantics): Tri {
    match (a, b)
    case (Int(m), Int(n)) => if m == n then True else False
    case (Text(s), Text(t)) => if sem.collate(s) == sem.collate(t) then True else False
    case (Int(m), Text(t)) => if m as real == sem.number(t) then True else False
    case (Text(s), Int(n)) => if n as real == sem.number(s) then True else False
    case _ => Unknown
  }

  function Lookup(t: Tuple, alias: string, column: string): Value {
    if alias in t && t[alias].Some? && column in t[alias].value then t[alias].value[column] else Null
  }

  function Get(r: Row, column: string): Value { if column in r then r[column] else Null }

  function Eval(e: Node, t: Tuple, room: int, sem: Semantics): Value {
    match e.kind
    case Column(table, column) =>
      if IsRoomMarker(e) then Int(room) else Lookup(t, Lower(table), Lower(column))
    case Literal(v) => v
    case Paren => if |e.kids| == 1 then Eval(e.kids[0], t, room, sem) else Null
    case EQ =>
      if |e.kids| == 2 then
        FromTri(Equal(Eval(e.kids[0], t, room, sem), Eval(e.kids[1], t, room, sem), sem))
      else Null
    case And =>
      if |e.kids| == 2 then
        FromTri(AndTri(Truth(Eval(e.kids[0], t, room, sem), sem), Truth(Eval(e.kids[1], t, room, sem), sem)))
      else Null
    case Or =>
      if |e.kids| == 2 then
        FromTri(OrTri(Truth(Eval(e.kids[0], t, room, sem), sem), Truth(Eval(e.kids[1], t, room, sem), sem)))
      else Null
    case Not => if |e.kids| == 1 then FromTri(NotTri(Truth(Eval(e.kids[0], t, room, sem), sem))) else Null
    case _ => sem.apply(e.kind, seq(|e.kids|, i requires 0 <= i < |e.kids| => Eval(e.kids[i], t, room, sem)))
  }

  predicate Holds(cond: Node, t: Tuple, room: int, sem: Semantics) {
    Truth(Eval(cond, t, room, sem), sem) == True
  }

  /** p is reached from the root of cond through AND and parentheses only. */
  predicate Conjunct(cond: Node, p: Path)
    requires ValidPath(cond, p)
  {
    p == [] || ((cond.kind.And? || cond.kind.Paren?) && Conjunct(cond.kids[p[0]], p[1..]))
  }

  /** If a condition is TRUE then so is each of its conjuncts. */
  lemma {:induction false} ConjunctForced(cond: Node, p: Path, t: Tuple, room: int, sem: Semantics)
    requires ValidPath(cond, p) && Conjunct(cond, p) && Holds(cond, t, room, sem)
    ensures Holds(At(cond, p), t, room, sem)
  {
    if p != [] {
      ConjunctForced(cond.kids[p[0]], p[1..], t, room, sem);
    }
  }

  lemma EqForced(e: Node, t: Tuple, room: int, sem: Semantics)
    requires e.kind.EQ? && Holds(e, t, room, sem)
    ensures |e.kids| == 2
    ensures Equal(Eval(e.kids[0], t, room, sem), Eval(e.kids[1], t, room, sem), sem) == True
    ensures Equal(Eval(e.kids[1], t, room, sem), Eval(e.kids[0], t, room, sem), sem) == True
  {
  }

  // ---- joins ----

  datatype TableRef = TableRef(table: string, alias: string)
  datatype JoinClause = JoinClause(side: Side, ref: TableRef, on: Option<Node>)
  datatype Query = Query(first: TableRef, joins: seq<JoinClause>, cond: Option<Node>)

  function Filter<T>(s: seq<T>, p: T -> bool): seq<T> {
    if s == [] then [] else (if p(s[0]) then [s[0]] else []) + Filter(s[1..], p)
  }

  function FlatMap<A, B>(s: seq<A>, f: A -> seq<B>): seq<B> {
    if s == [] then [] else f(s[0]) + FlatMap(s[1..], f)
  }

  /** The tuple, if it meets the join condition. */
  function Match(t: Tuple, on: Tuple -> bool): seq<Tuple> { if on(t) then [t] else [] }

  /** l joined with each row that matches it. */
  function ExtendOf(l: Tuple, a: string, on: Tuple -> bool): Row -> seq<Tuple> { r => Match(l[a := Some(r)], on) }
  function Extend(l: Tuple, a: string, rows: seq<Row>, on: Tuple -> bool): seq<Tuple> {
    FlatMap(rows, ExtendOf(l, a, on))
  }

  function InnerOf(a: string, rows: seq<Row>, on: Tuple -> bool): Tuple -> seq<Tuple> {
    l => Extend(l, a, rows, on)
  }
  function InnerJoin(ls: seq<Tuple>, a: string, rows: seq<Row>, on: Tuple -> bool): seq<Tuple> {
    FlatMap(ls, InnerOf(a, rows, on))
  }

  /** A tuple without a match is kept, with an empty slot. */
  function LeftOf(a: string, rows: seq<Row>, on: Tuple -> bool): Tuple -> seq<Tuple> {
    l => var ms := Extend(l, a, rows, on); if ms == [] then [l[a := None]] else ms
  }
  function LeftJoin(ls: seq<Tuple>, a: string, rows: seq<Row>, on: Tuple -> bool): seq<Tuple> {
    FlatMap(ls, LeftOf(a, rows, on))
  }

  /** Each tuple that row r matches, joined with it. */
  function ExtendLeftOf(a: string, r: Row, on: Tuple -> bool): Tuple -> seq<Tuple> { l => Match(l[a := Some(r)], on) }
  function ExtendLeft(ls: seq<Tuple>, a: string, r: Row, on: Tuple -> bool): seq<Tuple> {
    FlatMap(ls, ExtendLeftOf(a, r, on))
  }

  /** The right-hand table drives the loop; nulls stands in for a missing left side. */
  function RightOf(ls: seq<Tuple>, a: string, on: Tuple -> bool, nulls: Tuple): Row -> seq<Tuple> {
    r => var ms := ExtendLeft(ls, a, r, on); if ms == [] then [nulls[a := Some(r)]] else ms
  }
  function RightJoin(ls: seq<Tuple>, a: string, rows: seq<Row>, on: Tuple -> bool, nulls: Tuple): seq<Tuple> {
    FlatMap(rows, RightOf(ls, a, on, nulls))
  }

  function TableRows(db: Database, table: string): seq<Row> { if table in db then db[table] else [] }

  /** The aliases in scope after k joins, with their tables. */
  function Aliases(q: Query, k: nat): map<string, string>
    requires k <= |q.joins|
  {
    if k == 0 then map[q.first.alias := q.first.table]
    else Aliases(q, k - 1)[q.joins[k - 1].ref.alias := q.joins[k - 1].ref.table]
  }

  function AllAliases(q: Query): map<string, string> { Aliases(q, |q.joins|) }

  predicate FreshAlias(q: Query, k: nat)
    requires k < |q.joins|
  {
    q.joins[k].ref.alias !in Aliases(q, k)
  }

  predicate DistinctAliases(q: Query) {
    forall k :: 0 <= k < |q.joins| ==> FreshAlias(q, k)
  }

  function NullTuple(q: Query, k: nat): (t: Tuple)
    requires k <= |q.joins|
    ensures t.Keys == Aliases(q, k).Keys && forall a :: a in t ==> t[a] == None
  {
    map a | a in Aliases(q, k).Keys :: None
  }

  predicate OnHolds(on: Option<Node>, t: Tuple, room: int, sem: Semantics) {
    on.None? || Holds(on.value, t, room, sem)
  }

  function OnTest(j: JoinClause, room: int, sem: Semantics): Tuple -> bool {
    t => OnHolds(j.on, t, room, sem)
  }

  function JoinStep(j: JoinClause, rows: seq<Row>, ls: seq<Tuple>, nulls: Tuple, room: int,
                    sem: Semantics): seq<Tuple> {
    var on := OnTest(j, room, sem);
    match j.side
    case Inner => InnerJoin(ls, j.ref.alias, rows, on)
    case Left => LeftJoin(ls, j.ref.alias, rows, on)
    case Right => RightJoin(ls, j.ref.alias, rows, on, nulls)
  }

  function FromRows(a: string, rows: seq<Row>): seq<Tuple> {
    if rows == [] then [] else [map[a := Some(rows[0])]] + FromRows(a, rows[1..])
  }

  function Joined(db: Database, q: Query, k: nat, room: int, sem: Semantics): seq<Tuple>
    requires k <= |q.joins|
  {
    if k == 0 then FromRows(q.first.alias, TableRows(db, q.first.table))
    else
      var j := q.joins[k - 1];
      JoinStep(j, TableRows(db, j.ref.table), Joined(db, q, k - 1, room, sem), NullTuple(q, k - 1), room, sem)
  }

  function CondTest(q: Query, room: int, sem: Semantics): Tuple -> bool {
    t => OnHolds(q.cond, t, room, sem)
  }

  /** The tuples that projection, grouping, ordering and LIMIT then work on, in order. */
  function Survivors(db: Database, q: Query, room: int, sem: Semantics): seq<Tuple> {
    Filter(Joined(db, q, |q.joins|, room, sem), CondTest(q, room, sem))
  }

  // ---- the query a SELECT node stands for ----

  function RefOf(n: Node): TableRef {
    if n.kind.Table? then
      TableRef(Lower(n.kind.name), Lower(if n.kind.alias != "" then n.kind.alias else n.kind.name))
    else TableRef("", "")
  }

  function JoinOf(n: Node): JoinClause
    requires n.kind.Join? && |n.kids| >= 1
  {
    JoinClause(n.kind.side, RefOf(n.kids[0]), if |n.kids| >= 2 then Some(n.kids[1]) else None)
  }

  function JoinsOf(kids: seq<Node>): seq<JoinClause> {
    if kids == [] then []
    else (if kids[0].kind.Join? && |kids[0].kids| >= 1 then [JoinOf(kids[0])] else []) + JoinsOf(kids[1..])
  }

  function FirstOf(kids: seq<Node>): TableRef {
    if kids == [] then TableRef("", "")
    else if kids[0].kind.From? && |kids[0].kids| >= 1 then RefOf(kids[0].kids[0])
    else FirstOf(kids[1..])
  }

  function CondOf(kids: seq<Node>): Option<Node> {
    if kids == [] then None
    else if kids[0].kind.Where? && |kids[0].kids| == 1 then Some(kids[0].kids[0])
    else CondOf(kids[1..])
  }

  function QueryOf(select: Node): Query {
    Query(FirstOf(select.kids), JoinsOf(select.kids), CondOf(select.kids))
  }
}
