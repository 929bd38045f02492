/** A statement that the validator accepts and whose link does not bind: the link of u stands only
    in the ON of a LEFT JOIN that brings in another users alias. */
module RoomOuterJoins {
  import opened SqlAst
  import opened SqlSemantics
  import opened RoomSchema
  import opened RoomLinks
  import opened RoomScope
  import opened RoomQuery
  import opened RoomExact
  import opened RoomGuarantee
  import opened Options

  function Col(table: string, column: string): Node { Node(Column(table, column), []) }
  function Eq(a: Node, b: Node): Node { Node(EQ, [a, b]) }
  function TableNode(name: string, alias: string): Node { Node(Table(name, alias), []) }
  function Marker(): Node { Col("", ROOM_MARKER) }

  function OnNode(): Node {
    Node(And, [Eq(Col("u", "id"), Col("rm", "user_id")), Eq(Col("w", "id"), Col("rm", "user_id"))])
  }
  function ScopeNode(): Node { Eq(Col("rm", "room_id"), Marker()) }

  function FromNode(): Node { Node(From, [TableNode("room_members", "rm")]) }
  function CrossNode(): Node { Node(Join(Inner), [TableNode("users", "u")]) }
  function LeftNode(): Node { Node(Join(Left), [TableNode("users", "w"), OnNode()]) }
  function WhereNode(): Node { Node(Where, [ScopeNode()]) }

  /** SELECT u.id FROM room_members rm CROSS JOIN users u
      LEFT JOIN users w ON u.id = rm.user_id AND w.id = rm.user_id WHERE rm.room_id = __ROOM_ID__ */
  function OuterSelect(): Node {
    Node(Select, [Col("u", "id"), FromNode(), CrossNode(), LeftNode(), WhereNode()])
  }

  lemma Names()
    ensures IsRoomMarker(Marker())
    ensures Lower("rm") == "rm" && Lower("u") == "u" && Lower("w") == "w"
    ensures Lower("id") == "id" && Lower("user_id") == "user_id" && Lower("room_id") == "room_id"
    ensures Lower("users") == "users" && Lower("room_members") == "room_members"
  {
    assert Upper(ROOM_MARKER) == ROOM_MARKER;
  }

  // ---- the query it stands for ----

  function OuterQuery(): Query {
    Query(TableRef("room_members", "rm"),
          [JoinClause(Inner, TableRef("users", "u"), None), JoinClause(Left, TableRef("users", "w"), Some(OnNode()))],
          Some(ScopeNode()))
  }

  lemma SelectQuery()
    ensures QueryOf(OuterSelect()) == OuterQuery()
  {
    hide OnNode, ScopeNode;
    Names();
    var ks := OuterSelect().kids;
    assert ks[1..] == [FromNode(), CrossNode(), LeftNode(), WhereNode()];
    assert ks[1..][1..] == [CrossNode(), LeftNode(), WhereNode()];
    assert ks[1..][1..][1..] == [LeftNode(), WhereNode()];
    assert ks[1..][1..][1..][1..] == [WhereNode()];
    assert ks[1..][1..][1..][1..][1..] == [];
    assert JoinOf(CrossNode()) == JoinClause(Inner, TableRef("users", "u"), None);
    assert JoinOf(LeftNode()) == JoinClause(Left, TableRef("users", "w"), Some(OnNode()));
    assert JoinsOf([LeftNode(), WhereNode()]) == [JoinOf(LeftNode())];
    assert JoinsOf([CrossNode(), LeftNode(), WhereNode()]) == [JoinOf(CrossNode()), JoinOf(LeftNode())];
    assert CondOf([LeftNode(), WhereNode()]) == Some(ScopeNode());
    assert CondOf(ks[1..]) == Some(ScopeNode());
  }

  lemma OuterAliases()
    ensures AllAliases(OuterQuery()) == map["rm" := "room_members", "u" := "users", "w" := "users"]
    ensures Aliases(OuterQuery(), 2) == AllAliases(OuterQuery())
    ensures DistinctAliases(OuterQuery())
  {
    var q := OuterQuery();
    assert Aliases(q, 0) == map["rm" := "room_members"];
    assert Aliases(q, 1) == map["rm" := "room_members", "u" := "users"];
    assert Aliases(q, 2) == map["rm" := "room_members", "u" := "users", "w" := "users"];
  }

  // ---- its links ----

  /** A single equality has no terms but itself. */
  lemma OneTerm(e: Node, p: Path)
    requires e.kind.EQ? && ValidPath(e, p) && Conjunct(e, p)
    ensures p == []
  {
  }

  lemma NoWhereLink(x: string, m: string)
    ensures !LinkTerm(OuterQuery().cond, x, m)
  {
    Names();
    forall p | ValidPath(ScopeNode(), p) && Conjunct(ScopeNode(), p)
      ensures !IsLink(At(ScopeNode(), p), x, m)
    {
      OneTerm(ScopeNode(), p);
    }
  }

  lemma ConditionsPlain()
    ensures PlainQuery(OuterQuery())
  {
    Names();
    OuterAliases();
    var q := OuterQuery();
    var scope := AllAliases(q);
    assert ScopeLeaf(ScopeNode(), scope, "rm");
    assert LinkLeaf(OnNode().kids[0], scope, "u", "rm") && LinkLeaf(OnNode().kids[1], scope, "w", "rm");
    assert Plain(OnNode().kids[0], scope) && Plain(OnNode().kids[1], scope);
    assert Plain(q.joins[1].on.value, Aliases(q, 2));
  }

  /** w can be required only by its own LEFT JOIN, which w would have to be required for. */
  lemma {:induction false} NotRequired(n: nat)
    ensures !RequiredIn(OuterQuery(), "w", n)
  {
    hide LinkTerm, OnNode, ScopeNode;
    var q := OuterQuery();
    OuterAliases();
    forall m
      ensures !LinkTerm(q.cond, "w", m)
    {
      NoWhereLink("w", m);
    }
    if n > 0 {
      NotRequired(n - 1);
      forall k, m | LinkedAt(q, k, "w", m)
        ensures !Forced(q, k, n - 1)
      {
        OnlyLeft(k, "w", m);
      }
    }
  }

  /** Only the LEFT JOIN carries links. */
  lemma OnlyLeft(k: int, x: string, m: string)
    requires LinkedAt(OuterQuery(), k, x, m)
    ensures k == 1
  {
  }

  lemma OuterLoose()
    ensures Loose(OuterQuery(), "u")
  {
    hide LinkTerm, PlainQuery, RequiredIn, OnNode, ScopeNode;
    var q := OuterQuery();
    Names();
    OuterAliases();
    ConditionsPlain();
    assert Optional(q, "w") by {
      forall n: nat
        ensures !RequiredIn(q, "w", n)
      {
        NotRequired(n);
      }
    }
    forall m
      ensures !LinkTerm(q.cond, "u", m)
    {
      NoWhereLink("u", m);
    }
    forall k, m | LinkedAt(q, k, "u", m)
      ensures k == 1
    {
      OnlyLeft(k, "u", m);
    }
  }

  // ---- it passes every check ----

  predicate SimpleColumn(n: Node) {
    n in {Col("u", "id"), Col("rm", "user_id"), Col("w", "id"), Col("rm", "room_id"), Marker()}
  }

  predicate SimpleTable(n: Node) {
    n in {TableNode("room_members", "rm"), TableNode("users", "u"), TableNode("users", "w")}
  }

  predicate Simple(n: Node) {
    match n.kind
    case From | Join(_) | Where | EQ | And => true
    case Column(_, _) => SimpleColumn(n)
    case Table(_, _) => SimpleTable(n)
    case _ => false
  }

  predicate AllSimple(n: Node) { Simple(n) && forall i :: 0 <= i < |n.kids| ==> AllSimple(n.kids[i]) }

  lemma {:induction false} SimpleAt(n: Node, p: Path)
    requires AllSimple(n) && ValidPath(n, p)
    ensures Simple(At(n, p))
  {
    if p != [] { SimpleAt(n.kids[p[0]], p[1..]); }
  }

  lemma LeavesSimple()
    ensures forall n :: SimpleColumn(n) || SimpleTable(n) ==> AllSimple(n)
    ensures AllSimple(ScopeNode()) && AllSimple(OnNode())
  {
    assert forall n :: SimpleColumn(n) || SimpleTable(n) ==> AllSimple(n);
    assert AllSimple(OnNode().kids[0]) && AllSimple(OnNode().kids[1]);
  }

  lemma Below(p: Path)
    requires ValidPath(OuterSelect(), p) && p != []
    ensures Simple(At(OuterSelect(), p))
  {
    hide OnNode, ScopeNode;
    LeavesSimple();
    assert AllSimple(FromNode()) && AllSimple(CrossNode()) && AllSimple(LeftNode()) && AllSimple(WhereNode());
    SimpleAt(OuterSelect().kids[p[0]], p[1..]);
  }

  lemma LeafShaped(n: Node)
    requires n.kids == [] && (n.kind.Column? || n.kind.Table?)
    ensures Shaped(n)
  {
  }

  lemma EqShaped(a: Node, b: Node)
    requires a.kind.Column? && b.kind.Column? && a.kids == [] && b.kids == []
    ensures Shaped(Eq(a, b))
  {
    LeafShaped(a);
    LeafShaped(b);
  }

  lemma ConditionsShaped()
    ensures Shaped(ScopeNode()) && Shaped(OnNode()) && OnNode().kind.And? && ScopeNode().kind.EQ?
  {
    EqShaped(Col("rm", "room_id"), Marker());
    EqShaped(Col("u", "id"), Col("rm", "user_id"));
    EqShaped(Col("w", "id"), Col("rm", "user_id"));
    hide Eq, Col, Marker;
    assert Eq(Col("u", "id"), Col("rm", "user_id")).kind.EQ?
             && Eq(Col("w", "id"), Col("rm", "user_id")).kind.EQ? by { EqKinds(); }
  }

  lemma EqKinds()
    ensures forall a, b :: Eq(a, b).kind == EQ
  {
  }

  lemma KidsShaped()
    ensures forall i :: 0 <= i < 5 ==> Shaped(OuterSelect().kids[i])
  {
    hide OnNode, ScopeNode;
    ConditionsShaped();
    LeafShaped(Col("u", "id"));
    LeafShaped(TableNode("room_members", "rm"));
    LeafShaped(TableNode("users", "u"));
    LeafShaped(TableNode("users", "w"));
    assert Shaped(FromNode()) && Shaped(CrossNode()) && Shaped(LeftNode()) && Shaped(WhereNode());
  }

  lemma OuterShaped()
    ensures Shaped(OuterSelect())
  {
    KidsShaped();
    OuterArity();
    hide Arity, OnNode, ScopeNode;
    var s := OuterSelect();
    assert forall i :: 0 <= i < |s.kids| ==> KidAllowed(s.kind, i, s.kids[i].kind);
  }

  lemma OuterArity()
    ensures Arity(OuterSelect())
  {
    hide OnNode, ScopeNode, Shaped;
    var s := OuterSelect();
    assert s.kids[1].kind.From? && s.kids[2].kind == Join(Inner);
    assert s.kids[0].kind.Column? && s.kids[3].kind == Join(Left) && s.kids[4].kind.Where?;
  }

  lemma OuterSingle()
    ensures SingleLevel(OuterSelect()) && NoIntoLock(OuterSelect()) && StarsOk(OuterSelect())
    ensures FunctionsOk(OuterSelect())
  {
    var s := OuterSelect();
    forall p | IsNode(s, p)
      ensures NestOk(s, p) && PlainRead(s, p) && StarOk(s, p) && FunctionOk(s, p)
    {
      if p != [] { Below(p); }
    }
  }

  lemma TableNodes()
    ensures var s := OuterSelect();
            && TableAt(s, [1, 0]) && RefOf(At(s, [1, 0])) == TableRef("room_members", "rm")
            && TableAt(s, [2, 0]) && RefOf(At(s, [2, 0])) == TableRef("users", "u")
            && TableAt(s, [3, 0]) && RefOf(At(s, [3, 0])) == TableRef("users", "w")
    ensures forall p :: TableAt(OuterSelect(), p) ==> p in {[1, 0], [2, 0], [3, 0]}
  {
    hide OnNode, ScopeNode, SingleLevel, Shaped;
    Names();
    var s := OuterSelect();
    TwoSteps(s, 1, 0);
    TwoSteps(s, 2, 0);
    TwoSteps(s, 3, 0);
    OuterShaped();
    OuterSingle();
    forall p | TableAt(s, p)
      ensures p in {[1, 0], [2, 0], [3, 0]}
    {
      TablePosition(s, p);
      assert p == [p[0], 0];
    }
  }

  lemma OuterTables()
    ensures HasTable(OuterSelect()) && TablesOk(OuterSelect())
  {
    hide RefOf, OuterSelect;
    TableNodes();
  }

  lemma OuterColumns()
    ensures ColumnsOk(OuterSelect())
  {
    hide RefOf;
    Names();
    TableNodes();
    var s := OuterSelect();
    forall p | IsNode(s, p)
      ensures ColumnOk(s, p)
    {
      if p != [] {
        Below(p);
        ColumnExposed(p);
      }
    }
  }

  lemma ColumnExposed(p: Path)
    requires IsNode(OuterSelect(), p) && Simple(At(OuterSelect(), p))
    ensures ColumnOk(OuterSelect(), p)
  {
    hide RefOf, OuterSelect;
    Names();
    TableNodes();
    var n := At(OuterSelect(), p);
    if n.kind.Column? {
      assert SimpleColumn(n);
      assert "id" in Columns("users") && "user_id" in Columns("room_members") && "room_id" in Columns("room_members");
    }
  }

  /** The scope equality is the WHERE's only equality, so the search finds it. */
  lemma ScopeFound()
    ensures ScopeEquality(OuterSelect(), "rm", "room_id") == Some([4, 0])
  {
    hide OnNode, GlueBelow, Nodes, FirstScope;
    Names();
    var s := OuterSelect();
    WhereIsFour();
    OneStep(s.kids[4], 0);
    TwoSteps(s, 4, 0);
    assert [4] + [0] == [4, 0];
    NothingBetween(s, [4, 0]);
    NodesMembers(s.kids[4], [0]);
    assert WhereScope(s, 4, [0], "rm", "room_id");
    FirstScopeFinds(s, 4, Nodes(s.kids[4]), "rm", "room_id");
    var p :| WhereScope(s, 4, p, "rm", "room_id")
             && FirstScope(s, 4, Nodes(s.kids[4]), "rm", "room_id").value == [4] + p;
    OnlyEquality(p);
  }

  lemma WhereIsFour()
    ensures WhereKid(OuterSelect().kids) == Some(4)
  {
    var w := WhereKid(OuterSelect().kids);
    assert OuterSelect().kids[4].kind.Where?;
  }

  lemma NothingBetween(s: Node, p: Path)
    requires ValidPath(s, p) && |p| == 2
    ensures GlueBelow(s, p, 1)
  {
  }

  lemma LeafEnds(n: Node, p: Path)
    requires n.kids == [] && ValidPath(n, p)
    ensures p == []
  {
  }

  /** The nodes of the WHERE: itself, its equality, and the two sides. */
  lemma WhereNodes(p: Path)
    requires ValidPath(WhereNode(), p)
    ensures p == [] || p == [0] || p == [0, 0] || p == [0, 1]
    ensures p == [0] ==> At(WhereNode(), p) == ScopeNode()
    ensures p == [0, 0] ==> At(WhereNode(), p) == Col("rm", "room_id")
  {
    if p != [] {
      var r := p[1..];
      assert p == [0] + r && ValidPath(ScopeNode(), r);
      if r != [] {
        LeafEnds(ScopeNode().kids[r[0]], r[1..]);
        assert r == [r[0]] && p == [0, r[0]];
        TwoSteps(WhereNode(), 0, r[0]);
      }
    }
  }

  lemma OnlyEquality(p: Path)
    requires ValidPath(WhereNode(), p) && At(WhereNode(), p).kind.EQ?
    ensures p == [0]
  {
    WhereNodes(p);
    if p == [0, 1] { assert At(WhereNode(), p) == Marker() by { TwoSteps(WhereNode(), 0, 1); } }
  }

  lemma OuterScopes()
    ensures ScopesOk(OuterSelect())
  {
    hide RefOf, OuterSelect, ScopeEquality;
    TableNodes();
    ScopeFound();
  }

  /** Both links stand in the ON, whose join is a clause of this SELECT. */
  lemma OuterUsers()
    ensures UsersOk(OuterSelect())
  {
    hide RefOf, OuterSelect, LinkedIn;
    TableNodes();
    LinkFoundAt(0, "u");
    LinkFoundAt(1, "w");
  }

  lemma LinkFoundAt(i: nat, x: string)
    requires (i == 0 && x == "u") || (i == 1 && x == "w")
    ensures LinkedIn(OuterSelect(), x, "rm")
  {
    hide ScopeNode;
    Names();
    var s, p := OuterSelect(), [3, 1, i];
    TwoSteps(s, 3, 1);
    OneStep(s, 3);
    OneStep(At(s, [3, 1]), i);
    AtAppend(s, [3, 1], [i]);
    assert [3, 1] + [i] == p && p[..2] == [3, 1] && p[..1] == [3];
    assert At(s, p) == OnNode().kids[i] && IsLink(At(s, p), x, "rm");
    Climb(i);
    assert LinkPosition(s, p, x, "rm");
  }

  lemma Climb(i: nat)
    requires i < 2
    ensures var s, p := OuterSelect(), [3, 1, i];
            ValidPath(s, p) && Ancestor(s, p, SelectKind) == Some([]) && ConditionTerm(s, p)
  {
    hide ScopeNode, Eq;
    var s, p := OuterSelect(), [3, 1, i];
    TwoSteps(s, 3, 1);
    OneStep(s, 3);
    OneStep(At(s, [3, 1]), i);
    AtAppend(s, [3, 1], [i]);
    assert [3, 1] + [i] == p && p[..2] == [3, 1] && p[..1] == [3] && [3, 1][..1] == [3] && [3][..0] == [];
    assert Ancestor(s, [3], SelectKind) == Some([]);
    assert Ancestor(s, [3, 1], SelectKind) == Some([]);
    assert Ancestor(s, p, SelectKind) == Some([]);
    assert Glue(s, p, 2) && ClauseAt(s, p, 1) && OwnSelect(s, p, 1);
    forall j: nat | 1 < j < |p|
      ensures Glue(s, p, j)
    {
      assert j == 2;
    }
  }

  predicate NoMarker(n: Node) { !IsRoomMarker(n) && forall i :: 0 <= i < |n.kids| ==> NoMarker(n.kids[i]) }

  lemma {:induction false} NoMarkerAt(n: Node, p: Path)
    requires NoMarker(n) && ValidPath(n, p)
    ensures !IsRoomMarker(At(n, p))
  {
    if p != [] { NoMarkerAt(n.kids[p[0]], p[1..]); }
  }

  lemma NamedColumns(table: string, column: string)
    requires table != ""
    ensures NoMarker(Col(table, column))
  {
  }

  lemma NoMarkersBefore(i: nat)
    requires i < 4
    ensures NoMarker(OuterSelect().kids[i])
  {
    hide Col;
    NamedColumns("u", "id");
    NamedColumns("w", "id");
    NamedColumns("rm", "user_id");
    assert NoMarker(OnNode().kids[0]) && NoMarker(OnNode().kids[1]);
    assert NoMarker(OnNode());
    assert NoMarker(FromNode()) && NoMarker(CrossNode()) && NoMarker(LeftNode());
  }

  lemma MarkerPlace(p: Path)
    requires ValidPath(OuterSelect(), p) && IsRoomMarker(At(OuterSelect(), p))
    ensures p == [4, 0, 1]
  {
    hide OnNode;
    var s := OuterSelect();
    assert p != [];
    if p[0] < 4 {
      NoMarkersBefore(p[0]);
      NoMarkerAt(s.kids[p[0]], p[1..]);
    } else {
      InWhere(p[1..]);
      assert p == [4] + p[1..];
    }
  }

  lemma InWhere(p: Path)
    requires ValidPath(WhereNode(), p) && IsRoomMarker(At(WhereNode(), p))
    ensures p == [0, 1]
  {
    WhereNodes(p);
  }

  lemma OuterMarkers()
    ensures MarkersOk(OuterSelect())
  {
    hide RefOf, ScopeEquality, IsRoomMarker;
    var s := OuterSelect();
    TableNodes();
    ScopeFound();
    forall p | IsNode(s, p)
      ensures MarkerOk(s, p)
    {
      if IsRoomMarker(At(s, p)) {
        MarkerPlace(p);
        MarkerEquality();
        assert ScopeFor(s, [1, 0]) == Some([4, 0]);
      }
    }
  }

  lemma MarkerEquality()
    ensures ValidPath(OuterSelect(), [4, 0, 1]) && Ancestor(OuterSelect(), [4, 0, 1], EqKind) == Some([4, 0])
  {
    hide OnNode;
    var s := OuterSelect();
    TwoSteps(s, 4, 0);
    OneStep(At(s, [4, 0]), 1);
    AtAppend(s, [4, 0], [1]);
    assert [4, 0] + [1] == [4, 0, 1] && [4, 0, 1][..2] == [4, 0];
  }

  lemma OuterAccepted(maxRows: nat)
    ensures AcceptedSelect(OuterSelect(), maxRows)
  {
    hide SingleLevel, NoIntoLock, HasTable, TablesOk, StarsOk, ColumnsOk, FunctionsOk,
           ScopesOk, UsersOk, MarkersOk, Shaped;
    OuterShaped();
    ShapedParsed(OuterSelect());
    OuterSingle();
    OuterTables();
    OuterColumns();
    OuterScopes();
    OuterUsers();
    OuterMarkers();
    assert LimitKid(OuterSelect().kids).None?;
  }

  /** The validator accepts the statement, its links do not bind, and with any collation and any
      conversions there is a database whose restriction to a room gives it other tuples. */
  lemma OuterLinkMayNotBind(maxRows: nat, sem: Semantics)
    ensures AcceptedSelect(OuterSelect(), maxRows) && !LinksBind(QueryOf(OuterSelect()))
    ensures !Isolated(TwoUsers(), QueryOf(OuterSelect()), ROOM, sem)
  {
    hide Isolated, LinksBind, OuterSelect, OuterQuery, OnlyLoosely;
    OuterAccepted(maxRows);
    SelectQuery();
    OuterLoose();
    LooseLinks(OuterQuery());
    LooseDiffers(OuterQuery(), "u", sem);
  }
}
