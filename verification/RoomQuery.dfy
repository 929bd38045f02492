/** validate_room_select, on the parsed statement: the checks in their order, with the loops
    over found nodes and the climbs towards the root. */
module RoomQuery {
  import opened SqlAst
  import opened SqlSemantics
  import opened RoomSchema
  import opened RoomLinks
  import opened RoomScope
  import opened Options

  datatype Error =
    | NotOneSelect | Nested | IntoOrLock | NoTable | UnknownTable | DuplicateAlias | BareStar
    | Unqualified | UnknownAlias | UnknownColumn | FunctionNotAllowed | MissingScope
    | UnlinkedUser | StrayMarker | LimitNotInteger | LimitTooLarge

  datatype Verdict = Accepted(statement: Node) | Rejected(error: Error)

  // ---- parsed trees ----

  /** An equality has its two sides, and a LIMIT its value. */
  predicate Parsed(n: Node) {
    && (n.kind.EQ? ==> |n.kids| == 2)
    && (n.kind.Limit? ==> |n.kids| >= 1)
    && (forall i :: 0 <= i < |n.kids| ==> Parsed(n.kids[i]))
  }

  lemma {:induction false} ParsedAt(n: Node, p: Path)
    requires Parsed(n) && ValidPath(n, p)
    ensures Parsed(At(n, p))
  {
    if p != [] {
      ParsedAt(n.kids[p[0]], p[1..]);
    }
  }

  // ---- climbing ----

  function Parent(p: Path): Option<Path> { if p == [] then None else Some(p[..|p| - 1]) }

  /** The node k steps down the way to p is AND or a parenthesis. */
  predicate Glue(s: Node, p: Path, k: nat)
    requires ValidPath(s, p) && k <= |p|
  {
    PrefixValid(s, p, k);
    KindAt(s, p[..k]).And? || KindAt(s, p[..k]).Paren?
  }

  predicate ClauseAt(s: Node, p: Path, k: nat)
    requires ValidPath(s, p) && k <= |p|
  {
    PrefixValid(s, p, k);
    KindAt(s, p[..k]).Where? || KindAt(s, p[..k]).Join?
  }

  /** Only glue lies strictly between the k-th step and p. */
  predicate GlueBelow(s: Node, p: Path, k: int)
    requires ValidPath(s, p)
  {
    forall j: nat :: k < j < |p| ==> Glue(s, p, j)
  }

  predicate SelectKind(k: Kind) { k.Select? }
  predicate CountKind(k: Kind) { k.Count? }
  predicate EqKind(k: Kind) { k.EQ? }

  /** find_ancestor: the nearest proper ancestor of the wanted kind. */
  function Ancestor(s: Node, p: Path, want: Kind -> bool): (a: Option<Path>)
    requires ValidPath(s, p)
    ensures a.Some? ==> ValidPath(s, a.value) && want(KindAt(s, a.value))
    decreases |p|
  {
    if p == [] then None
    else
      var q := p[..|p| - 1];
      PrefixValid(s, p, |p| - 1);
      if want(KindAt(s, q)) then Some(q) else Ancestor(s, q, want)
  }

  method IsUnconditionalWhereTerm(s: Node, equality: Path, where: Path) returns (b: bool)
    requires ValidPath(s, equality) && ValidPath(s, where)
    ensures b <==> |where| < |equality| && where == equality[..|where|] && GlueBelow(s, equality, |where|)
  {
    var current := Parent(equality);
    while current.Some? && current.value != where
      invariant current.Some? ==> |current.value| < |equality| && current.value == equality[..|current.value|]
      invariant var c := if current.Some? then |current.value| else -1;
                GlueBelow(s, equality, c)
                && forall k :: c < k < |equality| ==> equality[..k] != where
      decreases if current.Some? then |current.value| + 1 else 0
    {
      PrefixValid(s, equality, |current.value|);
      var kind := KindAt(s, current.value);
      assert Glue(s, equality, |current.value|) == (kind.And? || kind.Paren?);
      if !(kind.And? || kind.Paren?) {
        return false;
      }
      current := Parent(current.value);
    }
    b := current == Some(where);
  }

  /** Some WHERE or JOIN of the statement itself holds p under nothing but glue. */
  predicate ConditionTerm(s: Node, p: Path)
    requires ValidPath(s, p)
  {
    exists k :: 0 < k < |p| && ClauseAt(s, p, k) && GlueBelow(s, p, k) && OwnSelect(s, p, k)
  }

  predicate OwnSelect(s: Node, p: Path, k: nat)
    requires ValidPath(s, p) && k <= |p|
  {
    PrefixValid(s, p, k);
    Ancestor(s, p[..k], SelectKind) == Some([])
  }

  method IsUnconditionalConditionTerm(s: Node, equality: Path) returns (b: bool)
    requires ValidPath(s, equality)
    ensures b <==> ConditionTerm(s, equality)
  {
    var current := Parent(equality);
    while current.Some? && current.value != []
      invariant current.Some? ==> |current.value| < |equality| && current.value == equality[..|current.value|]
      invariant current.None? ==> equality == []
      invariant current.Some? ==> GlueBelow(s, equality, |current.value|)
      decreases if current.Some? then |current.value| + 1 else 0
    {
      var c := |current.value|;
      PrefixValid(s, equality, c);
      var kind := KindAt(s, current.value);
      if kind.And? || kind.Paren? {
        assert Glue(s, equality, c) && !ClauseAt(s, equality, c);
        current := Parent(current.value);
        continue;
      }
      if kind.Where? || kind.Join? {
        b := Ancestor(s, current.value, SelectKind) == Some([]);
        assert ClauseAt(s, equality, c) && OwnSelect(s, equality, c) == b;
        OnlyClause(s, equality, c);
        return;
      }
      assert !Glue(s, equality, c) && !ClauseAt(s, equality, c);
      OnlyClause(s, equality, c);
      return false;
    }
    NoClause(s, equality);
    b := false;
  }

  /** The climb can only stop at its first node that is not glue. */
  lemma OnlyClause(s: Node, p: Path, c: nat)
    requires ValidPath(s, p) && 0 < c < |p| && GlueBelow(s, p, c) && !Glue(s, p, c)
    ensures ConditionTerm(s, p) <==> ClauseAt(s, p, c) && OwnSelect(s, p, c)
  {
    forall k | 0 < k < |p| && ClauseAt(s, p, k) && GlueBelow(s, p, k)
      ensures k == c
    {
      assert k > c ==> Glue(s, p, k);
    }
  }

  lemma NoClause(s: Node, p: Path)
    requires ValidPath(s, p) && (|p| > 0 ==> GlueBelow(s, p, 0))
    ensures !ConditionTerm(s, p)
  {
    forall k | 0 < k < |p|
      ensures !ClauseAt(s, p, k)
    {
      assert Glue(s, p, k);
    }
  }

  // ---- the scope and link terms ----

  function WhereKid(kids: seq<Node>): (w: Option<nat>)
    ensures w.Some? ==> w.value < |kids| && kids[w.value].kind.Where?
    ensures w.None? ==> forall i :: 0 <= i < |kids| ==> !kids[i].kind.Where?
  {
    if kids == [] then None
    else if kids[0].kind.Where? then Some(0)
    else
      var rest := WhereKid(kids[1..]);
      assert forall i :: 1 <= i < |kids| ==> kids[i] == kids[1..][i - 1];
      if rest.None? then None else Some(rest.value + 1)
  }

  ghost predicate WhereScope(s: Node, w: nat, p: Path, alias: string, column: string)
    requires w < |s.kids|
  {
    && ValidPath(s.kids[w], p) && IsScope(At(s.kids[w], p), alias, column)
    && ValidPath(s, [w] + p) && GlueBelow(s, [w] + p, 1) && p != []
  }

  /** The first scope term met by the search, as a position in the statement. */
  ghost function FirstScope(s: Node, w: nat, ps: seq<Path>, alias: string, column: string): Option<Path>
    requires w < |s.kids|
  {
    if ps == [] then None
    else if WhereScope(s, w, ps[0], alias, column) then Some([w] + ps[0])
    else FirstScope(s, w, ps[1..], alias, column)
  }

  /** _where_room_scope_equality */
  ghost function ScopeEquality(s: Node, alias: string, column: string): Option<Path> {
    var w := WhereKid(s.kids);
    if w.None? then None else FirstScope(s, w.value, Nodes(s.kids[w.value]), alias, column)
  }

  lemma {:induction false} FirstScopeFinds(s: Node, w: nat, ps: seq<Path>, alias: string, column: string)
    requires w < |s.kids|
    ensures var r := FirstScope(s, w, ps, alias, column);
            && (r.Some? <==> exists p :: p in ps && WhereScope(s, w, p, alias, column))
            && (r.Some? ==> exists p :: WhereScope(s, w, p, alias, column) && r.value == [w] + p)
  {
    if ps != [] {
      FirstScopeFinds(s, w, ps[1..], alias, column);
      assert ps[0] in ps;
    }
  }

  method IsScopeMatch(e: Node, alias: string, column: string) returns (b: bool)
    requires e.kind.EQ? && |e.kids| == 2
    ensures b == IsScope(e, alias, column)
  {
    var left, right := e.kids[0], e.kids[1];
    b := (IsColumn(left, alias, column) && IsRoomMarker(right))
         || (IsColumn(right, alias, column) && IsRoomMarker(left));
  }

  method WhereRoomScopeEquality(s: Node, alias: string, column: string) returns (r: Option<Path>)
    requires Parsed(s)
    ensures r == ScopeEquality(s, alias, column)
  {
    var w := WhereKid(s.kids);
    if w.None? {
      return None;
    }
    var where := s.kids[w.value];
    var nodes := Nodes(where);
    for i := 0 to |nodes|
      invariant FirstScope(s, w.value, nodes, alias, column) == FirstScope(s, w.value, nodes[i..], alias, column)
    {
      var p := nodes[i];
      NodesMembers(where, p);
      ParsedAt(where, p);
      assert nodes[i..][0] == p && nodes[i..][1..] == nodes[i + 1..];
      assert ValidPath(s, [w.value] + p) && At(s, [w.value] + p) == At(where, p) by {
        AtAppend(s, [w.value], p);
        assert ValidPath(s, [w.value]) && At(s, [w.value]) == where;
      }
      var e := At(where, p);
      if e.kind.EQ? {
        var matches := IsScopeMatch(e, alias, column);
        var unconditional := IsUnconditionalWhereTerm(s, [w.value] + p, [w.value]);
        assert ([w.value] + p)[..1] == [w.value];
        if matches && unconditional {
          return Some([w.value] + p);
        }
      }
    }
    r := None;
  }

  /** _has_equality, for users.id and room_members.user_id */
  ghost predicate LinkedIn(s: Node, user: string, member: string) {
    exists p :: LinkPosition(s, p, user, member)
  }

  ghost predicate LinkPosition(s: Node, p: Path, user: string, member: string) {
    ValidPath(s, p) && IsLink(At(s, p), user, member)
    && Ancestor(s, p, SelectKind) == Some([]) && ConditionTerm(s, p)
  }

  method IsLinkMatch(e: Node, user: string, member: string) returns (b: bool)
    requires e.kind.EQ? && |e.kids| == 2
    ensures b == IsLink(e, user, member)
  {
    var left, right := e.kids[0], e.kids[1];
    b := (IsColumn(left, user, "id") && IsColumn(right, member, "user_id"))
         || (IsColumn(right, user, "id") && IsColumn(left, member, "user_id"));
  }

  method HasEquality(s: Node, user: string, member: string) returns (b: bool)
    requires Parsed(s)
    ensures b == LinkedIn(s, user, member)
  {
    hide ConditionTerm, IsColumn;
    var nodes := Nodes(s);
    for i := 0 to |nodes|
      invariant forall j :: 0 <= j < i ==> !LinkPosition(s, nodes[j], user, member)
    {
      var p := nodes[i];
      NodesMembers(s, p);
      ParsedAt(s, p);
      var e := At(s, p);
      if e.kind.EQ? && Ancestor(s, p, SelectKind) == Some([]) {
        var matches := IsLinkMatch(e, user, member);
        var unconditional := IsUnconditionalConditionTerm(s, p);
        if matches && unconditional {
          assert LinkPosition(s, p, user, member);
          return true;
        }
      }
    }
    forall p | LinkPosition(s, p, user, member)
      ensures false
    {
      NodesMembers(s, p);
    }
    b := false;
  }

  // ---- the checks, in the order they are made ----

  const CHECKS := 12

  function CheckOf(e: Error): nat {
    match e
    case NotOneSelect => 1
    case Nested => 2
    case IntoOrLock => 3
    case NoTable => 4
    case UnknownTable | DuplicateAlias => 5
    case BareStar => 6
    case Unqualified | UnknownAlias | UnknownColumn => 7
    case FunctionNotAllowed => 8
    case MissingScope => 9
    case UnlinkedUser => 10
    case StrayMarker => 11
    case LimitNotInteger | LimitTooLarge => 12
  }

  predicate IsNode(s: Node, p: Path) { ValidPath(s, p) }

  /** No SELECT but the statement itself, and no subquery. */
  predicate NestOk(s: Node, p: Path)
    requires IsNode(s, p)
  {
    (KindAt(s, p).Select? ==> p == []) && !KindAt(s, p).Subquery?
  }

  ghost predicate TableAt(s: Node, p: Path) { IsNode(s, p) && KindAt(s, p).Table? }

  ghost predicate TablesOk(s: Node) {
    && (forall p :: TableAt(s, p) ==> RefOf(At(s, p)).table in TABLES)
    && (forall p, q :: TableAt(s, p) && TableAt(s, q) && p != q
          ==> RefOf(At(s, p)).alias != RefOf(At(s, q)).alias)
  }

  ghost predicate ColumnOk(s: Node, p: Path)
    requires IsNode(s, p)
  {
    var n := At(s, p);
    n.kind.Column? && !IsRoomMarker(n) ==>
      && Lower(n.kind.table) != ""
      && exists q :: TableAt(s, q) && RefOf(At(s, q)).alias == Lower(n.kind.table)
                     && Lower(n.kind.column) in Columns(RefOf(At(s, q)).table)
  }

  predicate FunctionOk(s: Node, p: Path)
    requires IsNode(s, p)
  {
    var k := KindAt(s, p);
    k.Func? && k.rendersAsCall ==> Upper(k.func) in ALLOWED_FUNCTIONS
  }

  predicate PlainRead(s: Node, p: Path)
    requires IsNode(s, p)
  {
    !KindAt(s, p).Into? && !KindAt(s, p).Lock?
  }

  ghost predicate StarOk(s: Node, p: Path)
    requires IsNode(s, p)
  {
    KindAt(s, p).Star? ==> Ancestor(s, p, CountKind).Some?
  }

  /** The scope equality the validator takes for the table at q, if it needs and finds one. */
  ghost function ScopeFor(s: Node, q: Path): Option<Path>
    requires IsNode(s, q)
  {
    var ref := RefOf(At(s, q));
    if ScopeColumn(ref.table).None? then None else ScopeEquality(s, ref.alias, ScopeColumn(ref.table).value)
  }

  ghost predicate ScopeOk(s: Node, q: Path)
    requires IsNode(s, q)
  {
    KindAt(s, q).Table? && ScopeColumn(RefOf(At(s, q)).table).Some? ==> ScopeFor(s, q).Some?
  }

  ghost predicate UserOk(s: Node, q: Path)
    requires IsNode(s, q)
  {
    KindAt(s, q).Table? && RefOf(At(s, q)).table == "users" ==>
      exists m :: TableAt(s, m) && RefOf(At(s, m)).table == "room_members"
                  && LinkedIn(s, RefOf(At(s, q)).alias, RefOf(At(s, m)).alias)
  }

  /** A marker stands only inside one of the scope equalities taken. */
  ghost predicate MarkerOk(s: Node, p: Path)
    requires IsNode(s, p)
  {
    IsRoomMarker(At(s, p)) ==>
      Ancestor(s, p, EqKind).Some? && exists q :: TableAt(s, q) && ScopeFor(s, q) == Ancestor(s, p, EqKind)
  }

  function LimitKid(kids: seq<Node>): (w: Option<nat>)
    ensures w.Some? ==> w.value < |kids| && kids[w.value].kind.Limit?
    ensures w.None? ==> forall i :: 0 <= i < |kids| ==> !kids[i].kind.Limit?
  {
    if kids == [] then None
    else if kids[0].kind.Limit? then Some(0)
    else
      var rest := LimitKid(kids[1..]);
      assert forall i :: 1 <= i < |kids| ==> kids[i] == kids[1..][i - 1];
      if rest.None? then None else Some(rest.value + 1)
  }

  predicate LimitValueOk(k: Kind, maxRows: int) { k.Literal? && k.value.Int? && k.value.n <= maxRows }

  predicate LimitOk(s: Node, maxRows: int)
    requires Parsed(s)
  {
    var w := LimitKid(s.kids);
    w.Some? ==> assert Parsed(s.kids[w.value]); LimitValueOk(s.kids[w.value].kids[0].kind, maxRows)
  }

  ghost predicate SingleLevel(s: Node) { forall p :: IsNode(s, p) ==> NestOk(s, p) }
  ghost predicate NoIntoLock(s: Node) { forall p :: IsNode(s, p) ==> PlainRead(s, p) }
  ghost predicate HasTable(s: Node) { exists p :: TableAt(s, p) }
  ghost predicate StarsOk(s: Node) { forall p :: IsNode(s, p) ==> StarOk(s, p) }
  ghost predicate ColumnsOk(s: Node) { forall p :: IsNode(s, p) ==> ColumnOk(s, p) }
  ghost predicate FunctionsOk(s: Node) { forall p :: IsNode(s, p) ==> FunctionOk(s, p) }
  ghost predicate ScopesOk(s: Node) { forall p :: TableAt(s, p) ==> ScopeOk(s, p) }
  ghost predicate UsersOk(s: Node) { forall p :: TableAt(s, p) ==> UserOk(s, p) }
  ghost predicate MarkersOk(s: Node) { forall p :: IsNode(s, p) ==> MarkerOk(s, p) }

  /** The i-th condition on what was parsed. */
  ghost predicate Check(i: nat, stmts: seq<Node>, maxRows: int)
    requires forall s :: s in stmts ==> Parsed(s)
  {
    if i == 1 then |stmts| == 1 && stmts[0].kind.Select?
    else if stmts == [] then false
    else
      match i
      case 2 => SingleLevel(stmts[0])
      case 3 => NoIntoLock(stmts[0])
      case 4 => HasTable(stmts[0])
      case 5 => TablesOk(stmts[0])
      case 6 => StarsOk(stmts[0])
      case 7 => ColumnsOk(stmts[0])
      case 8 => FunctionsOk(stmts[0])
      case 9 => ScopesOk(stmts[0])
      case 10 => UsersOk(stmts[0])
      case 11 => MarkersOk(stmts[0])
      case 12 => LimitOk(stmts[0], maxRows)
      case _ => true
  }

  function WithLimit(s: Node, maxRows: nat): Node {
    if LimitKid(s.kids).None? then
      Node(s.kind, s.kids + [Node(Limit, [Node(Literal(Int(maxRows)), [])])])
    else s
  }

  // ---- one method per check ----

  /** The search as a list: every position once, the root first. */
  method FindAll(s: Node) returns (nodes: seq<Path>)
    ensures forall p :: p in nodes <==> IsNode(s, p)
    ensures NoRepeats(nodes) && |nodes| > 0 && nodes[0] == []
  {
    nodes := Nodes(s);
    LevelsDistinct(s, Height(s));
    RootFirst(s, Height(s));
    forall p
      ensures p in nodes <==> IsNode(s, p)
    {
      NodesMembers(s, p);
    }
  }

  lemma {:induction false} RootFirst(n: Node, d: nat)
    requires d > 0
    ensures |Levels(n, d)| > 0 && Levels(n, d)[0] == []
  {
    if d == 1 {
      assert Levels(n, 0) == [] && Level(n, 0) == [[]];
    } else {
      RootFirst(n, d - 1);
    }
  }

  method CheckNesting(s: Node) returns (ok: bool)
    requires Parsed(s) && s.kind.Select?
    ensures ok <==> SingleLevel(s)
  {
    var nodes := FindAll(s);
    var selects, subqueries := 0, 0;
    ghost var stray: Path := [];
    for i := 0 to |nodes|
      invariant if i == 0 then selects == 0 && subqueries == 0 else selects >= 1
      invariant IsNode(s, stray) && selects >= 0 && subqueries >= 0
      invariant selects > 1 || subqueries > 0 ==> !NestOk(s, stray)
      invariant selects <= 1 && subqueries == 0 ==> forall j :: 0 <= j < i ==> NestOk(s, nodes[j])
    {
      var p := nodes[i];
      assert IsNode(s, p) && (i > 0 ==> nodes[0] != nodes[i]);
      if KindAt(s, p).Select? {
        selects := selects + 1;
      }
      if KindAt(s, p).Subquery? {
        subqueries := subqueries + 1;
      }
      stray := if NestOk(s, p) then stray else p;
    }
    ok := selects == 1 && subqueries == 0;
    if ok {
      forall p | IsNode(s, p)
        ensures NestOk(s, p)
      {
        assert p in nodes;
      }
    }
  }

  method CheckIntoLock(s: Node) returns (ok: bool)
    requires Parsed(s)
    ensures ok <==> NoIntoLock(s)
  {
    var nodes := FindAll(s);
    for i := 0 to |nodes|
      invariant forall j :: 0 <= j < i ==> IsNode(s, nodes[j]) && PlainRead(s, nodes[j])
    {
      assert IsNode(s, nodes[i]);
      if !PlainRead(s, nodes[i]) {
        return false;
      }
    }
    ok := true;
    forall p | IsNode(s, p)
      ensures PlainRead(s, p)
    {
      assert p in nodes;
    }
  }

  method CheckFunctions(s: Node) returns (ok: bool)
    requires Parsed(s)
    ensures ok <==> FunctionsOk(s)
  {
    var nodes := FindAll(s);
    for i := 0 to |nodes|
      invariant forall j :: 0 <= j < i ==> IsNode(s, nodes[j]) && FunctionOk(s, nodes[j])
    {
      assert IsNode(s, nodes[i]);
      if !FunctionOk(s, nodes[i]) {
        return false;
      }
    }
    ok := true;
    forall p | IsNode(s, p)
      ensures FunctionOk(s, p)
    {
      assert p in nodes;
    }
  }

  method CheckStars(s: Node) returns (ok: bool)
    requires Parsed(s)
    ensures ok <==> StarsOk(s)
  {
    var nodes := FindAll(s);
    for i := 0 to |nodes|
      invariant forall j :: 0 <= j < i ==> IsNode(s, nodes[j]) && StarOk(s, nodes[j])
    {
      assert IsNode(s, nodes[i]);
      if KindAt(s, nodes[i]).Star? && Ancestor(s, nodes[i], CountKind).None? {
        assert !StarOk(s, nodes[i]);
        return false;
      }
    }
    ok := true;
    forall p | IsNode(s, p)
      ensures StarOk(s, p)
    {
      assert p in nodes;
    }
  }

  // ---- the alias dictionary ----

  /** aliases is the dictionary filled from the tables at ps: names to tables, all distinct. */
  ghost predicate Dictionary(s: Node, ps: seq<Path>, aliases: map<string, string>, order: seq<string>) {
    && |order| == |ps|
    && (forall i :: 0 <= i < |ps| ==> Entry(s, ps[i], order[i], aliases))
    && (forall i, j :: 0 <= i < j < |ps| ==> order[i] != order[j])
    && (forall a :: a in aliases ==> a in order)
  }

  ghost predicate Entry(s: Node, p: Path, a: string, aliases: map<string, string>) {
    TableAt(s, p) && a == RefOf(At(s, p)).alias && a in aliases
    && aliases[a] == RefOf(At(s, p)).table && aliases[a] in TABLES
  }

  /** The dictionary covers every table of the statement. */
  ghost predicate Covers(s: Node, ps: seq<Path>) { forall p :: TableAt(s, p) <==> p in ps }

  method Tables(s: Node) returns (tables: seq<Path>)
    requires Parsed(s)
    ensures Covers(s, tables) && NoRepeats(tables)
  {
    var nodes := FindAll(s);
    tables := [];
    for i := 0 to |nodes|
      invariant forall p :: p in tables <==> p in nodes[..i] && TableAt(s, p)
      invariant NoRepeats(tables)
    {
      assert IsNode(s, nodes[i]);
      assert nodes[i] !in nodes[..i];
      if KindAt(s, nodes[i]).Table? {
        tables := tables + [nodes[i]];
      }
    }
    assert nodes[..|nodes|] == nodes;
  }

  method FillAliases(s: Node, tables: seq<Path>)
    returns (error: Option<Error>, aliases: map<string, string>, order: seq<string>)
    requires Parsed(s) && Covers(s, tables) && NoRepeats(tables)
    ensures error.None? <==> TablesOk(s)
    ensures error.None? ==> Dictionary(s, tables, aliases, order)
    ensures error.Some? ==> CheckOf(error.value) == 5
  {
    hide RefOf, Dictionary, KindAt;
    aliases, order, error := map[], [], None;
    DictionaryEmpty(s);
    for i := 0 to |tables|
      invariant |order| == i && Dictionary(s, tables[..i], aliases, order)
    {
      var p := tables[i];
      assert TableAt(s, p);
      var ref := RefOf(At(s, p));
      assert tables[..i + 1] == tables[..i] + [p];
      if ref.table !in TABLES {
        return Some(UnknownTable), aliases, order;
      }
      if ref.alias in aliases {
        var j := DictionaryHas(s, tables[..i], aliases, order, ref.alias);
        assert tables[..i][j] == tables[j] != p;
        return Some(DuplicateAlias), aliases, order;
      }
      DictionaryAdd(s, tables[..i], aliases, order, p);
      aliases := aliases[ref.alias := ref.table];
      order := order + [ref.alias];
    }
    assert tables[..|tables|] == tables;
    DictionaryOk(s, tables, aliases, order);
  }

  lemma DictionaryEmpty(s: Node)
    ensures Dictionary(s, [], map[], [])
  {
  }

  lemma DictionaryAdd(s: Node, ps: seq<Path>, aliases: map<string, string>, order: seq<string>, p: Path)
    requires Dictionary(s, ps, aliases, order) && TableAt(s, p)
    requires RefOf(At(s, p)).table in TABLES && RefOf(At(s, p)).alias !in aliases
    ensures var ref := RefOf(At(s, p));
            Dictionary(s, ps + [p], aliases[ref.alias := ref.table], order + [ref.alias])
  {
    hide RefOf;
    var ref := RefOf(At(s, p));
    var qs, wider, longer := ps + [p], aliases[ref.alias := ref.table], order + [ref.alias];
    forall i | 0 <= i < |qs|
      ensures Entry(s, qs[i], longer[i], wider)
    {
      assert i < |ps| ==> Entry(s, ps[i], order[i], aliases);
    }
    forall i, j | 0 <= i < j < |qs|
      ensures longer[i] != longer[j]
    {
      assert Entry(s, ps[i], order[i], aliases);
    }
  }

  lemma DictionaryHas(s: Node, ps: seq<Path>, aliases: map<string, string>, order: seq<string>, a: string)
    returns (j: nat)
    requires Dictionary(s, ps, aliases, order) && a in aliases
    ensures j < |ps| && TableAt(s, ps[j]) && RefOf(At(s, ps[j])).alias == a && order[j] == a
    ensures RefOf(At(s, ps[j])).table == aliases[a]
  {
    hide RefOf;
    assert a in order;
    j :| 0 <= j < |order| && order[j] == a;
    assert Entry(s, ps[j], order[j], aliases);
  }

  lemma DictionaryOk(s: Node, tables: seq<Path>, aliases: map<string, string>, order: seq<string>)
    requires Covers(s, tables) && Dictionary(s, tables, aliases, order)
    ensures TablesOk(s)
  {
    forall p, q | TableAt(s, p) && TableAt(s, q) && p != q
      ensures RefOf(At(s, p)).alias != RefOf(At(s, q)).alias
    {
      var i :| 0 <= i < |tables| && tables[i] == p;
      var j :| 0 <= j < |tables| && tables[j] == q;
      assert Entry(s, p, order[i], aliases) && Entry(s, q, order[j], aliases);
      assert order[i] != order[j];
    }
    forall p | TableAt(s, p)
      ensures RefOf(At(s, p)).table in TABLES
    {
      var i :| 0 <= i < |tables| && tables[i] == p;
      assert Entry(s, p, order[i], aliases);
    }
  }

  // ---- columns, scopes, links and markers ----

  method CheckColumns(s: Node, ghost tables: seq<Path>, aliases: map<string, string>, ghost order: seq<string>)
    returns (error: Option<Error>, markers: seq<Path>)
    requires Covers(s, tables) && Dictionary(s, tables, aliases, order)
    ensures error.None? <==> ColumnsOk(s)
    ensures error.Some? ==> CheckOf(error.value) == 7
    ensures error.None? ==> forall p :: p in markers <==> IsNode(s, p) && IsRoomMarker(At(s, p))
  {
    hide RefOf, Dictionary, Lower, IsRoomMarker;
    var nodes := FindAll(s);
    markers := [];
    for i := 0 to |nodes|
      invariant forall p :: p in markers <==> p in nodes[..i] && IsNode(s, p) && IsRoomMarker(At(s, p))
      invariant forall j :: 0 <= j < i ==> IsNode(s, nodes[j]) && ColumnOk(s, nodes[j])
    {
      var p := nodes[i];
      assert IsNode(s, p) && nodes[..i + 1] == nodes[..i] + [p];
      var column := At(s, p);
      if column.kind.Column? {
        if IsRoomMarker(column) {
          markers := markers + [p];
          continue;
        }
        var alias := Lower(column.kind.table);
        ColumnKnown(s, tables, aliases, order, p);
        if alias == "" {
          return Some(Unqualified), markers;
        }
        if alias !in aliases {
          return Some(UnknownAlias), markers;
        }
        if Lower(column.kind.column) !in Columns(aliases[alias]) {
          return Some(UnknownColumn), markers;
        }
      } else {
        NotMarker(column);
      }
    }
    assert nodes[..|nodes|] == nodes;
    error := None;
    forall p | IsNode(s, p)
      ensures ColumnOk(s, p)
    {
      assert p in nodes;
    }
  }

  lemma NotMarker(n: Node)
    requires !n.kind.Column?
    ensures !IsRoomMarker(n)
  {
  }

  lemma ColumnKnown(s: Node, tables: seq<Path>, aliases: map<string, string>, order: seq<string>, p: Path)
    requires Covers(s, tables) && Dictionary(s, tables, aliases, order)
    requires IsNode(s, p) && At(s, p).kind.Column? && !IsRoomMarker(At(s, p))
    ensures var n := At(s, p);
            ColumnOk(s, p) <==> Lower(n.kind.table) != "" && Lower(n.kind.table) in aliases
                                && Lower(n.kind.column) in Columns(aliases[Lower(n.kind.table)])
  {
    hide RefOf, Lower, Columns, IsRoomMarker;
    var a := Lower(At(s, p).kind.table);
    if a in aliases {
      var j := DictionaryHas(s, tables, aliases, order, a);
    }
    forall q | TableAt(s, q) && RefOf(At(s, q)).alias == a
      ensures a in aliases && aliases[a] == RefOf(At(s, q)).table
    {
      var i :| 0 <= i < |tables| && tables[i] == q;
      assert Entry(s, q, order[i], aliases);
    }
  }

  lemma EntryAt(s: Node, tables: seq<Path>, aliases: map<string, string>, order: seq<string>, i: nat)
    requires Dictionary(s, tables, aliases, order) && i < |tables|
    ensures |order| == |tables| && TableAt(s, tables[i]) && IsNode(s, tables[i])
    ensures order[i] in aliases && RefOf(At(s, tables[i])) == TableRef(aliases[order[i]], order[i])
  {
    hide RefOf;
    assert Entry(s, tables[i], order[i], aliases);
  }

  /** Every scoped alias needs its scope equality; the ones found are the approved ones. */
  method CheckScopes(s: Node, ghost tables: seq<Path>, aliases: map<string, string>, order: seq<string>)
    returns (ok: bool, approved: set<Path>)
    requires Parsed(s) && Covers(s, tables) && Dictionary(s, tables, aliases, order)
    ensures ok <==> ScopesOk(s)
    ensures ok ==> forall e :: e in approved <==> Approved(s, e)
  {
    hide RefOf, Dictionary, ScopeColumn, ScopeEquality;
    DictionarySize(s, tables, aliases, order);
    approved := {};
    for i := 0 to |order|
      invariant forall j :: 0 <= j < i ==> IsNode(s, tables[j]) && ScopeOk(s, tables[j])
      invariant forall e :: e in approved <==> ApprovedIn(s, tables[..i], e)
    {
      EntryAt(s, tables, aliases, order, i);
      ghost var q := tables[i];
      assert tables[..i + 1] == tables[..i] + [q];
      var alias := order[i];
      var column := ScopeColumn(aliases[alias]);
      ghost var before := approved;
      if column.Some? {
        var equality := WhereRoomScopeEquality(s, alias, column.value);
        if equality.None? {
          assert TableAt(s, q) && !ScopeOk(s, q);
          return false, approved;
        }
        approved := approved + {equality.value};
      }
      ApprovedStep(s, tables[..i], q, before, approved);
    }
    ok := true;
    assert tables[..|tables|] == tables;
    forall e
      ensures e in approved <==> Approved(s, e)
    {
      assert ApprovedIn(s, tables, e) <==> Approved(s, e);
    }
  }

  lemma DictionarySize(s: Node, tables: seq<Path>, aliases: map<string, string>, order: seq<string>)
    requires Dictionary(s, tables, aliases, order)
    ensures |order| == |tables|
  {
  }

  ghost predicate Approved(s: Node, e: Path) { exists q :: TableAt(s, q) && ScopeFor(s, q) == Some(e) }

  ghost predicate ApprovedIn(s: Node, tables: seq<Path>, e: Path) {
    exists q :: q in tables && TableAt(s, q) && ScopeFor(s, q) == Some(e)
  }

  lemma ApprovedStep(s: Node, seen: seq<Path>, q: Path, before: set<Path>, after: set<Path>)
    requires TableAt(s, q) && forall e :: e in before <==> ApprovedIn(s, seen, e)
    requires after == if ScopeFor(s, q).Some? then before + {ScopeFor(s, q).value} else before
    ensures forall e :: e in after <==> ApprovedIn(s, seen + [q], e)
  {
    hide ScopeFor;
    forall e
      ensures e in after <==> ApprovedIn(s, seen + [q], e)
    {
      if ApprovedIn(s, seen, e) {
        var p :| p in seen && TableAt(s, p) && ScopeFor(s, p) == Some(e);
        assert p in seen + [q];
      }
      if e in after && e !in before {
        assert q in seen + [q];
      }
      if ApprovedIn(s, seen + [q], e) {
        var p :| p in seen + [q] && TableAt(s, p) && ScopeFor(s, p) == Some(e);
        assert p in seen || p == q;
      }
    }
  }

  /** Every users alias needs a link to some room_members alias. */
  method CheckUsers(s: Node, ghost tables: seq<Path>, aliases: map<string, string>, order: seq<string>)
    returns (ok: bool)
    requires Parsed(s) && Covers(s, tables) && Dictionary(s, tables, aliases, order)
    ensures ok <==> UsersOk(s)
  {
    hide RefOf, Dictionary, LinkedIn;
    DictionarySize(s, tables, aliases, order);
    for i := 0 to |order|
      invariant forall j :: 0 <= j < i ==> IsNode(s, tables[j]) && UserOk(s, tables[j])
    {
      EntryAt(s, tables, aliases, order, i);
      if aliases[order[i]] == "users" {
        var linked := false;
        for m := 0 to |order|
          invariant linked ==> UserOk(s, tables[i])
          invariant !linked ==> forall j :: 0 <= j < m ==> !LinksTo(s, order[i], tables[j])
        {
          EntryAt(s, tables, aliases, order, m);
          if aliases[order[m]] == "room_members" && !linked {
            linked := HasEquality(s, order[i], order[m]);
            assert linked == LinksTo(s, order[i], tables[m]);
          }
        }
        if !linked {
          forall q | TableAt(s, q)
            ensures !LinksTo(s, order[i], q)
          {
            assert q in tables;
          }
          assert !UserOk(s, tables[i]);
          return false;
        }
      }
    }
    ok := true;
  }

  ghost predicate LinksTo(s: Node, user: string, m: Path) {
    TableAt(s, m) && RefOf(At(s, m)).table == "room_members" && LinkedIn(s, user, RefOf(At(s, m)).alias)
  }

  method CheckMarkers(s: Node, markers: seq<Path>, approved: set<Path>) returns (ok: bool)
    requires forall p :: p in markers <==> IsNode(s, p) && IsRoomMarker(At(s, p))
    requires forall e :: e in approved <==> Approved(s, e)
    ensures ok <==> MarkersOk(s)
  {
    hide ScopeFor, IsRoomMarker, Ancestor;
    for i := 0 to |markers|
      invariant forall j :: 0 <= j < i ==> IsNode(s, markers[j]) && MarkerOk(s, markers[j])
    {
      var p := markers[i];
      assert p in markers;
      var equality := Ancestor(s, p, EqKind);
      if equality.None? || equality.value !in approved {
        assert !MarkerOk(s, p);
        return false;
      }
    }
    ok := true;
    forall p | IsNode(s, p)
      ensures MarkerOk(s, p)
    {
      if IsRoomMarker(At(s, p)) {
        assert p in markers;
      }
    }
  }

  method CheckLimit(s: Node, maxRows: nat) returns (error: Option<Error>)
    requires Parsed(s)
    ensures error.None? <==> LimitOk(s, maxRows)
    ensures error.Some? ==> CheckOf(error.value) == 12
  {
    var w := LimitKid(s.kids);
    if w.None? {
      return None;
    }
    assert Parsed(s.kids[w.value]);
    var value := s.kids[w.value].kids[0].kind;
    if !value.Literal? || !value.value.Int? {
      return Some(LimitNotInteger);
    }
    if value.value.n > maxRows {
      return Some(LimitTooLarge);
    }
    error := None;
  }

  /** e is the first of checks from..to that fails, if any does. */
  ghost predicate FirstFailure(e: Option<Error>, from: nat, to: nat, stmts: seq<Node>, maxRows: int)
    requires forall s :: s in stmts ==> Parsed(s)
  {
    if e.None? then forall i :: from <= i <= to ==> Check(i, stmts, maxRows)
    else from <= CheckOf(e.value) <= to && !Check(CheckOf(e.value), stmts, maxRows)
         && forall i :: from <= i < CheckOf(e.value) ==> Check(i, stmts, maxRows)
  }

  /** The last four checks, once the alias dictionary and the markers are known. */
  method CheckScoping(s: Node, ghost tables: seq<Path>, aliases: map<string, string>, order: seq<string>,
                      markers: seq<Path>, maxRows: nat)
    returns (error: Option<Error>)
    requires Parsed(s) && Covers(s, tables) && Dictionary(s, tables, aliases, order)
    requires forall p :: p in markers <==> IsNode(s, p) && IsRoomMarker(At(s, p))
    ensures FirstFailure(error, 9, CHECKS, [s], maxRows)
  {
    hide ScopesOk, UsersOk, MarkersOk, LimitOk, Dictionary, Approved, IsRoomMarker, Parsed;
    var ok, approved := CheckScopes(s, tables, aliases, order);
    if !ok { return Some(MissingScope); }
    ok := CheckUsers(s, tables, aliases, order);
    if !ok { return Some(UnlinkedUser); }
    ok := CheckMarkers(s, markers, approved);
    if !ok { return Some(StrayMarker); }
    error := CheckLimit(s, maxRows);
  }

  /** The verdict is acceptance exactly when all twelve conditions hold, and otherwise names
      the first that fails. */
  method ValidateRoomSelect(stmts: seq<Node>, maxRows: nat) returns (r: Verdict)
    requires forall s :: s in stmts ==> Parsed(s)
    ensures FirstFailure(if r.Accepted? then None else Some(r.error), 1, CHECKS, stmts, maxRows)
    ensures r.Accepted? ==> |stmts| == 1 && r.statement == WithLimit(stmts[0], maxRows)
  {
    hide SingleLevel, NoIntoLock, HasTable, TablesOk, StarsOk, ColumnsOk, FunctionsOk, ScopesOk, UsersOk;
    hide MarkersOk, LimitOk, Dictionary, Covers, WithLimit, IsRoomMarker, Parsed;
    if |stmts| != 1 || !stmts[0].kind.Select? {
      return Rejected(NotOneSelect);
    }
    var s := stmts[0];
    assert stmts == [s];
    var ok := CheckNesting(s);
    if !ok { return Rejected(Nested); }
    ok := CheckIntoLock(s);
    if !ok { return Rejected(IntoOrLock); }
    var tables := Tables(s);
    TablesFound(s, tables);
    if tables == [] { return Rejected(NoTable); }
    var error, aliases, order := FillAliases(s, tables);
    if error.Some? { return Rejected(error.value); }
    ok := CheckStars(s);
    if !ok { return Rejected(BareStar); }
    var markers;
    error, markers := CheckColumns(s, tables, aliases, order);
    if error.Some? { return Rejected(error.value); }
    ok := CheckFunctions(s);
    if !ok { return Rejected(FunctionNotAllowed); }
    error := CheckScoping(s, tables, aliases, order, markers, maxRows);
    r := if error.Some? then Rejected(error.value) else Accepted(WithLimit(s, maxRows));
  }

  lemma TablesFound(s: Node, tables: seq<Path>)
    requires Covers(s, tables)
    ensures tables != [] <==> HasTable(s)
  {
    if tables != [] {
      assert TableAt(s, tables[0]);
    }
  }
}
