/** From the validator's verdict to what the query can read. */
module RoomGuarantee {
  import opened SqlAst
  import opened SqlSemantics
  import opened RoomSchema
  import opened RoomLinks
  import opened RoomScope
  import opened RoomQuery
  import opened RoomExact
  import opened Options

  // ---- single-level statements as the grammar gives them ----

  predicate KidAllowed(parent: Kind, i: nat, kid: Kind) {
    && (kid.From? || kid.Join? || kid.Where? || kid.Limit? ==> parent.Select?)
    && (kid.Table? ==> (parent.From? || parent.Join?) && i == 0)
  }

  predicate Arity(n: Node) {
    match n.kind
    case EQ | And | Or => |n.kids| == 2
    case Paren | Not | Where | Limit => |n.kids| == 1
    case From => |n.kids| == 1 && n.kids[0].kind.Table?
    case Join(_) => 1 <= |n.kids| <= 2 && n.kids[0].kind.Table?
    case Table(_, _) => n.kids == []
    case Select =>
      && (forall i, j :: 0 <= i < j < |n.kids| && n.kids[i].kind == n.kids[j].kind
            ==> !n.kids[i].kind.From? && !n.kids[i].kind.Where? && !n.kids[i].kind.Limit?)
      && ((exists i :: 0 <= i < |n.kids| && n.kids[i].kind.Join?)
            ==> exists i :: 0 <= i < |n.kids| && n.kids[i].kind.From?)
    case _ => true
  }

  predicate Shaped(n: Node) {
    && Arity(n)
    && (forall i :: 0 <= i < |n.kids| ==> KidAllowed(n.kind, i, n.kids[i].kind))
    && (forall i :: 0 <= i < |n.kids| ==> Shaped(n.kids[i]))
  }

  lemma {:induction false} ShapedAt(n: Node, p: Path)
    requires Shaped(n) && ValidPath(n, p)
    ensures Shaped(At(n, p))
  {
    if p != [] {
      ShapedAt(n.kids[p[0]], p[1..]);
    }
  }

  lemma {:induction false} ShapedParsed(n: Node)
    requires Shaped(n)
    ensures Parsed(n)
  {
    forall i | 0 <= i < |n.kids|
      ensures Parsed(n.kids[i])
    {
      ShapedParsed(n.kids[i]);
    }
  }

  ghost predicate AcceptedSelect(s: Node, maxRows: nat) {
    Shaped(s) && (ShapedParsed(s); forall i :: 1 <= i <= CHECKS ==> Check(i, [s], maxRows))
  }

  // ---- clauses and their positions ----

  /** The k-th join clause is the kid at the returned index. */
  lemma {:induction false} JoinKid(kids: seq<Node>, k: nat) returns (i: nat)
    requires k < |JoinsOf(kids)|
    ensures i < |kids| && kids[i].kind.Join? && |kids[i].kids| >= 1 && JoinsOf(kids)[k] == JoinOf(kids[i])
    ensures |JoinsOf(kids[..i])| == k
  {
    if kids[0].kind.Join? && |kids[0].kids| >= 1 {
      if k == 0 {
        i := 0;
      } else {
        var j := JoinKid(kids[1..], k - 1);
        i := j + 1;
        assert kids[..i][1..] == kids[1..][..j] && kids[..i][0] == kids[0];
      }
    } else {
      var j := JoinKid(kids[1..], k);
      i := j + 1;
      assert kids[..i][1..] == kids[1..][..j] && kids[..i][0] == kids[0];
    }
  }

  lemma {:induction false} KidJoin(kids: seq<Node>, i: nat) returns (k: nat)
    requires i < |kids| && kids[i].kind.Join? && |kids[i].kids| >= 1
    ensures k < |JoinsOf(kids)| && JoinsOf(kids)[k] == JoinOf(kids[i])
  {
    if i == 0 {
      k := 0;
    } else {
      k := KidJoin(kids[1..], i - 1);
      if kids[0].kind.Join? && |kids[0].kids| >= 1 {
        k := k + 1;
      }
    }
  }

  lemma {:induction false} FromKid(kids: seq<Node>) returns (i: nat)
    requires exists j :: 0 <= j < |kids| && kids[j].kind.From? && |kids[j].kids| >= 1
    ensures i < |kids| && kids[i].kind.From? && |kids[i].kids| >= 1 && FirstOf(kids) == RefOf(kids[i].kids[0])
  {
    if kids[0].kind.From? && |kids[0].kids| >= 1 {
      i := 0;
    } else {
      var j :| 0 <= j < |kids| && kids[j].kind.From? && |kids[j].kids| >= 1;
      assert kids[1..][j - 1] == kids[j];
      i := FromKid(kids[1..]);
      i := i + 1;
    }
  }

  lemma {:induction false} WhereCond(kids: seq<Node>)
    requires forall i :: 0 <= i < |kids| && kids[i].kind.Where? ==> |kids[i].kids| == 1
    ensures var w := WhereKid(kids);
            CondOf(kids) == if w.None? then None else Some(kids[w.value].kids[0])
  {
    if kids != [] && !kids[0].kind.Where? {
      WhereCond(kids[1..]);
    }
  }

  lemma KidTable(s: Node, i: nat)
    requires Shaped(s) && i < |s.kids| && (s.kids[i].kind.From? || s.kids[i].kind.Join?)
    ensures |s.kids[i].kids| >= 1 && s.kids[i].kids[0].kind.Table?
    ensures TableAt(s, [i, 0]) && At(s, [i, 0]) == s.kids[i].kids[0]
  {
    assert Shaped(s.kids[i]);
    TwoSteps(s, i, 0);
  }

  /** A node and its parent fit together. */
  lemma ParentOf(s: Node, p: Path)
    requires Shaped(s) && ValidPath(s, p) && |p| > 0
    ensures ValidPath(s, p[..|p| - 1]) && p[|p| - 1] < |At(s, p[..|p| - 1]).kids|
    ensures At(s, p) == At(s, p[..|p| - 1]).kids[p[|p| - 1]]
    ensures KidAllowed(KindAt(s, p[..|p| - 1]), p[|p| - 1], KindAt(s, p))
  {
    hide KidAllowed;
    var n := |p| - 1;
    PrefixValid(s, p, n);
    assert p[n..] == [p[n]];
    ShapedAt(s, p[..n]);
  }

  /** A table that is anywhere in the statement stands first under FROM or a join. */
  lemma TablePosition(s: Node, p: Path)
    requires Shaped(s) && s.kind.Select? && TableAt(s, p) && SingleLevel(s)
    ensures |p| == 2 && p[1] == 0 && p[0] < |s.kids| && (s.kids[p[0]].kind.From? || s.kids[p[0]].kind.Join?)
  {
    hide Shaped;
    var n := |p| - 1;
    ParentOf(s, p);
    assert n > 0;
    ParentOf(s, p[..n]);
    assert p[..n][..n - 1] == p[..n - 1];
    assert IsNode(s, p[..n - 1]) && NestOk(s, p[..n - 1]);
    assert p[..n - 1] == [];
  }

  // ---- aliases ----

  /** Clause 0 is FROM, clause k + 1 the k-th join. */
  function ClauseRef(q: Query, k: nat): TableRef
    requires k <= |q.joins|
  {
    if k == 0 then q.first else q.joins[k - 1].ref
  }

  /** p is where clause k names its table. */
  ghost predicate SourceOf(s: Node, k: nat, p: Path) {
    && k <= |QueryOf(s).joins| && TableAt(s, p) && RefOf(At(s, p)) == ClauseRef(QueryOf(s), k)
    && |p| == 2 && p[1] == 0 && p[0] < |s.kids|
    && (k == 0 ==> s.kids[p[0]].kind.From?)
    && (k > 0 ==> s.kids[p[0]].kind.Join? && |JoinsOf(s.kids[..p[0]])| == k - 1)
  }

  lemma Source(s: Node, k: nat) returns (p: Path)
    requires Shaped(s) && s.kind.Select? && HasTable(s) && SingleLevel(s) && k <= |QueryOf(s).joins|
    ensures SourceOf(s, k, p)
  {
    if k == 0 {
      FromPresent(s);
      var i := FromKid(s.kids);
      KidTable(s, i);
      p := [i, 0];
    } else {
      var i := JoinKid(s.kids, k - 1);
      KidTable(s, i);
      p := [i, 0];
    }
  }

  lemma FromPresent(s: Node)
    requires Shaped(s) && s.kind.Select? && HasTable(s) && SingleLevel(s)
    ensures exists j :: 0 <= j < |s.kids| && s.kids[j].kind.From? && |s.kids[j].kids| >= 1
  {
    var t :| TableAt(s, t);
    TablePosition(s, t);
    var j :| 0 <= j < |s.kids| && s.kids[j].kind.From?;
    assert Shaped(s.kids[j]);
  }

  /** An alias in scope was named by one of the clauses. */
  lemma {:induction false} AliasClause(q: Query, k: nat, a: string) returns (c: nat)
    requires k <= |q.joins| && a in Aliases(q, k)
    ensures c <= k && ClauseRef(q, c) == TableRef(Aliases(q, k)[a], a)
    decreases k
  {
    if k == 0 {
      c := 0;
    } else if a == q.joins[k - 1].ref.alias {
      c := k;
    } else {
      c := AliasClause(q, k - 1, a);
    }
  }

  lemma ClauseAlias(q: Query, c: nat)
    requires DistinctAliases(q) && c <= |q.joins|
    ensures ClauseRef(q, c).alias in AllAliases(q) && AllAliases(q)[ClauseRef(q, c).alias] == ClauseRef(q, c).table
  {
    AliasesGrow(q, c, |q.joins|);
  }

  lemma AcceptedDistinct(s: Node)
    requires Shaped(s) && s.kind.Select? && SingleLevel(s) && HasTable(s) && TablesOk(s)
    ensures DistinctAliases(QueryOf(s))
  {
    var q := QueryOf(s);
    forall k | 0 <= k < |q.joins|
      ensures FreshAlias(q, k)
    {
      var a := q.joins[k].ref.alias;
      if a in Aliases(q, k) {
        var c := AliasClause(q, k, a);
        var p := Source(s, c);
        var p' := Source(s, k + 1);
        assert false;
      }
    }
  }

  /** Each table position belongs to a clause of the query. */
  lemma TableClause(s: Node, p: Path) returns (c: nat)
    requires Shaped(s) && s.kind.Select? && SingleLevel(s) && TableAt(s, p)
    ensures c <= |QueryOf(s).joins| && ClauseRef(QueryOf(s), c) == RefOf(At(s, p))
  {
    TablePosition(s, p);
    var i := p[0];
    KidTable(s, i);
    assert p == [i, 0];
    if s.kids[i].kind.From? {
      c := 0;
      var f := FromKid(s.kids);
      assert s.kids[f].kind == s.kids[i].kind;
    } else {
      var k := KidJoin(s.kids, i);
      c := k + 1;
    }
  }

  lemma AliasPosition(s: Node, a: string) returns (p: Path)
    requires Shaped(s) && s.kind.Select? && SingleLevel(s) && HasTable(s) && a in AllAliases(QueryOf(s))
    ensures TableAt(s, p) && RefOf(At(s, p)) == TableRef(AllAliases(QueryOf(s))[a], a)
  {
    var c := AliasClause(QueryOf(s), |QueryOf(s).joins|, a);
    p := Source(s, c);
  }

  // ---- from positions in the statement to conjuncts of a condition ----

  lemma {:induction false} GlueConjunct(cond: Node, p: Path)
    requires ValidPath(cond, p)
    requires forall j: nat :: j < |p| ==>
               ValidPath(cond, p[..j]) && (KindAt(cond, p[..j]).And? || KindAt(cond, p[..j]).Paren?)
    ensures Conjunct(cond, p)
  {
    if p != [] {
      assert p[..0] == [];
      var tail := p[1..];
      forall j: nat | j < |tail|
        ensures ValidPath(cond.kids[p[0]], tail[..j])
        ensures KindAt(cond.kids[p[0]], tail[..j]).And? || KindAt(cond.kids[p[0]], tail[..j]).Paren?
      {
        assert p[..j + 1] == [p[0]] + tail[..j];
        AtAppend(cond, [p[0]], tail[..j]);
        assert At(cond, [p[0]]) == cond.kids[p[0]];
      }
      GlueConjunct(cond.kids[p[0]], tail);
    }
  }

  /** Below clause i, at its kid c, everything is glue down to p: p is a conjunct there. */
  lemma BelowClause(s: Node, p: Path) returns (cond: Node)
    requires ValidPath(s, p) && |p| >= 2 && GlueBelow(s, p, 1)
    ensures p[0] < |s.kids| && p[1] < |s.kids[p[0]].kids| && cond == s.kids[p[0]].kids[p[1]]
    ensures ValidPath(cond, p[2..]) && At(cond, p[2..]) == At(s, p) && Conjunct(cond, p[2..])
  {
    var head, tail := p[..2], p[2..];
    PrefixValid(s, p, 2);
    assert head == [p[0], p[1]];
    TwoSteps(s, p[0], p[1]);
    cond := At(s, head);
    forall j: nat | j < |tail|
      ensures ValidPath(cond, tail[..j]) && (KindAt(cond, tail[..j]).And? || KindAt(cond, tail[..j]).Paren?)
    {
      assert p[..j + 2] == head + tail[..j];
      PrefixValid(s, p, j + 2);
      AtAppend(s, head, tail[..j]);
      assert Glue(s, p, j + 2);
    }
    GlueConjunct(cond, tail);
  }

  lemma WhereArity(s: Node)
    requires Shaped(s)
    ensures forall i :: 0 <= i < |s.kids| && s.kids[i].kind.Where? ==> |s.kids[i].kids| == 1
  {
    forall i | 0 <= i < |s.kids| && s.kids[i].kind.Where?
      ensures |s.kids[i].kids| == 1
    {
      assert Shaped(s.kids[i]);
    }
  }

  /** The scope equality the validator found is a conjunct of the WHERE. */
  lemma ScopeTermFound(s: Node, alias: string, column: string)
    requires Shaped(s) && ScopeEquality(s, alias, column).Some?
    ensures ScopeTerm(QueryOf(s).cond, alias, column)
  {
    var w := WhereKid(s.kids).value;
    WhereArity(s);
    WhereCond(s.kids);
    FirstScopeFinds(s, w, Nodes(s.kids[w]), alias, column);
    var p :| WhereScope(s, w, p, alias, column);
    var full := [w] + p;
    AtAppend(s, [w], p);
    OneStep(s, w);
    var cond := BelowClause(s, full);
    assert full[2..] == p[1..] && full[0] == w && full[1] == p[0];
    assert IsScope(At(cond, full[2..]), alias, column);
  }

  lemma AcceptedScoped(s: Node)
    requires Shaped(s) && s.kind.Select? && SingleLevel(s) && HasTable(s) && ScopesOk(s)
    ensures Scoped(QueryOf(s))
  {
    var q := QueryOf(s);
    forall a | a in AllAliases(q) && ScopeColumn(AllAliases(q)[a]).Some?
      ensures ScopeTerm(q.cond, a, ScopeColumn(AllAliases(q)[a]).value)
    {
      var p := AliasPosition(s, a);
      assert ScopeOk(s, p);
      ScopeTermFound(s, a, ScopeColumn(AllAliases(q)[a]).value);
    }
  }

  lemma AcceptedLower(s: Node)
    requires Shaped(s) && s.kind.Select? && SingleLevel(s) && HasTable(s)
    ensures forall a :: a in AllAliases(QueryOf(s)) ==> IsLower(a)
  {
    forall a | a in AllAliases(QueryOf(s))
      ensures IsLower(a)
    {
      var p := AliasPosition(s, a);
      var k := At(s, p).kind;
      LowerTwice(if k.alias != "" then k.alias else k.name);
    }
  }

  // ---- links ----

  /** MySQL's scoping rule for ON: a join condition names only aliases already joined. */
  ghost predicate OnNamesResolve(q: Query) {
    forall k, p :: 0 <= k < |q.joins| && OnColumn(q.joins[k].on, p)
      ==> Lower(At(q.joins[k].on.value, p).kind.table) in Aliases(q, k + 1)
  }

  ghost predicate OnColumn(on: Option<Node>, p: Path) {
    on.Some? && ValidPath(on.value, p) && At(on.value, p).kind.Column? && !IsRoomMarker(At(on.value, p))
  }

  lemma LinkNames(q: Query, k: nat, u: string, m: string)
    requires OnNamesResolve(q) && k < |q.joins| && LinkTerm(q.joins[k].on, u, m) && IsLower(u) && IsLower(m)
    ensures u in Aliases(q, k + 1) && m in Aliases(q, k + 1)
  {
    var on := q.joins[k].on.value;
    var p :| ValidPath(on, p) && Conjunct(on, p) && IsLink(At(on, p), u, m);
    forall i | 0 <= i < 2
      ensures OnColumn(Some(on), p + [i]) && At(on, p + [i]) == At(on, p).kids[i]
    {
      AtAppend(on, p, [i]);
      OneStep(At(on, p), i);
      var c := At(on, p).kids[i];
      assert |c.kind.column| == |Lower(c.kind.column)|;
    }
    assert OnColumn(q.joins[k].on, p + [0]) && OnColumn(q.joins[k].on, p + [1]);
  }

  /** Where an accepted link stands: in the WHERE, or in the ON of some join. */
  lemma LinkPlace(s: Node, u: string, m: string) returns (k: nat)
    requires Shaped(s) && s.kind.Select? && SingleLevel(s) && LinkedIn(s, u, m)
    ensures k <= |QueryOf(s).joins|
    ensures if k == 0 then LinkTerm(QueryOf(s).cond, u, m) else LinkTerm(QueryOf(s).joins[k - 1].on, u, m)
  {
    hide LinkTerm, LinkedIn, SingleLevel;
    var i := LinkClause(s, u, m);
    var clause := s.kids[i];
    if clause.kind.Where? {
      k := 0;
      WhereArity(s);
      WhereCond(s.kids);
      assert s.kids[WhereKid(s.kids).value].kind == clause.kind;
    } else {
      var j := KidJoin(s.kids, i);
      k := j + 1;
    }
  }

  lemma LinkClause(s: Node, u: string, m: string) returns (i: nat)
    requires Shaped(s) && s.kind.Select? && SingleLevel(s) && LinkedIn(s, u, m)
    ensures i < |s.kids| && (s.kids[i].kind.Where? || s.kids[i].kind.Join?)
    ensures s.kids[i].kind.Where? ==> |s.kids[i].kids| == 1 && LinkTerm(Some(s.kids[i].kids[0]), u, m)
    ensures s.kids[i].kind.Join? ==> |s.kids[i].kids| == 2 && LinkTerm(Some(s.kids[i].kids[1]), u, m)
  {
    hide LinkedIn, SingleLevel, Conjunct, IsLink;
    var p, cond := LinkConjunct(s, u, m);
    i := p[0];
    assert LinkTerm(Some(cond), u, m);
    WhereArity(s);
    if s.kids[i].kind.Join? {
      LinkNotTable(s, p, cond, u, m);
    }
  }

  lemma LinkConjunct(s: Node, u: string, m: string) returns (p: Path, cond: Node)
    requires Shaped(s) && s.kind.Select? && SingleLevel(s) && LinkedIn(s, u, m)
    ensures |p| >= 2 && p[0] < |s.kids| && (s.kids[p[0]].kind.Where? || s.kids[p[0]].kind.Join?)
    ensures p[1] < |s.kids[p[0]].kids| && cond == s.kids[p[0]].kids[p[1]]
    ensures ValidPath(cond, p[2..]) && Conjunct(cond, p[2..]) && IsLink(At(cond, p[2..]), u, m)
  {
    hide IsLink, Shaped, SingleLevel;
    p :| LinkPosition(s, p, u, m);
    var d :| 0 < d < |p| && ClauseAt(s, p, d) && GlueBelow(s, p, d) && OwnSelect(s, p, d);
    ClauseDepth(s, p, d);
    assert p[..1] == [p[0]];
    OneStep(s, p[0]);
    PrefixValid(s, p, 1);
    cond := BelowClause(s, p);
  }

  /** WHERE and JOIN nodes are kids of the statement itself. */
  lemma ClauseDepth(s: Node, p: Path, d: nat)
    requires Shaped(s) && SingleLevel(s) && ValidPath(s, p) && 0 < d < |p| && ClauseAt(s, p, d)
    ensures d == 1
  {
    PrefixValid(s, p, d);
    PrefixValid(s, p[..d], d - 1);
    var parent := p[..d - 1];
    assert p[..d][..d - 1] == parent && p[..d][d - 1..] == [p[d - 1]];
    ShapedAt(s, parent);
    OneStep(At(s, parent), p[d - 1]);
    assert KidAllowed(KindAt(s, parent), p[d - 1], At(s, parent).kids[p[d - 1]].kind);
    assert IsNode(s, parent) && NestOk(s, parent);
  }

  /** A link under a join is in its ON, not in its table. */
  lemma LinkNotTable(s: Node, p: Path, cond: Node, u: string, m: string)
    requires Shaped(s) && |p| >= 2 && p[0] < |s.kids| && s.kids[p[0]].kind.Join?
    requires p[1] < |s.kids[p[0]].kids| && cond == s.kids[p[0]].kids[p[1]]
    requires ValidPath(cond, p[2..]) && IsLink(At(cond, p[2..]), u, m)
    ensures p[1] == 1 && |s.kids[p[0]].kids| == 2
  {
    var join := s.kids[p[0]];
    assert Shaped(join);
    assert Shaped(join.kids[0]);
  }

  ghost predicate InnerJoinsOnly(q: Query) { forall k :: 0 <= k < |q.joins| ==> q.joins[k].side == Inner }

  /** Where the validator found the link of a users alias. */
  lemma AcceptedLink(s: Node, u: string) returns (k: nat, m: string)
    requires Shaped(s) && s.kind.Select? && SingleLevel(s) && HasTable(s) && TablesOk(s) && UsersOk(s)
    requires OnNamesResolve(QueryOf(s)) && IsUser(QueryOf(s), u)
    ensures k <= |QueryOf(s).joins| && IsMember(QueryOf(s), m)
    ensures if k == 0 then LinkTerm(QueryOf(s).cond, u, m) else LinkedAt(QueryOf(s), k - 1, u, m)
  {
    hide LinkTerm, LinkedIn;
    var q := QueryOf(s);
    AcceptedDistinct(s);
    AcceptedLower(s);
    var p := AliasPosition(s, u);
    assert UserOk(s, p);
    var t :| TableAt(s, t) && RefOf(At(s, t)).table == "room_members" && LinkedIn(s, u, RefOf(At(s, t)).alias);
    m := RefOf(At(s, t)).alias;
    var c := TableClause(s, t);
    ClauseAlias(q, c);
    k := LinkPlace(s, u, m);
    if k > 0 { LinkNames(q, k - 1, u, m); }
  }

  lemma AcceptedLinks(s: Node)
    requires Shaped(s) && s.kind.Select? && SingleLevel(s) && HasTable(s) && TablesOk(s) && UsersOk(s)
    requires OnNamesResolve(QueryOf(s)) && InnerJoinsOnly(QueryOf(s))
    ensures LinksBind(QueryOf(s))
  {
    hide LinkTerm, SingleLevel, HasTable, TablesOk, UsersOk, Required;
    var q := QueryOf(s);
    forall u | IsUser(q, u)
      ensures Required(q, u)
    {
      var k, m := AcceptedLink(s, u);
      if k == 0 { WhereRequired(q, u, m); } else { JoinRequired(q, k - 1, u, m); }
    }
  }

  // ---- the guarantees ----

  lemma AcceptedResolved(s: Node, maxRows: nat)
    requires AcceptedSelect(s, maxRows)
    ensures s.kind.Select? && SingleLevel(s) && HasTable(s) && TablesOk(s) && ScopesOk(s) && UsersOk(s)
    ensures DistinctAliases(QueryOf(s)) && Scoped(QueryOf(s))
    ensures LinksBind(QueryOf(s)) ==> Resolved(QueryOf(s))
    ensures forall a :: a in AllAliases(QueryOf(s)) ==> IsLower(a)
  {
    hide SingleLevel, HasTable, TablesOk, ScopesOk, UsersOk, LinksBind, Scoped;
    ShapedParsed(s);
    assert Check(1, [s], maxRows) && Check(2, [s], maxRows) && Check(4, [s], maxRows) && Check(5, [s], maxRows);
    assert Check(9, [s], maxRows) && Check(10, [s], maxRows);
    AcceptedDistinct(s);
    AcceptedScoped(s);
    AcceptedLower(s);
  }

  /** Accepted queries read one room: with inner and cross joins the surviving tuples of the
      whole database are those of the room's own, in the same order. */
  lemma AcceptedQueryIsRoomLocal(s: Node, maxRows: nat, db: Database, room: int, sem: Semantics)
    requires AcceptedSelect(s, maxRows)
    requires OnNamesResolve(QueryOf(s)) && InnerJoinsOnly(QueryOf(s))
    ensures Isolated(db, QueryOf(s), room, sem)
  {
    hide SingleLevel, HasTable, TablesOk, ScopesOk, UsersOk, Survivors, LinksBind;
    AcceptedResolved(s, maxRows);
    AcceptedLinks(s);
    RoomIsolation(db, QueryOf(s), room, sem);
  }

  /** With outer joins too, as long as every users link binds the tuples that survive. */
  lemma AcceptedOuterQueryIsRoomLocal(s: Node, maxRows: nat, db: Database, room: int, sem: Semantics)
    requires AcceptedSelect(s, maxRows) && LinksBind(QueryOf(s))
    ensures Isolated(db, QueryOf(s), room, sem)
  {
    AcceptedResolved(s, maxRows);
    RoomIsolation(db, QueryOf(s), room, sem);
  }

  lemma AcceptedTables(s: Node)
    requires Shaped(s) && s.kind.Select? && SingleLevel(s) && HasTable(s) && TablesOk(s)
    ensures KnownTables(QueryOf(s))
  {
    hide SingleLevel, HasTable;
    var q := QueryOf(s);
    forall k: nat | k <= |q.joins|
      ensures ClauseRef(q, k).table in TABLES
    {
      var p := Source(s, k);
    }
    assert forall k :: 0 <= k < |q.joins| ==> q.joins[k].ref == ClauseRef(q, k + 1);
    assert ClauseRef(q, 0) == q.first;
  }

  /** And the condition is exact: an accepted statement whose conditions are made of scope and link
      terms alone is room-local on every database if and only if its links bind. */
  lemma AcceptedExact(s: Node, maxRows: nat)
    requires AcceptedSelect(s, maxRows) && PlainQuery(QueryOf(s))
    ensures LinksBind(QueryOf(s)) <==> forall db, room, sem :: Isolated(db, QueryOf(s), room, sem)
  {
    hide SingleLevel, HasTable, TablesOk, ScopesOk, UsersOk, LinksBind, PlainQuery, Isolated, Scoped;
    AcceptedResolved(s, maxRows);
    AcceptedTables(s);
    LinksExact(QueryOf(s));
  }

  /** With any joins at all: each scoped alias of a surviving tuple holds a row of the room. */
  lemma AcceptedScopedRows(s: Node, maxRows: nat, db: Database, room: int, sem: Semantics, t: Tuple, a: string)
    requires AcceptedSelect(s, maxRows) && t in Survivors(db, QueryOf(s), room, sem)
    requires a in AllAliases(QueryOf(s)) && AllAliases(QueryOf(s))[a] != "users"
    ensures a in t && t[a].Some? && InRoom(AllAliases(QueryOf(s))[a], t[a].value, room, sem)
  {
    var q := QueryOf(s);
    AcceptedResolved(s, maxRows);
    FilterMember(Joined(db, q, |q.joins|, room, sem), CondTest(q, room, sem), t);
    ScopedSlot(q, t, a, room, sem);
  }

  /** The LIMIT the validator adds leaves the query itself as it was. */
  lemma LimitKeepsQuery(s: Node, maxRows: nat)
    ensures QueryOf(WithLimit(s, maxRows)) == QueryOf(s)
  {
    if LimitKid(s.kids).None? {
      var clause := Node(Limit, [Node(Literal(Int(maxRows)), [])]);
      ClausesAppend(s.kids, clause);
    }
  }

  lemma {:induction false} ClausesAppend(kids: seq<Node>, clause: Node)
    requires !clause.kind.From? && !clause.kind.Join? && !clause.kind.Where?
    ensures FirstOf(kids + [clause]) == FirstOf(kids)
    ensures JoinsOf(kids + [clause]) == JoinsOf(kids)
    ensures CondOf(kids + [clause]) == CondOf(kids)
  {
    if kids == [] {
      assert [clause][1..] == [];
    } else {
      assert (kids + [clause])[1..] == kids[1..] + [clause];
      ClausesAppend(kids[1..], clause);
    }
  }
}
