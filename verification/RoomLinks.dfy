/** The scope and link terms of a query, and what its joins make of them: which aliases every
    surviving tuple must fill, and which may stay empty. */
module RoomLinks {
  import opened SqlAst
  import opened SqlSemantics
  import opened RoomSchema
  import opened Options

  // ---- the terms the validator looks for ----

  ghost predicate IsLink(e: Node, user: string, member: string) {
    e.kind.EQ? && |e.kids| == 2
    && ((IsColumn(e.kids[0], user, "id") && IsColumn(e.kids[1], member, "user_id"))
        || (IsColumn(e.kids[1], user, "id") && IsColumn(e.kids[0], member, "user_id")))
  }

  ghost predicate IsScope(e: Node, alias: string, column: string) {
    e.kind.EQ? && |e.kids| == 2
    && ((IsColumn(e.kids[0], alias, column) && IsRoomMarker(e.kids[1]))
        || (IsColumn(e.kids[1], alias, column) && IsRoomMarker(e.kids[0])))
  }

  ghost predicate LinkTerm(cond: Option<Node>, user: string, member: string) {
    cond.Some? && exists p :: ValidPath(cond.value, p) && Conjunct(cond.value, p)
                              && IsLink(At(cond.value, p), user, member)
  }

  ghost predicate ScopeTerm(cond: Option<Node>, alias: string, column: string) {
    cond.Some? && exists p :: ValidPath(cond.value, p) && Conjunct(cond.value, p)
                              && IsScope(At(cond.value, p), alias, column)
  }

  predicate IsUser(q: Query, a: string) { a in AllAliases(q) && AllAliases(q)[a] == "users" }

  predicate IsMember(q: Query, a: string) { a in AllAliases(q) && AllAliases(q)[a] == "room_members" }

  /** Every alias of a table with a scope column carries its scope term in the WHERE. */
  ghost predicate Scoped(q: Query) {
    forall a :: a in AllAliases(q) && ScopeColumn(AllAliases(q)[a]).Some?
                ==> ScopeTerm(q.cond, a, ScopeColumn(AllAliases(q)[a]).value)
  }

  /** The ON of join k carries the link of u to m, both already joined. */
  ghost predicate LinkedAt(q: Query, k: int, u: string, m: string) {
    0 <= k < |q.joins| && IsMember(q, m) && u in Aliases(q, k + 1) && m in Aliases(q, k + 1)
    && LinkTerm(q.joins[k].on, u, m)
  }

  // ---- aliases ----

  lemma {:induction false} AliasesGrow(q: Query, j: nat, k: nat)
    requires DistinctAliases(q) && j <= k <= |q.joins|
    ensures forall a :: a in Aliases(q, j) ==> a in Aliases(q, k) && Aliases(q, k)[a] == Aliases(q, j)[a]
    decreases k
  {
    if j < k {
      assert FreshAlias(q, k - 1);
      AliasesGrow(q, j, k - 1);
    }
  }

  lemma SameJoin(q: Query, i: nat, j: nat)
    requires DistinctAliases(q) && i < |q.joins| && j < |q.joins|
    requires q.joins[i].ref.alias == q.joins[j].ref.alias
    ensures i == j
  {
    assert FreshAlias(q, i) && FreshAlias(q, j);
    if i < j {
      AliasesGrow(q, i + 1, j);
    } else if j < i {
      AliasesGrow(q, j + 1, i);
    }
  }

  // ---- aliases a surviving tuple must fill ----

  /** An alias is required if its table has a scope column, or if its link must hold: one in the
      WHERE, in the ON of an inner join, in the ON of a LEFT JOIN whose own table is required, or
      in the ON of a RIGHT JOIN with a required alias on its left. */
  ghost predicate RequiredIn(q: Query, a: string, n: nat)
    decreases n, 0
  {
    a in AllAliases(q)
    && (AllAliases(q)[a] != "users"
        || (n > 0 && exists m :: IsMember(q, m) && LinkTerm(q.cond, a, m))
        || (n > 0 && exists k, m :: LinkedAt(q, k, a, m) && Forced(q, k, n - 1)))
  }

  /** A surviving tuple comes from a match of join k. */
  ghost predicate Forced(q: Query, k: int, n: nat)
    requires 0 <= k < |q.joins|
    decreases n, 1
  {
    match q.joins[k].side
    case Inner => true
    case Left => RequiredIn(q, q.joins[k].ref.alias, n)
    case Right => exists b :: b in Aliases(q, k) && RequiredIn(q, b, n)
  }

  ghost predicate Required(q: Query, a: string) { exists n: nat :: RequiredIn(q, a, n) }

  /** A users alias that may stay empty. */
  ghost predicate Optional(q: Query, a: string) { IsUser(q, a) && !Required(q, a) }

  /** The link stands where the alias itself is the one left empty when nothing matches: in the ON
      of its own LEFT JOIN, or in the ON of a RIGHT JOIN. */
  ghost predicate Carried(q: Query, u: string) { OwnLeft(q, u) || exists k :: RightLink(q, k, u) }

  ghost predicate OwnLeft(q: Query, u: string) {
    exists k, m :: LinkedAt(q, k, u, m) && q.joins[k].side == Left && q.joins[k].ref.alias == u
  }

  ghost predicate RightLink(q: Query, k: int, u: string) {
    exists m :: LinkedAt(q, k, u, m) && q.joins[k].side == Right
  }

  /** Every users alias is required or carried. Only a link that stands in no other place than the
      ON of a LEFT JOIN of another users alias, itself not required, is neither. */
  ghost predicate LinksBind(q: Query) { forall u :: IsUser(q, u) ==> Required(q, u) || Carried(q, u) }

  /** After k joins the slot of a may be empty in a tuple that can still survive. */
  ghost predicate NoneOk(q: Query, a: string, k: nat) {
    Optional(q, a) && forall i :: RightLink(q, i, a) ==> i < k
  }

  // ---- how they hang together ----

  lemma ScopedRequired(q: Query, a: string)
    requires a in AllAliases(q) && AllAliases(q)[a] != "users"
    ensures Required(q, a)
  {
    assert RequiredIn(q, a, 0);
  }

  lemma WhereRequired(q: Query, u: string, m: string)
    requires IsUser(q, u) && IsMember(q, m) && LinkTerm(q.cond, u, m)
    ensures Required(q, u)
  {
    assert RequiredIn(q, u, 1);
  }

  /** A link whose join must match requires its alias. */
  lemma JoinRequired(q: Query, k: nat, u: string, m: string)
    requires IsUser(q, u) && LinkedAt(q, k, u, m)
    requires match q.joins[k].side
             case Inner => true
             case Left => Required(q, q.joins[k].ref.alias)
             case Right => exists b :: b in Aliases(q, k) && Required(q, b)
    ensures Required(q, u)
  {
    var n: nat := 0;
    match q.joins[k].side {
      case Inner =>
      case Left => n :| RequiredIn(q, q.joins[k].ref.alias, n);
      case Right =>
        var b :| b in Aliases(q, k) && Required(q, b);
        n :| RequiredIn(q, b, n);
    }
    assert Forced(q, k, n);
    assert RequiredIn(q, u, n + 1);
  }

  /** A room_members alias on the left of a RIGHT JOIN makes its links required. */
  lemma RightRequired(q: Query, i: nat, u: string, b: string)
    requires DistinctAliases(q) && IsUser(q, u) && RightLink(q, i, u) && b in Aliases(q, i)
    requires Aliases(q, i)[b] != "users"
    ensures Required(q, u)
  {
    AliasesGrow(q, i, |q.joins|);
    ScopedRequired(q, b);
    var m :| LinkedAt(q, i, u, m) && q.joins[i].side == Right;
    JoinRequired(q, i, u, m);
  }

  /** Two RIGHT JOIN links, the earlier one bringing a room_members alias to the later one's left. */
  lemma LaterRightRequired(q: Query, i: nat, j: nat, u: string, v: string)
    requires DistinctAliases(q) && IsUser(q, v) && RightLink(q, i, u) && RightLink(q, j, v) && i < j
    ensures Required(q, v)
  {
    var m :| LinkedAt(q, i, u, m) && q.joins[i].side == Right;
    AliasesGrow(q, i + 1, j);
    AliasesGrow(q, i + 1, |q.joins|);
    RightRequired(q, j, v, m);
  }

  /** A link's room_members alias is in scope wherever its join is done. */
  lemma LinkScope(q: Query, i: nat, u: string, m: string, k: nat)
    requires DistinctAliases(q) && LinkedAt(q, i, u, m) && i < k <= |q.joins|
    ensures m in Aliases(q, k) && Aliases(q, k)[m] == "room_members"
  {
    hide LinkTerm;
    AliasesGrow(q, i + 1, k);
    AliasesGrow(q, k, |q.joins|);
  }

  /** If every alias on the left of RIGHT JOIN k may stay empty after it, each is linked there, to
      the table the join brings in. */
  lemma AllLinked(q: Query, k: nat, b: string)
    requires DistinctAliases(q) && LinksBind(q) && k < |q.joins| && q.joins[k].side == Right
    requires forall a :: a in Aliases(q, k) ==> NoneOk(q, a, k + 1)
    requires b in Aliases(q, k)
    ensures LinkedAt(q, k, b, q.joins[k].ref.alias)
  {
    hide LinkTerm, RequiredIn, Required;
    NoMemberYet(q, k);
    assert NoneOk(q, b, k + 1) && !OwnLeft(q, b) by { NotOwnLeft(q, k, b); }
    var i :| RightLink(q, i, b);
    var m :| LinkedAt(q, i, b, m) && q.joins[i].side == Right;
    LinkScope(q, i, b, m, i + 1);
    assert i == k by {
      if i < k { LinkScope(q, i, b, m, k); }
    }
  }

  lemma NotOwnLeft(q: Query, k: nat, b: string)
    requires DistinctAliases(q) && k <= |q.joins| && b in Aliases(q, k)
    requires forall a :: a in Aliases(q, k) ==> Aliases(q, k)[a] == "users"
    ensures !OwnLeft(q, b)
  {
    hide LinkTerm;
    if i, m :| LinkedAt(q, i, b, m) && q.joins[i].side == Left && q.joins[i].ref.alias == b {
      JoinedBefore(q, i, k);
      LinkScope(q, i, b, m, k);
    }
  }

  /** If they may all stay empty they are all users. */
  lemma NoMemberYet(q: Query, k: nat)
    requires DistinctAliases(q) && k <= |q.joins| && forall a :: a in Aliases(q, k) ==> NoneOk(q, a, k + 1)
    ensures forall a :: a in Aliases(q, k) ==> Aliases(q, k)[a] == "users" && !IsMember(q, a)
  {
    AliasesGrow(q, k, |q.joins|);
    forall a | a in Aliases(q, k)
      ensures Aliases(q, k)[a] == "users" && !IsMember(q, a)
    {
      assert NoneOk(q, a, k + 1);
    }
  }

  /** A table joined by join i is among the first k only if i < k. */
  lemma JoinedBefore(q: Query, i: nat, k: nat)
    requires DistinctAliases(q) && i < |q.joins| && k <= |q.joins| && q.joins[i].ref.alias in Aliases(q, k)
    ensures i < k
  {
    assert FreshAlias(q, i);
    if k <= i {
      AliasesGrow(q, k, i);
    }
  }

  /** Join k changes which slots may be empty only if it is a RIGHT JOIN after which all of its
      left may be. */
  lemma NoneOkKept(q: Query, k: nat, a: string)
    requires DistinctAliases(q) && LinksBind(q) && k < |q.joins| && a in Aliases(q, k)
    requires q.joins[k].side == Right ==> exists b :: b in Aliases(q, k) && !NoneOk(q, b, k + 1)
    ensures NoneOk(q, a, k + 1) <==> NoneOk(q, a, k)
  {
    hide LinkTerm, RequiredIn;
    if NoneOk(q, a, k + 1) && !NoneOk(q, a, k) {
      assert RightLink(q, k, a);
      var m :| LinkedAt(q, k, a, m) && q.joins[k].side == Right;
      var b :| b in Aliases(q, k) && !NoneOk(q, b, k + 1);
      LeftOptional(q, k, a, m, b);
      assert false;
    }
  }

  /** Beside an optional alias linked in RIGHT JOIN k every alias on its left may be empty after it. */
  lemma LeftOptional(q: Query, k: nat, a: string, m: string, b: string)
    requires DistinctAliases(q) && LinksBind(q) && LinkedAt(q, k, a, m) && q.joins[k].side == Right
    requires Optional(q, a) && b in Aliases(q, k)
    ensures NoneOk(q, b, k + 1)
  {
    hide LinkTerm, RequiredIn;
    AliasesGrow(q, k, |q.joins|);
    if Required(q, b) {
      JoinRequired(q, k, a, m);
      assert false;
    }
    assert Optional(q, b) by {
      if !IsUser(q, b) { ScopedRequired(q, b); }
    }
    assert RightLink(q, k, a);
    forall i | RightLink(q, i, b)
      ensures i < k + 1
    {
      if i > k { LaterRightRequired(q, k, i, a, b); }
    }
  }

  /** An alias that may be empty right after the LEFT JOIN that brings it in has its link there. */
  lemma OwnLink(q: Query, k: nat) returns (m: string)
    requires DistinctAliases(q) && LinksBind(q) && k < |q.joins| && q.joins[k].side == Left
    requires NoneOk(q, q.joins[k].ref.alias, k + 1)
    ensures LinkedAt(q, k, q.joins[k].ref.alias, m) && m in Aliases(q, k) && Aliases(q, k)[m] == "room_members"
  {
    hide LinkTerm, RequiredIn;
    var u := q.joins[k].ref.alias;
    forall i | RightLink(q, i, u)
      ensures false
    {
      JoinedBefore(q, k, i + 1);
    }
    var i;
    i, m :| LinkedAt(q, i, u, m) && q.joins[i].side == Left && q.joins[i].ref.alias == u;
    SameJoin(q, i, k);
    AliasesGrow(q, k + 1, |q.joins|);
  }

  /** An optional alias linked in the ON of a RIGHT JOIN stands on its left. */
  lemma CarriedLeft(q: Query, k: nat, u: string, m: string)
    requires DistinctAliases(q) && LinkedAt(q, k, u, m) && q.joins[k].side == Right && Optional(q, u)
    ensures u in Aliases(q, k)
  {
    hide LinkTerm, RequiredIn;
    AliasesGrow(q, k + 1, |q.joins|);
    if u !in Aliases(q, k) {
      assert RightLink(q, k, u);
      RightRequired(q, k, u, m);
    }
  }

  /** Each of u's links stands in the ON of a LEFT JOIN that brings in another users alias, itself
      not required. */
  ghost predicate OnlyLoosely(q: Query, u: string) {
    && (forall m :: IsMember(q, m) ==> !LinkTerm(q.cond, u, m))
    && (forall k, m :: LinkedAt(q, k, u, m) ==>
          q.joins[k].side == Left && q.joins[k].ref.alias != u && Optional(q, q.joins[k].ref.alias))
  }

  /** The links bind unless some users alias is linked only loosely. */
  lemma LooseLinks(q: Query)
    requires DistinctAliases(q)
    ensures LinksBind(q) <==> !exists u :: IsUser(q, u) && OnlyLoosely(q, u)
  {
    hide LinkTerm, RequiredIn;
    forall u | IsUser(q, u)
      ensures !OnlyLoosely(q, u) <==> Required(q, u) || Carried(q, u)
    {
      if OnlyLoosely(q, u) { LooseIsNotRequired(q, u); } else { NotLoose(q, u); }
    }
  }

  lemma LooseIsNotRequired(q: Query, u: string)
    requires IsUser(q, u) && OnlyLoosely(q, u)
    ensures !Required(q, u) && !Carried(q, u)
  {
    hide LinkTerm;
    forall n: nat
      ensures !RequiredIn(q, u, n)
    {
      if n > 0 {
        forall k, m | LinkedAt(q, k, u, m)
          ensures !Forced(q, k, n - 1)
        {
          assert Optional(q, q.joins[k].ref.alias);
        }
      }
    }
  }

  lemma NotLoose(q: Query, u: string)
    requires DistinctAliases(q) && IsUser(q, u) && !OnlyLoosely(q, u)
    ensures Required(q, u) || Carried(q, u)
  {
    hide LinkTerm, RequiredIn;
    if m :| IsMember(q, m) && LinkTerm(q.cond, u, m) {
      WhereRequired(q, u, m);
    } else {
      var k, m :| LinkedAt(q, k, u, m)
                  && !(q.joins[k].side == Left && q.joins[k].ref.alias != u && Optional(q, q.joins[k].ref.alias));
      AliasesGrow(q, k + 1, |q.joins|);
      var w := q.joins[k].ref.alias;
      if q.joins[k].side == Inner {
        JoinRequired(q, k, u, m);
      } else if q.joins[k].side == Left && w != u {
        if !IsUser(q, w) { ScopedRequired(q, w); }
        JoinRequired(q, k, u, m);
      } else {
        assert OwnLeft(q, u) || RightLink(q, k, u);
      }
    }
  }
}
