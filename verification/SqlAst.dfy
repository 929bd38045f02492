/** The expression trees the room-query validator walks. A tree is a value; a node's
    identity is its position, so `a is b` is equality of positions, and the parent of a
    node is its position without the last step. */
module SqlAst {
  import opened Options

  datatype Value = Null | Int(n: int) | Text(s: string)

  datatype Side = Inner | Left | Right  // a comma or CROSS JOIN is Inner without ON

  datatype Kind =
    | Select | From | Join(side: Side) | Where | Limit | Clause(clause: string)
    | Table(name: string, alias: string)
    | Column(table: string, column: string)
    | EQ | And | Or | Not | Paren
    | Literal(value: Value)
    | Func(func: string, rendersAsCall: bool) | Count | Star
    | Subquery | Into | Lock
    | Other(tag: string)

  datatype Node = Node(kind: Kind, kids: seq<Node>)

  type Path = seq<nat>

  predicate ValidPath(n: Node, p: Path) {
    p == [] || (p[0] < |n.kids| && ValidPath(n.kids[p[0]], p[1..]))
  }

  function At(n: Node, p: Path): Node
    requires ValidPath(n, p)
  {
    if p == [] then n else At(n.kids[p[0]], p[1..])
  }

  lemma {:induction false} AtAppend(n: Node, p: Path, q: Path)
    ensures ValidPath(n, p + q) <==> ValidPath(n, p) && ValidPath(At(n, p), q)
    ensures ValidPath(n, p + q) ==> At(n, p + q) == At(At(n, p), q)
  {
    if p == [] {
      assert p + q == q;
    } else {
      assert (p + q)[0] == p[0] && (p + q)[1..] == p[1..] + q;
      if p[0] < |n.kids| {
        AtAppend(n.kids[p[0]], p[1..], q);
      }
    }
  }

  lemma OneStep(n: Node, i: nat)
    ensures ValidPath(n, [i]) <==> i < |n.kids|
    ensures i < |n.kids| ==> At(n, [i]) == n.kids[i]
  {
    assert [i][1..] == [];
  }

  lemma TwoSteps(n: Node, i: nat, j: nat)
    ensures ValidPath(n, [i, j]) <==> i < |n.kids| && j < |n.kids[i].kids|
    ensures ValidPath(n, [i, j]) ==> At(n, [i, j]) == n.kids[i].kids[j]
  {
    assert [i, j][1..] == [j];
    if i < |n.kids| {
      OneStep(n.kids[i], j);
    }
  }

  lemma PrefixValid(n: Node, p: Path, k: nat)
    requires ValidPath(n, p) && k <= |p|
    ensures ValidPath(n, p[..k]) && ValidPath(At(n, p[..k]), p[k..])
    ensures At(n, p) == At(At(n, p[..k]), p[k..])
  {
    assert p == p[..k] + p[k..];
    AtAppend(n, p[..k], p[k..]);
  }

  function KindAt(n: Node, p: Path): Kind
    requires ValidPath(n, p)
  {
    At(n, p).kind
  }

  // ---- breadth-first search, the order of find_all ----

  function Height(n: Node): (h: nat)
    ensures forall i :: 0 <= i < |n.kids| ==> Height(n.kids[i]) < h
  {
    MaxHeight(n.kids) + 1
  }

  function MaxHeight(kids: seq<Node>): (h: nat)
    ensures forall i :: 0 <= i < |kids| ==> Height(kids[i]) <= h
  {
    if kids == [] then 0
    else
      var rest := MaxHeight(kids[1..]);
      var first := Height(kids[0]);
      assert forall i :: 1 <= i < |kids| ==> kids[i] == kids[1..][i - 1];
      if first > rest then first else rest
  }

  /** The positions d steps below n, left to right. */
  function Level(n: Node, d: nat): seq<Path>
    decreases d, 0
  {
    if d == 0 then [[]] else KidLevels(n.kids, d - 1, 0)
  }

  function KidLevels(kids: seq<Node>, d: nat, i: nat): seq<Path>
    requires i <= |kids|
    decreases d, 1, |kids| - i
  {
    if i == |kids| then [] else Prefixed(i, Level(kids[i], d)) + KidLevels(kids, d, i + 1)
  }

  function Prefixed(i: nat, ps: seq<Path>): (r: seq<Path>)
    ensures |r| == |ps| && forall k :: 0 <= k < |ps| ==> r[k] == [i] + ps[k]
  {
    seq(|ps|, k requires 0 <= k < |ps| => [i] + ps[k])
  }

  function Levels(n: Node, d: nat): seq<Path> {
    if d == 0 then [] else Levels(n, d - 1) + Level(n, d - 1)
  }

  /** Every node position of the tree, level by level. */
  function Nodes(n: Node): seq<Path> { Levels(n, Height(n)) }

  lemma {:induction false} LevelMembers(n: Node, d: nat, p: Path)
    ensures p in Level(n, d) <==> ValidPath(n, p) && |p| == d
    decreases d, 0
  {
    if d > 0 {
      KidLevelMembers(n.kids, d - 1, 0, p);
    }
  }

  lemma {:induction false} KidLevelMembers(kids: seq<Node>, d: nat, i: nat, p: Path)
    requires i <= |kids|
    ensures p in KidLevels(kids, d, i)
            <==> |p| == d + 1 && i <= p[0] < |kids| && ValidPath(kids[p[0]], p[1..])
    decreases d, 1, |kids| - i
  {
    if i < |kids| {
      KidLevelMembers(kids, d, i + 1, p);
      var here := Level(kids[i], d);
      if p != [] && p[0] == i {
        LevelMembers(kids[i], d, p[1..]);
        assert p == [i] + p[1..];
        if p[1..] in here {
          var k :| 0 <= k < |here| && here[k] == p[1..];
          assert Prefixed(i, here)[k] == p;
        }
        if p in Prefixed(i, here) {
          var k :| 0 <= k < |here| && Prefixed(i, here)[k] == p;
          assert here[k] == p[1..];
        }
      }
    }
  }

  lemma {:induction false} LevelsMembers(n: Node, d: nat, p: Path)
    ensures p in Levels(n, d) <==> ValidPath(n, p) && |p| < d
  {
    if d > 0 {
      LevelsMembers(n, d - 1, p);
      LevelMembers(n, d - 1, p);
    }
  }

  lemma {:induction false} PathBelowHeight(n: Node, p: Path)
    requires ValidPath(n, p)
    ensures |p| < Height(n)
  {
    if p != [] {
      PathBelowHeight(n.kids[p[0]], p[1..]);
    }
  }

  /** The search visits exactly the nodes of the tree. */
  lemma NodesMembers(n: Node, p: Path)
    ensures p in Nodes(n) <==> ValidPath(n, p)
  {
    LevelsMembers(n, Height(n), p);
    if ValidPath(n, p) {
      PathBelowHeight(n, p);
    }
  }

  predicate NoRepeats<T(==)>(s: seq<T>) { forall i, j :: 0 <= i < j < |s| ==> s[i] != s[j] }

  lemma NoRepeatsAppend<T>(s: seq<T>, u: seq<T>)
    requires NoRepeats(s) && NoRepeats(u) && forall x :: x in s ==> x !in u
    ensures NoRepeats(s + u)
  {
    var w := s + u;
    forall i, j | 0 <= i < j < |w|
      ensures w[i] != w[j]
    {
      assert i < |s| ==> w[i] in s;
      assert j >= |s| ==> w[j] in u;
    }
  }

  lemma {:induction false} LevelDistinct(n: Node, d: nat)
    ensures NoRepeats(Level(n, d))
    decreases d, 0
  {
    if d > 0 {
      KidLevelsDistinct(n.kids, d - 1, 0);
    }
  }

  lemma {:induction false} KidLevelsDistinct(kids: seq<Node>, d: nat, i: nat)
    requires i <= |kids|
    ensures NoRepeats(KidLevels(kids, d, i))
    decreases d, 1, |kids| - i
  {
    if i < |kids| {
      LevelDistinct(kids[i], d);
      KidLevelsDistinct(kids, d, i + 1);
      var here, rest := Prefixed(i, Level(kids[i], d)), KidLevels(kids, d, i + 1);
      forall p | p in here
        ensures p !in rest
      {
        KidLevelMembers(kids, d, i + 1, p);
      }
      forall a, b | 0 <= a < b < |here|
        ensures here[a] != here[b]
      {
        assert here[a][1..] == Level(kids[i], d)[a] && here[b][1..] == Level(kids[i], d)[b];
      }
      NoRepeatsAppend(here, rest);
    }
  }

  lemma {:induction false} LevelsDistinct(n: Node, d: nat)
    ensures NoRepeats(Levels(n, d))
  {
    if d > 0 {
      LevelsDistinct(n, d - 1);
      LevelDistinct(n, d - 1);
      var above, level := Levels(n, d - 1), Level(n, d - 1);
      forall p: Path | p in above
        ensures p !in level
      {
        LevelsMembers(n, d - 1, p);
        LevelMembers(n, d - 1, p);
      }
      NoRepeatsAppend(Levels(n, d - 1), Level(n, d - 1));
    }
  }
}
