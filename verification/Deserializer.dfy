/**
 The tree of `SerializationInfo` nodes and the stack a `Deserializer` keeps while a push
 parser fills that tree.
 */
module SerializationTree {
  import opened Wrappers

  datatype Category = Void | Value | Object | Array

  /** A node whose scalar, if any, is a string; `None` is the source's `t_none`. */
  datatype Node = Node(category: Category, name: string, typeName: string, value: Option<string>, members: seq<Node>)

  function FreshNode(name: string): Node {
    Node(Void, name, "", None, [])
  }

  /** `SerializationInfo::addMember`: the first member decides the category of a plain node. */
  function Adopt(parent: Node, name: string): Node {
    if parent.category == Array || parent.category == Object then parent
    else parent.(category := if name == "" then Array else Object)
  }

  function WithMember(parent: Node, child: Node): Node {
    parent.(members := parent.members + [child])
  }
}

/**
 The deserializer seen as the open nodes themselves: the node being filled and those around
 it, outermost first.  Every open node holds its finished members, and an open child is
 joined to its parent when it is left.
 */
module OpenNodes {
  import opened Wrappers
  import opened SerializationTree

  datatype Stack = Stack(top: Node, below: seq<Node>)

  function Depth(d: Stack): (r: nat)
    ensures r >= 1
  {
    |d.below| + 1
  }

  function SetTop(d: Stack, n: Node): Stack {
    d.(top := n)
  }

  function SetCategory(d: Stack, c: Category): Stack {
    SetTop(d, d.top.(category := c))
  }

  function SetValue(d: Stack, value: string): Stack {
    SetTop(d, d.top.(value := Some(value), category := Value))
  }

  function SetTypeName(d: Stack, t: string): Stack {
    SetTop(d, d.top.(typeName := t))
  }

  function SetNull(d: Stack): Stack {
    SetTop(d, d.top.(value := None, category := Value, members := []))
  }

  function BeginMember(d: Stack, name: string): (r: Stack)
    ensures Depth(r) == Depth(d) + 1
  {
    Stack(FreshNode(name), d.below + [Adopt(d.top, name)])
  }

  /** `leaveMember`; `None` is its "invalid member" error. */
  function LeaveMember(d: Stack): (r: Option<Stack>)
    ensures r.None? <==> Depth(d) == 1
    ensures r.Some? ==> Depth(r.value) == Depth(d) - 1
  {
    if Depth(d) <= 1 then None
    else Some(Stack(WithMember(d.below[|d.below| - 1], d.top), d.below[..|d.below| - 1]))
  }
}

/**
 The deserializer as it is stored: one tree, and a stack of pointers into it.  A pointer is
 the path of child positions from the root.
 */
module DeserializerObject {
  import opened Wrappers
  import opened SerializationTree
  import opened OpenNodes

  type Path = seq<nat>

  predicate IsPath(n: Node, path: Path) {
    path != [] ==> path[0] < |n.members| && IsPath(n.members[path[0]], path[1..])
  }

  function Get(n: Node, path: Path): Node
    requires IsPath(n, path)
  {
    if path == [] then n else Get(n.members[path[0]], path[1..])
  }

  /** The tree with the node at `path` replaced. */
  function Put(n: Node, path: Path, x: Node): Node
    requires IsPath(n, path)
  {
    if path == [] then x
    else n.(members := n.members[path[0] := Put(n.members[path[0]], path[1..], x)])
  }

  // ---------------------------------------------------------------- the rightmost path

  function Last(n: Node): Node
    requires n.members != []
  {
    n.members[|n.members| - 1]
  }

  predicate HasRight(n: Node, k: nat)
    decreases k
  {
    k > 0 ==> n.members != [] && HasRight(Last(n), k - 1)
  }

  /** The path that follows the last member `k` times. */
  function RightPath(n: Node, k: nat): (r: Path)
    requires HasRight(n, k)
    ensures |r| == k
    decreases k
  {
    if k == 0 then [] else [|n.members| - 1] + RightPath(Last(n), k - 1)
  }

  /** The nodes along that path, each without the member that is still open. */
  function OpenAlong(n: Node, k: nat): (r: Stack)
    requires HasRight(n, k)
    ensures Depth(r) == k + 1
    decreases k
  {
    if k == 0 then Stack(n, [])
    else
      var inner := OpenAlong(Last(n), k - 1);
      Stack(inner.top, [n.(members := n.members[..|n.members| - 1])] + inner.below)
  }

  lemma {:induction false} RightPathIsPath(n: Node, k: nat)
    requires HasRight(n, k)
    ensures IsPath(n, RightPath(n, k)) && Get(n, RightPath(n, k)) == OpenAlong(n, k).top
    decreases k
  {
    if k > 0 {
      RightPathIsPath(Last(n), k - 1);
      assert RightPath(n, k)[1..] == RightPath(Last(n), k - 1);
    }
  }

  /** A shorter rightmost path is a prefix of a longer one. */
  lemma {:induction false} RightPathPrefix(n: Node, i: nat, k: nat)
    requires i <= k && HasRight(n, k)
    ensures HasRight(n, i) && RightPath(n, i) == RightPath(n, k)[..i]
    decreases i
  {
    if i > 0 {
      RightPathPrefix(Last(n), i - 1, k - 1);
      assert RightPath(n, k)[..i] == [|n.members| - 1] + RightPath(Last(n), k - 1)[..i - 1];
    }
  }

  /** Replacing the node at the end of the path leaves the path and all outer nodes alone. */
  lemma {:induction false} PutTop(n: Node, k: nat, x: Node)
    requires HasRight(n, k)
    ensures IsPath(n, RightPath(n, k))
    ensures var n' := Put(n, RightPath(n, k), x);
            HasRight(n', k) && RightPath(n', k) == RightPath(n, k) && OpenAlong(n', k) == SetTop(OpenAlong(n, k), x)
    decreases k
  {
    RightPathIsPath(n, k);
    if k > 0 {
      PutTop(Last(n), k - 1, x);
      var inner := Put(Last(n), RightPath(Last(n), k - 1), x);
      assert RightPath(n, k)[1..] == RightPath(Last(n), k - 1);
      var n' := Put(n, RightPath(n, k), x);
      assert Last(n') == inner;
      assert n'.members[..|n.members| - 1] == n.members[..|n.members| - 1];
    }
  }

  /** One step further down: the child just added is the new end of the path. */
  lemma {:induction false} Descend(n: Node, k: nat)
    requires HasRight(n, k) && OpenAlong(n, k).top.members != []
    ensures var t := OpenAlong(n, k).top;
            && HasRight(n, k + 1)
            && RightPath(n, k + 1) == RightPath(n, k) + [|t.members| - 1]
            && OpenAlong(n, k + 1) ==
               Stack(Last(t), OpenAlong(n, k).below + [t.(members := t.members[..|t.members| - 1])])
    decreases k
  {
    if k == 0 {
      assert OpenAlong(Last(n), 0) == Stack(Last(n), []);
      assert RightPath(Last(n), 0) == [];
    } else {
      Descend(Last(n), k - 1);
    }
  }

  class Deserializer {
    var si: Node
    var current: seq<Path>

    /** The stack is the open rightmost path of the tree, outermost node first. */
    ghost predicate Valid()
      reads this
    {
      && |current| >= 1
      && HasRight(si, |current| - 1)
      && forall i :: 0 <= i < |current| ==> HasRight(si, i) && current[i] == RightPath(si, i)
    }

    ghost function Nodes(): (d: Stack)
      requires Valid()
      reads this
      ensures Depth(d) == |current|
    {
      OpenAlong(si, |current| - 1)
    }

    constructor ()
      ensures Valid() && Nodes() == Stack(FreshNode(""), [])
    {
      si := FreshNode("");
      current := [[]];
    }

    method Begin()
      modifies this
      ensures Valid() && Nodes() == Stack(FreshNode(""), [])
    {
      si := FreshNode("");
      current := [[]];
    }

    /** The node `current()` points to. */
    method Current() returns (n: Node)
      requires Valid()
      ensures n == Nodes().top
    {
      RightPathIsPath(si, |current| - 1);
      n := Get(si, current[|current| - 1]);
    }

    /** Writes through `current()`. */
    method Store(n: Node)
      requires Valid()
      modifies this`si
      ensures Valid() && Nodes() == SetTop(old(Nodes()), n)
    {
      var k := |current| - 1;
      PutTop(si, k, n);
      forall i | 0 <= i <= k
        ensures RightPath(si, i) == RightPath(si, k)[..i]
      {
        RightPathPrefix(si, i, k);
      }
      var si' := Put(si, current[k], n);
      forall i | 0 <= i <= k
        ensures HasRight(si', i) && RightPath(si', i) == current[i]
      {
        RightPathPrefix(si', i, k);
      }
      si := si';
    }

    method SetCategory(category: Category)
      requires Valid()
      modifies this`si
      ensures Valid() && Nodes() == OpenNodes.SetCategory(old(Nodes()), category)
    {
      var n := Current();
      Store(n.(category := category));
    }

    method SetValue(value: string)
      requires Valid()
      modifies this`si
      ensures Valid() && Nodes() == OpenNodes.SetValue(old(Nodes()), value)
    {
      var n := Current();
      Store(n.(value := Some(value), category := Value));
    }

    method SetTypeName(typeName: string)
      requires Valid()
      modifies this`si
      ensures Valid() && Nodes() == OpenNodes.SetTypeName(old(Nodes()), typeName)
    {
      var n := Current();
      Store(n.(typeName := typeName));
    }

    method SetNull()
      requires Valid()
      modifies this`si
      ensures Valid() && Nodes() == OpenNodes.SetNull(old(Nodes()))
    {
      var n := Current();
      Store(n.(value := None, category := Value, members := []));
    }

    /** Adds a child to the current node and makes it the current one. */
    method BeginMember(name: string)
      requires Valid()
      modifies this
      ensures Valid() && Nodes() == OpenNodes.BeginMember(old(Nodes()), name)
    {
      var n := Current();
      var parent := Adopt(n, name);
      var index := |n.members|;
      Store(WithMember(parent, FreshNode(name)));
      Descend(si, |current| - 1);
      var t := WithMember(parent, FreshNode(name));
      assert t.members[..|t.members| - 1] == parent.members;
      current := current + [current[|current| - 1] + [index]];
    }

    /** Pops the stack; false is the "invalid member" error. */
    method LeaveMember() returns (ok: bool)
      requires Valid()
      modifies this`current
      ensures Valid()
      ensures match OpenNodes.LeaveMember(old(Nodes()))
              case None => !ok && current == old(current)
              case Some(d) => ok && Nodes() == d
    {
      ok := |current| > 1;
      if ok {
        LeaveAlong(si, |current| - 1);
        current := current[..|current| - 1];
      }
    }
  }

  /** Popping the stack joins the open child to its parent without touching the tree. */
  lemma {:induction false} LeaveAlong(n: Node, k: nat)
    requires HasRight(n, k) && k >= 1
    ensures HasRight(n, k - 1) && OpenNodes.LeaveMember(OpenAlong(n, k)) == Some(OpenAlong(n, k - 1))
    decreases k
  {
    var inner := OpenAlong(Last(n), k - 1);
    var front := n.members[..|n.members| - 1];
    if k == 1 {
      assert front + [Last(n)] == n.members;
    } else {
      LeaveAlong(Last(n), k - 1);
      var below := [n.(members := front)] + inner.below;
      assert below[..|below| - 1] == [n.(members := front)] + inner.below[..|inner.below| - 1];
    }
  }
}
