/** Walking nouns with an explicit work stack. */
module Nouns {
  import opened Field
  import opened Tx

  function Leaves(n: Noun): nat {
    match n
    case Atom(_) => 1
    case Cell(head, tail) => Leaves(head) + Leaves(tail)
  }

  /** An atom has depth 1. */
  function Depth(n: Noun): nat {
    match n
    case Atom(_) => 1
    case Cell(head, tail) => 1 + Max(Depth(head), Depth(tail))
  }

  function Max(a: nat, b: nat): nat {
    if a >= b then a else b
  }

  // The nodes of a noun: what a step of either walk uses up.
  function Nodes(n: Noun): nat {
    match n
    case Atom(_) => 1
    case Cell(head, tail) => 1 + Nodes(head) + Nodes(tail)
  }

  function NodesOn(stack: seq<Noun>): nat {
    if stack == [] then 0 else NodesOn(stack[..|stack| - 1]) + Nodes(stack[|stack| - 1])
  }

  function LeavesOn(stack: seq<Noun>): nat {
    if stack == [] then 0 else LeavesOn(stack[..|stack| - 1]) + Leaves(stack[|stack| - 1])
  }

  lemma PushTwo(stack: seq<Noun>, a: Noun, b: Noun)
    ensures NodesOn(stack + [a, b]) == NodesOn(stack) + Nodes(a) + Nodes(b)
    ensures LeavesOn(stack + [a, b]) == LeavesOn(stack) + Leaves(a) + Leaves(b)
  {
    assert (stack + [a, b])[..|stack| + 1] == stack + [a];
    assert (stack + [a])[..|stack|] == stack;
  }

  /** Of the nodes of a noun, one more than half are atoms. */
  lemma {:induction false} LeavesOfNodes(n: Noun)
    ensures Nodes(n) == 2 * Leaves(n) - 1
  {
    if n.Cell? {
      LeavesOfNodes(n.head);
      LeavesOfNodes(n.tail);
    }
  }

  /** The depth is between the leaf count's logarithm and the leaf count. */
  lemma {:induction false} DepthAndLeaves(n: Noun)
    ensures 1 <= Depth(n) <= Leaves(n) <= Pow2(Depth(n) - 1)
  {
    if n.Cell? {
      DepthAndLeaves(n.head);
      DepthAndLeaves(n.tail);
      Pow2Grows(Depth(n.head) - 1, Depth(n) - 2);
      Pow2Grows(Depth(n.tail) - 1, Depth(n) - 2);
    }
  }

  lemma {:induction false} Pow2Grows(a: nat, b: nat)
    requires a <= b
    ensures Pow2(a) <= Pow2(b)
  {
    if a < b {
      Pow2Grows(a, b - 1);
    }
  }

  /** `num_of_leaves`: the count of every atom, in any noun. */
  method NumOfLeaves(noun: Noun) returns (count: nat)
    ensures count == Leaves(noun) && Nodes(noun) == 2 * count - 1
  {
    LeavesOfNodes(noun);
    count := 0;
    var stack := [noun];
    assert stack[..0] == [];
    while stack != []
      invariant count + LeavesOn(stack) == Leaves(noun)
      decreases NodesOn(stack)
    {
      var n := stack[|stack| - 1];
      stack := stack[..|stack| - 1];
      match n
      case Atom(_) => count := count + 1;
      case Cell(head, tail) =>
        PushTwo(stack, head, tail);
        stack := stack + [head, tail];
    }
  }

  function WorkNodes(work: seq<(Noun, nat)>): nat {
    if work == [] then 0 else WorkNodes(work[..|work| - 1]) + Nodes(work[|work| - 1].0)
  }

  /** The greatest depth any node still on the stack can reach. */
  function Reach(work: seq<(Noun, nat)>): nat {
    if work == [] then 0 else
      var (n, d) := work[|work| - 1];
      Max(Reach(work[..|work| - 1]), d + Depth(n))
  }

  lemma PushTwoDeep(work: seq<(Noun, nat)>, a: Noun, b: Noun, d: nat)
    ensures WorkNodes(work + [(a, d), (b, d)]) == WorkNodes(work) + Nodes(a) + Nodes(b)
    ensures Reach(work + [(a, d), (b, d)]) == Max(Reach(work), d + Max(Depth(a), Depth(b)))
  {
    assert (work + [(a, d), (b, d)])[..|work| + 1] == work + [(a, d)];
    assert (work + [(a, d)])[..|work|] == work;
  }

  /** Visiting the top of the stack: what is left, its children pushed, accounts for all that was there. */
  lemma Visit(work: seq<(Noun, nat)>, rest: seq<(Noun, nat)>, n: Noun, d: nat, max: nat)
    requires work == rest + [(n, d)]
    ensures var next := if n.Atom? then rest else rest + [(n.head, d + 1), (n.tail, d + 1)];
            && WorkNodes(next) < WorkNodes(work)
            && Max(Max(d, max) + 1, Reach(next)) == Max(max + 1, Reach(work))
  {
    assert work[..|rest|] == rest;
    if n.Cell? {
      PushTwoDeep(rest, n.head, n.tail, d + 1);
    }
  }

  /** `noun_depth`, with the depth of each node carried beside it. */
  method NounDepth(root: Noun) returns (max: nat)
    ensures max == Depth(root)
    ensures 1 <= max <= Leaves(root) <= Pow2(max - 1)
  {
    DepthAndLeaves(root);
    var work: seq<(Noun, nat)> := [(root, 1)];
    max := 0;
    assert work[..0] == [];
    while work != []
      invariant Max(max + 1, Reach(work)) == Depth(root) + 1
      decreases WorkNodes(work)
    {
      var (n, d) := work[|work| - 1];
      var rest := work[..|work| - 1];
      Visit(work, rest, n, d, max);
      work := rest;
      max := if d > max then d else max;
      match n
      case Atom(_) =>
      case Cell(head, tail) =>
        var below: nat := d + 1;
        var h: (Noun, nat), t: (Noun, nat) := (head, below), (tail, below);
        work := work + [h, t];
    }
  }
}
