/** Replicas meet in any order and grouping: a merge tree is one such history. */
module MergeTrees {

  datatype Tree<T> = Leaf(doc: T) | Node(left: Tree<T>, right: Tree<T>)

  function Eval<T>(op: (T, T) -> T, t: Tree<T>): T {
    match t
    case Leaf(d) => d
    case Node(l, r) => op(Eval(op, l), Eval(op, r))
  }

  ghost function Leaves<T>(t: Tree<T>): set<T> {
    match t
    case Leaf(d) => {d}
    case Node(l, r) => Leaves(l) + Leaves(r)
  }

  /** The left fold of a sequence is one tree; its leaves are the elements. */
  ghost function FoldTree<T>(ds: seq<T>): Tree<T>
    requires ds != []
  {
    if |ds| == 1 then Leaf(ds[0]) else Node(FoldTree(ds[..|ds| - 1]), Leaf(ds[|ds| - 1]))
  }

  lemma {:induction false} FoldLeaves<T>(ds: seq<T>)
    requires ds != []
    ensures Leaves(FoldTree(ds)) == set d | d in ds
  {
    if |ds| > 1 {
      FoldLeaves(ds[..|ds| - 1]);
      assert ds == ds[..|ds| - 1] + [ds[|ds| - 1]];
    }
  }
}
