/**
 The nesting of the states of a hierarchical state machine, and the paths along which a transition leaves and
 enters states. The states are the elements of any type `S`; a tree gives each its super-state and its depth.
 */
module StateHierarchy {

  datatype Tree<!S> = Tree(top: S, parent: S -> S, depth: S -> nat)

  /** Going up shortens the way to the top. */
  ghost predicate WellFormed<S(!new)>(tree: Tree<S>) {
    forall s {:trigger tree.parent(s)} :: s != tree.top ==> tree.depth(s) == tree.depth(tree.parent(s)) + 1
  }

  /** Is `a` the state `s` itself or one of its super-states? */
  predicate IsIn<S(==,!new)>(tree: Tree<S>, s: S, a: S)
    requires WellFormed(tree)
    decreases tree.depth(s)
  {
    s == a || (s != tree.top && IsIn(tree, tree.parent(s), a))
  }

  /** The deepest state that both `s` and `t` lie in. */
  function LeastCommonAncestor<S(==,!new)>(tree: Tree<S>, s: S, t: S): (a: S)
    requires WellFormed(tree)
    ensures IsIn(tree, s, tree.top) && IsIn(tree, t, tree.top) ==> IsIn(tree, s, a) && IsIn(tree, t, a)
    decreases tree.depth(s) + tree.depth(t)
  {
    if s == t then s
    else if s == tree.top || t == tree.top then tree.top
    else if tree.depth(s) > tree.depth(t) then LeastCommonAncestor(tree, tree.parent(s), t)
    else if tree.depth(t) > tree.depth(s) then LeastCommonAncestor(tree, s, tree.parent(t))
    else LeastCommonAncestor(tree, tree.parent(s), tree.parent(t))
  }

  /** The states below `a` on the way down to `s`, outermost first. */
  function PathDown<S(==,!new)>(tree: Tree<S>, a: S, s: S): (path: seq<S>)
    requires WellFormed(tree)
    decreases tree.depth(s)
  {
    if s == a || s == tree.top then [] else PathDown(tree, a, tree.parent(s)) + [s]
  }

  lemma {:induction false} DepthOfAncestor<S(!new)>(tree: Tree<S>, s: S, a: S)
    requires WellFormed(tree) && IsIn(tree, s, a)
    ensures s != a ==> tree.depth(a) < tree.depth(s)
    decreases tree.depth(s)
  {
    if s != a { DepthOfAncestor(tree, tree.parent(s), a); }
  }

  lemma {:induction false} IsInTransitive<S(!new)>(tree: Tree<S>, s: S, a: S, b: S)
    requires WellFormed(tree) && IsIn(tree, s, a) && IsIn(tree, a, b)
    ensures IsIn(tree, s, b)
    decreases tree.depth(s)
  {
    if s != a { IsInTransitive(tree, tree.parent(s), a, b); }
  }

  /** Every state that both `s` and `t` lie in contains their least common ancestor. */
  lemma {:induction false} LeastCommonAncestorIsDeepest<S(!new)>(tree: Tree<S>, s: S, t: S, b: S)
    requires WellFormed(tree) && IsIn(tree, s, b) && IsIn(tree, t, b)
    ensures IsIn(tree, LeastCommonAncestor(tree, s, t), b)
    decreases tree.depth(s) + tree.depth(t)
  {
    DepthOfAncestor(tree, s, b);
    DepthOfAncestor(tree, t, b);
    if s == t || s == tree.top || t == tree.top {
    } else if tree.depth(s) > tree.depth(t) {
      LeastCommonAncestorIsDeepest(tree, tree.parent(s), t, b);
    } else if tree.depth(t) > tree.depth(s) {
      LeastCommonAncestorIsDeepest(tree, s, tree.parent(t), b);
    } else {
      LeastCommonAncestorIsDeepest(tree, tree.parent(s), tree.parent(t), b);
    }
  }

  /** The entry path is a chain from `a` down to `s` of exactly the states of `s` that `a` does not lie in. */
  lemma {:induction false} PathDownSpec<S(!new)>(tree: Tree<S>, a: S, s: S, b: S)
    requires WellFormed(tree) && IsIn(tree, s, a)
    ensures b in PathDown(tree, a, s) <==> IsIn(tree, s, b) && !IsIn(tree, a, b)
    ensures s != a ==> PathDown(tree, a, s) != [] && tree.parent(PathDown(tree, a, s)[0]) == a
    ensures s != a ==> PathDown(tree, a, s)[|PathDown(tree, a, s)| - 1] == s
    ensures forall i :: 0 < i < |PathDown(tree, a, s)| ==>
              tree.parent(PathDown(tree, a, s)[i]) == PathDown(tree, a, s)[i - 1]
    decreases tree.depth(s)
  {
    if s != a {
      PathDownSpec(tree, a, tree.parent(s), b);
      DepthOfAncestor(tree, s, a);
      if b == s && IsIn(tree, a, b) { DepthOfAncestor(tree, a, b); }
    }
  }

  /** A transition between two states enters exactly the states of its target that its source is not in. */
  lemma EntersExactlyTheNewStates<S(!new)>(tree: Tree<S>, source: S, target: S, b: S)
    requires WellFormed(tree) && IsIn(tree, source, tree.top) && IsIn(tree, target, tree.top)
    ensures b in PathDown(tree, LeastCommonAncestor(tree, source, target), target)
        <==> IsIn(tree, target, b) && !IsIn(tree, source, b)
  {
    var a := LeastCommonAncestor(tree, source, target);
    PathDownSpec(tree, a, target, b);
    if IsIn(tree, target, b) && IsIn(tree, source, b) {
      LeastCommonAncestorIsDeepest(tree, source, target, b);
    }
    if IsIn(tree, a, b) { IsInTransitive(tree, source, a, b); }
  }
}
