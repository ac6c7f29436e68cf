/**
 * The labelled syntax tree produced by the external parser. Only two things of a
 * parser node are ever consulted by the compiler stages: its text and its
 * ordered children, so the tree is modelled by exactly those two.
 */
module Syntax {

  datatype Tree = Tree(text: string, children: seq<Tree>)

  /** Number of direct children of `t` whose label is `l`. */
  function CountLabel(children: seq<Tree>, l: string): nat
  {
    if children == [] then 0
    else CountLabel(children[..|children| - 1], l) + (if children[|children| - 1].text == l then 1 else 0)
  }

  /** Some direct child carries label `l`. */
  predicate HasChildLabelled(t: Tree, l: string)
  {
    exists i :: 0 <= i < |t.children| && t.children[i].text == l
  }

  /** The whole-length prefix of a child list is the list. */
  lemma ChildrenWhole(cs: seq<Tree>)
    ensures cs[..|cs|] == cs
  {
  }

  /** Dropping the last of the first `i` children gives the first `i - 1`. */
  lemma ChildrenPrefix(cs: seq<Tree>, i: nat)
    requires 0 < i <= |cs|
    ensures cs[..i][..i - 1] == cs[..i - 1]
  {
  }

  lemma CountLabelStep(cs: seq<Tree>, i: nat, l: string)
    requires i < |cs|
    ensures CountLabel(cs[..i + 1], l) == CountLabel(cs[..i], l) + (if cs[i].text == l then 1 else 0)
  {
    assert cs[..i + 1][..i] == cs[..i];
  }

  /** The count is positive exactly when some child carries the label. */
  lemma {:induction false} CountLabelPositive(cs: seq<Tree>, l: string)
    ensures CountLabel(cs, l) > 0 <==> exists i :: 0 <= i < |cs| && cs[i].text == l
  {
    if cs != [] {
      var p := cs[..|cs| - 1];
      CountLabelPositive(p, l);
      if exists i :: 0 <= i < |p| && p[i].text == l {
        var i :| 0 <= i < |p| && p[i].text == l;
        assert cs[i] == p[i];
      }
      if exists i :: 0 <= i < |cs| && cs[i].text == l {
        var i :| 0 <= i < |cs| && cs[i].text == l;
        if i < |p| { assert p[i] == cs[i]; }
      }
    }
  }
}
