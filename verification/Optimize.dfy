/** Extraction from a saturated e-graph: the cheapest program of a class computes what the
    class's original node computes. */
module Optimize {
  import opened EOps
  import opened Rules
  import opened EGraphs
  import Extract
  import opened Lift

  /** The value of an extracted program. */
  ghost function TreeValue(m: Meaning, nodes: seq<ENode>, t: Extract.Tree): Val {
    var kids := seq(|t.kids|, i requires 0 <= i < |t.kids| => TreeValue(m, nodes, t.kids[i]));
    if t.id < |nodes| then Eval(m, nodes[t.id].op, kids) else Other(0)
  }

  /** Any program derived from a sound e-graph has the value its root e-node denotes. */
  lemma {:induction false} DerivedValue(m: Meaning, nodes: seq<ENode>, classes: map<nat, seq<nat>>, roots: seq<nat>,
                                        val: seq<Val>, t: Extract.Tree)
    requires Values(m, nodes, val) && Sound(roots, val) && Partition(roots, classes, |nodes|)
    requires Extract.Derives(Extract.Graph(nodes, classes), t)
    ensures TreeValue(m, nodes, t) == val[t.id]
    decreases t
  {
    var node := nodes[t.id];
    var kids := seq(|t.kids|, i requires 0 <= i < |t.kids| => TreeValue(m, nodes, t.kids[i]));
    assert ValueAt(m, nodes, val, t.id);
    forall i | 0 <= i < |t.kids|
      ensures kids[i] == Args(val, node.children)[i]
    {
      var kid := t.kids[i];
      DerivedValue(m, nodes, classes, roots, val, kid);
      assert Extract.InClass(Extract.Graph(nodes, classes), node.children[i], kid.id);
      assert MembersOf(roots, |nodes|, node.children[i], classes[node.children[i]]);
      assert SoundAt(roots, val, kid.id);
    }
    assert kids == Args(val, node.children);
  }

  lemma WellFormedGraph(nodes: seq<ENode>, classes: map<nat, seq<nat>>, roots: seq<nat>)
    requires Partition(roots, classes, |nodes|)
    ensures Extract.WellFormed(Extract.Graph(nodes, classes))
  {
  }

  /** The program rebuilt from the extraction choices for x's class computes x's value, and no
      program the e-graph derives for that class is cheaper. */
  lemma ExtractionKeepsMeaning(m: Meaning, nodes: seq<ENode>, classes: map<nat, seq<nat>>, roots: seq<nat>,
                               val: seq<Val>, best: seq<Extract.Choice>, x: nat)
    requires Values(m, nodes, val) && Sound(roots, val) && Partition(roots, classes, |nodes|) && x < |nodes|
    requires Canonical(roots, |nodes|)
    requires Extract.Extracted(Extract.Graph(nodes, classes), best) && best[roots[x]].Some?
    ensures var g := Extract.Graph(nodes, classes);
            var t := Extract.Rebuild(g, best, roots[x]);
            && TreeValue(m, nodes, t) == val[x]
            && Extract.Derives(g, t)
            && (forall u :: Extract.Derives(g, u) && Extract.InClass(g, roots[x], u.id) ==>
                  Extract.TreeCost(g, t) <= Extract.TreeCost(g, u))
  {
    var g := Extract.Graph(nodes, classes);
    var c := roots[x];
    Extract.RebuildIsCheapest(g, best, c);
    var t := Extract.Rebuild(g, best, c);
    DerivedValue(m, nodes, classes, roots, val, t);
    assert Extract.Cheapest(g, c, best[c].value.0, best[c].value.1);
    assert MembersOf(roots, |nodes|, c, classes[c]);
    assert SoundAt(roots, val, x) && SoundAt(roots, val, t.id);
  }

  /** End to end: the program extracted for a lifted node's class computes the node's value in
      the run the graph was lifted from. */
  lemma ExtractedProgramIsCorrect(lg: LiftedGraph, best: seq<Extract.Choice>, x: nat)
    requires lg.Valid() && x < |lg.nodeClass| && lg.nodeClass[x].Some?
    requires Extract.Extracted(Extract.Graph(lg.g.nodes, lg.g.classes), best)
    requires best[Roots(lg.g.uf.parent)[lg.nodeClass[x].value]].Some?
    ensures var c := Roots(lg.g.uf.parent)[lg.nodeClass[x].value];
            c in lg.g.classes
            && TreeValue(lg.m, lg.g.nodes, Extract.Rebuild(Extract.Graph(lg.g.nodes, lg.g.classes), best, c)) == lg.xval[x]
  {
    ExtractionKeepsMeaning(lg.m, lg.g.nodes, lg.g.classes, Roots(lg.g.uf.parent), lg.val, best, lg.nodeClass[x].value);
  }
}
