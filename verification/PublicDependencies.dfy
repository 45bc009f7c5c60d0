/** The dependency set of a file under construction: its direct imports and everything they import
    publicly, on any import graph. */
module PublicDependencies {
  import opened Options

  /** The public imports of each file; None stands for an import that was not found. */
  type Graph = map<string, seq<Option<string>>>

  predicate Edge(g: Graph, a: string, b: string) {
    a in g && Some(b) in g[a]
  }

  ghost predicate Path(g: Graph, p: seq<string>) {
    p != [] && forall i :: 0 <= i < |p| - 1 ==> Edge(g, p[i], p[i + 1])
  }

  ghost predicate PathFromTo(g: Graph, p: seq<string>, a: string, b: string) {
    Path(g, p) && p[0] == a && p[|p| - 1] == b
  }

  ghost predicate Reaches(g: Graph, a: string, b: string) {
    exists p :: PathFromTo(g, p, a, b)
  }

  ghost predicate ClosedAt(g: Graph, deps: set<string>, n: string) {
    forall b :: Edge(g, n, b) ==> b in deps
  }

  lemma ReachesSelf(g: Graph, a: string)
    ensures Reaches(g, a, a)
  {
    assert PathFromTo(g, [a], a, a);
  }

  lemma ReachesThrough(g: Graph, a: string, b: string, c: string)
    requires Edge(g, a, b) && Reaches(g, b, c)
    ensures Reaches(g, a, c)
  {
    var p :| PathFromTo(g, p, b, c);
    assert PathFromTo(g, [a] + p, a, c);
  }

  lemma {:induction false} ClosedSetHoldsPath(g: Graph, deps: set<string>, p: seq<string>)
    requires Path(g, p) && p[0] in deps
    requires forall n :: n in deps ==> ClosedAt(g, deps, n)
    ensures p[|p| - 1] in deps
    decreases |p|
  {
    if |p| > 1 {
      assert Edge(g, p[0], p[1]);
      forall i | 0 <= i < |p[1..]| - 1
        ensures Edge(g, p[1..][i], p[1..][i + 1])
      {
        assert Edge(g, p[i + 1], p[i + 1 + 1]);
      }
      ClosedSetHoldsPath(g, deps, p[1..]);
    }
  }

  lemma ClosedStays(g: Graph, deps: set<string>, more: set<string>)
    requires deps <= more
    ensures forall n :: ClosedAt(g, deps, n) ==> ClosedAt(g, more, n)
  {
  }

  /** n is one of the direct imports or behind one by public imports. */
  ghost predicate Visible(g: Graph, direct: seq<Option<string>>, n: string) {
    exists i :: 0 <= i < |direct| && direct[i].Some? && Reaches(g, direct[i].value, n)
  }

  class DependencyRecorder {
    var dependencies: set<string>

    constructor ()
      ensures dependencies == {}
    {
      dependencies := {};
    }

    method RecordPublicDependencies(g: Graph, file: Option<string>)
      modifies this
      ensures old(dependencies) <= dependencies
      ensures file == None ==> dependencies == old(dependencies)
      ensures file.Some? ==> file.value in dependencies
      ensures forall n :: n in dependencies - old(dependencies) ==> file.Some? && Reaches(g, file.value, n)
      ensures forall n :: n in dependencies - old(dependencies) ==> ClosedAt(g, dependencies, n)
      decreases g.Keys - dependencies
    {
      if file == None || file.value in dependencies {
        return;
      }
      var f := file.value;
      dependencies := dependencies + {f};
      ReachesSelf(g, f);
      var public := if f in g then g[f] else [];
      for i := 0 to |public|
        invariant old(dependencies) + {f} <= dependencies
        invariant forall j :: 0 <= j < i && public[j].Some? ==> public[j].value in dependencies
        invariant forall n :: n in dependencies - old(dependencies) ==> Reaches(g, f, n)
        invariant forall n :: n in dependencies - old(dependencies) - {f} ==> ClosedAt(g, dependencies, n)
      {
        ghost var before := dependencies;
        RecordPublicDependencies(g, public[i]);
        forall n | n in dependencies - before
          ensures Reaches(g, f, n)
        {
          assert Edge(g, f, public[i].value);
          ReachesThrough(g, f, public[i].value, n);
        }
        ClosedStays(g, before, dependencies);
      }
      assert ClosedAt(g, dependencies, f);
    }

    /** The loop of BuildFileImpl over the direct imports: exactly what they reach publicly. */
    method BuildDependencySet(g: Graph, direct: seq<Option<string>>)
      modifies this
      ensures forall n :: n in dependencies <==> Visible(g, direct, n)
    {
      dependencies := {};
      for i := 0 to |direct|
        invariant forall j :: 0 <= j < i && direct[j].Some? ==> direct[j].value in dependencies
        invariant forall n :: n in dependencies ==> Visible(g, direct, n)
        invariant forall n :: n in dependencies ==> ClosedAt(g, dependencies, n)
      {
        ghost var before := dependencies;
        RecordPublicDependencies(g, direct[i]);
        ClosedStays(g, before, dependencies);
        forall n | n in dependencies - before
          ensures Visible(g, direct, n)
        {
          assert direct[i].Some? && Reaches(g, direct[i].value, n);
        }
      }
      forall n | Visible(g, direct, n)
        ensures n in dependencies
      {
        var i :| 0 <= i < |direct| && direct[i].Some? && Reaches(g, direct[i].value, n);
        var p :| PathFromTo(g, p, direct[i].value, n);
        ClosedSetHoldsPath(g, dependencies, p);
      }
    }
  }
}
