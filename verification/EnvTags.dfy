/** The check before loading: does a config type have an env tag anywhere below it? */
module EnvTags {
  import opened TypeGraph

  ghost predicate Tagged(f: Field) { f.exported && !f.tag.Untagged? }

  ghost predicate HasTag(g: Graph, t: Type) { t < |g| && exists f <- g[t] :: Tagged(f) }

  ghost predicate TagBelow(g: Graph, t: Type) { exists u :: Reaches(g, t, u) && HasTag(g, u) }

  /** The types added to the visited ones have no tag, and lead to visited ones only. */
  ghost predicate Explored(g: Graph, was: set<Type>, now: set<Type>) {
    && (forall u :: u in now && u !in was ==> !HasTag(g, u))
    && (forall u, c :: u in now && u !in was && Edge(g, u, c) ==> c in now)
  }

  lemma ExploredFurther(g: Graph, was: set<Type>, now: set<Type>, after: set<Type>)
    requires was <= now <= after && Explored(g, was, now) && Explored(g, now, after)
    ensures Explored(g, was, after)
  {
  }

  lemma TagBelowChild(g: Graph, t: Type, c: Type)
    requires Edge(g, t, c) && TagBelow(g, c)
    ensures TagBelow(g, t)
  {
    var u :| Reaches(g, c, u) && HasTag(g, u);
    ReachesBy(g, t, c, u);
  }

  lemma NoTagInside(g: Graph, t: Type, visited: set<Type>)
    requires t in visited && Explored(g, {}, visited)
    ensures !TagBelow(g, t)
  {
    forall u | Reaches(g, t, u) ensures !HasTag(g, u) {
      var p :| Path(g, p) && p[0] == t && p[|p| - 1] == u;
      StaysInside(g, visited, p);
    }
  }

  /** The walk, with the visited set all its calls share. */
  class Walk {
    const g: Graph
    var visited: set<Type>

    constructor (g: Graph)
      ensures this.g == g && visited == {}
    {
      this.g := g;
      visited := {};
    }

    method HasEnvTagsVisited(t: Type) returns (found: bool)
      requires Closed(g) && t < |g|
      modifies this
      ensures old(visited) <= visited
      ensures found ==> TagBelow(g, t)
      ensures !found ==> t in visited && Explored(g, old(visited), visited)
      decreases Types(g) - visited
    {
      if t in visited { return false; }
      ghost var was := visited;
      visited := visited + {t};
      ghost var start := visited;
      for i := 0 to |g[t]|
        invariant start <= visited && Explored(g, start, visited)
        invariant forall h :: 0 <= h < i ==> !Tagged(g[t][h])
        invariant forall h, c :: 0 <= h < i && Holds(g[t][h], c) ==> c in visited
      {
        var f := g[t][i];
        if !f.exported { continue; }
        if !f.tag.Untagged? {
          assert f in g[t] && HasTag(g, t);
          ReachesSelf(g, t);
          return true;
        }
        if f.kind.Struct? || f.kind.Pointer? {
          var c := if f.kind.Struct? then f.kind.of else f.kind.to;
          assert f in g[t] && Holds(f, c);
          ghost var before := visited;
          found := HasEnvTagsVisited(c);
          if found {
            TagBelowChild(g, t, c);
            return true;
          }
          ExploredFurther(g, start, before, visited);
        }
      }
      return false;
    }
  }

  /** True exactly when a tagged field can be reached, on every graph, cycles included. */
  method HasEnvTags(g: Graph, t: Type) returns (found: bool)
    requires Closed(g) && t < |g|
    ensures found <==> TagBelow(g, t)
  {
    var walk := new Walk(g);
    found := walk.HasEnvTagsVisited(t);
    if !found { NoTagInside(g, t, walk.visited); }
  }
}
