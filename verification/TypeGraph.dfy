/** Config types as a graph: struct types and the fields through which one holds another,
    possibly itself. */
module TypeGraph {

  /** A struct type, by its place in the graph. */
  type Type = nat

  /** What a field holds: a struct, a pointer to a struct, or anything else. */
  datatype Kind = Struct(of: Type) | Pointer(to: Type) | Scalar(name: string)

  /** The env tag with the tags beside it. */
  datatype Tag = Untagged | Malformed | Env(name: string, required: bool, fallback: string, secret: bool)

  /** required is the tag of that name, which counts for a pointer. */
  datatype Field = Field(exported: bool, tag: Tag, kind: Kind, required: bool)

  type Graph = seq<seq<Field>>

  predicate IsType(g: Graph, t: Type) { t < |g| }

  ghost function Types(g: Graph): set<Type> { set t: Type | 0 <= t < |g| && IsType(g, t) }

  predicate Holds(f: Field, c: Type) {
    f.exported && f.tag.Untagged? && (f.kind == Struct(c) || f.kind == Pointer(c))
  }

  predicate Closed(g: Graph) {
    forall t, i :: 0 <= t < |g| && 0 <= i < |g[t]| ==>
      (g[t][i].kind.Struct? ==> g[t][i].kind.of < |g|) && (g[t][i].kind.Pointer? ==> g[t][i].kind.to < |g|)
  }

  ghost predicate Edge(g: Graph, t: Type, c: Type) {
    t < |g| && c < |g| && exists f <- g[t] :: Holds(f, c)
  }

  ghost predicate Path(g: Graph, p: seq<Type>) {
    p != [] && forall i :: 0 <= i < |p| - 1 ==> Edge(g, p[i], p[i + 1])
  }

  ghost predicate Reaches(g: Graph, t: Type, u: Type) {
    exists p :: Path(g, p) && p[0] == t && p[|p| - 1] == u
  }

  /** By at least one field. */
  ghost predicate Leads(g: Graph, t: Type, u: Type) {
    exists c :: Edge(g, t, c) && Reaches(g, c, u)
  }

  lemma ReachesSelf(g: Graph, t: Type)
    ensures Reaches(g, t, t)
  {
    assert Path(g, [t]);
  }

  lemma TailIsPath(g: Graph, p: seq<Type>)
    requires Path(g, p) && |p| > 1
    ensures Path(g, p[1..]) && Edge(g, p[0], p[1])
  {
    var q := p[1..];
    assert Edge(g, p[0], p[0 + 1]);
    forall i | 0 <= i < |q| - 1 ensures Edge(g, q[i], q[i + 1]) {
      assert q[i] == p[i + 1] && Edge(g, p[i + 1], p[i + 1 + 1]);
    }
  }

  lemma ReachesBy(g: Graph, t: Type, c: Type, u: Type)
    requires Edge(g, t, c) && Reaches(g, c, u)
    ensures Reaches(g, t, u)
  {
    var p :| Path(g, p) && p[0] == c && p[|p| - 1] == u;
    var q := [t] + p;
    assert forall i :: 0 <= i < |q| - 1 ==> Edge(g, q[i], q[i + 1]) by {
      assert forall i :: 0 < i < |q| ==> q[i] == p[i - 1];
    }
    assert Path(g, q);
  }

  /** Reaching takes no field, or a first field. */
  lemma ReachesSplits(g: Graph, t: Type, u: Type)
    ensures Reaches(g, t, u) <==> t == u || Leads(g, t, u)
  {
    if t == u { ReachesSelf(g, t); }
    if Leads(g, t, u) {
      var c :| Edge(g, t, c) && Reaches(g, c, u);
      ReachesBy(g, t, c, u);
    }
    if Reaches(g, t, u) && t != u {
      var p :| Path(g, p) && p[0] == t && p[|p| - 1] == u;
      TailIsPath(g, p);
      assert p[1..][0] == p[1];
      assert Reaches(g, p[1], u);
    }
  }

  /** A last field more. */
  lemma LeadsOn(g: Graph, t: Type, u: Type, c: Type)
    requires Reaches(g, t, u) && Edge(g, u, c)
    ensures Leads(g, t, c)
  {
    var p :| Path(g, p) && p[0] == t && p[|p| - 1] == u;
    PathOn(g, p, c);
  }

  lemma {:induction false} PathOn(g: Graph, p: seq<Type>, c: Type)
    requires Path(g, p) && Edge(g, p[|p| - 1], c)
    ensures Leads(g, p[0], c)
  {
    if |p| == 1 {
      ReachesSelf(g, c);
    } else {
      TailIsPath(g, p);
      PathOn(g, p[1..], c);
      ReachesSplits(g, p[1], c);
    }
  }

  lemma {:induction false} ReachesOn(g: Graph, t: Type, p: seq<Type>)
    requires Path(g, p) && Reaches(g, t, p[0])
    ensures Reaches(g, t, p[|p| - 1])
    decreases |p|
  {
    if |p| > 1 {
      TailIsPath(g, p);
      LeadsOn(g, t, p[0], p[1]);
      ReachesSplits(g, t, p[1]);
      ReachesOn(g, t, p[1..]);
    }
  }

  lemma ReachesFar(g: Graph, t: Type, u: Type, v: Type)
    requires Reaches(g, t, u) && Reaches(g, u, v)
    ensures Reaches(g, t, v)
  {
    var p :| Path(g, p) && p[0] == u && p[|p| - 1] == v;
    ReachesOn(g, t, p);
  }

  /** A set that fields do not lead out of holds all its members reach. */
  lemma {:induction false} StaysInside(g: Graph, inside: set<Type>, p: seq<Type>)
    requires Path(g, p) && p[0] in inside
    requires forall t <- inside, c :: Edge(g, t, c) ==> c in inside
    ensures p[|p| - 1] in inside
  {
    if |p| > 1 {
      TailIsPath(g, p);
      StaysInside(g, inside, p[1..]);
    }
  }
}
