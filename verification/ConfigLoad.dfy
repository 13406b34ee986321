/** Loading a config from the environment: the walk over a type and all it holds, with the set
    of types on the recursion stack. */
module ConfigLoad {
  import opened TypeGraph
  import EnvTags

  /** The environment, the readable secret files, and which values a field's type can parse. */
  datatype World = World(vars: map<string, string>, files: map<string, string>, parses: (Kind, string) -> bool)

  /** A loaded field; Zero is what it was before. */
  datatype Value = Zero | Text(text: string) | Nested(fields: seq<Value>) | Allocated(to: Value)

  datatype Error = Cycle | BadTag | Unreadable | RequiredVariable | RequiredStruct | Unparsable | NoTags

  datatype Result = Loaded(value: Value, envRead: bool) | Failed(error: Error)

  datatype Source = Source(text: string, fromEnv: bool) | NoSource

  // ---- what a tagged field should come to ----

  /** A secret has a file to read: its _FILE variable is not empty. */
  predicate NamesFile(w: World, tag: Tag)
    requires tag.Env?
  {
    tag.secret && tag.name + "_FILE" in w.vars && w.vars[tag.name + "_FILE"] != ""
  }

  /** The text the environment has for a tag: the content of the file if there is one to read, and
      else the variable, which may be set to nothing. */
  predicate Gives(w: World, tag: Tag, text: string)
    requires tag.Env?
  {
    || (NamesFile(w, tag) && w.vars[tag.name + "_FILE"] in w.files && text == w.files[w.vars[tag.name + "_FILE"]])
    || (!NamesFile(w, tag) && tag.name in w.vars && text == w.vars[tag.name])
  }

  /** The text a field is to hold: what the environment gives, or the default where it gives none. */
  ghost predicate ToHold(w: World, tag: Tag, text: string)
    requires tag.Env?
  {
    text != "" && (Gives(w, tag, text) || (text == tag.fallback && forall x :: Gives(w, tag, x) ==> x == ""))
  }

  /** The field holds the text it is to hold, and is left as it was if there is none. */
  ghost predicate HoldsIt(w: World, tag: Tag, v: Value)
    requires tag.Env?
  {
    (v.Text? && ToHold(w, tag, v.text)) || (v.Zero? && forall x :: !ToHold(w, tag, x))
  }

  /** Why a tagged field fails: its tag is malformed; its file cannot be read; it is required and
      set to nothing, or not set and without a default; or its text cannot be parsed. */
  ghost predicate FailsFor(w: World, f: Field, e: Error) {
    match e
    case BadTag => f.tag.Malformed?
    case Unreadable => f.tag.Env? && NamesFile(w, f.tag) && w.vars[f.tag.name + "_FILE"] !in w.files
    case RequiredVariable =>
      f.tag.Env? && f.tag.required && (Gives(w, f.tag, "") || (!Given(w, f.tag) && f.tag.fallback == ""))
    case Unparsable => f.tag.Env? && exists x :: ToHold(w, f.tag, x) && !w.parses(f.kind, x)
    case _ => false
  }

  ghost predicate Given(w: World, tag: Tag)
    requires tag.Env?
  {
    exists x :: Gives(w, tag, x)
  }

  ghost predicate TagFails(w: World, f: Field) {
    exists e :: FailsFor(w, f, e)
  }

  lemma GivesOne(w: World, tag: Tag, x: string, y: string)
    requires tag.Env?
    ensures Gives(w, tag, x) && Gives(w, tag, y) ==> x == y
    ensures ToHold(w, tag, x) && ToHold(w, tag, y) ==> x == y
  {
  }

  // ---- a tagged field by itself ----

  method ResolveWithSource(w: World, tag: Tag) returns (s: Source)
    requires tag.Env?
    ensures s.NoSource? <==> NamesFile(w, tag) && w.vars[tag.name + "_FILE"] !in w.files
    ensures s.Source? ==> (s.fromEnv <==> Given(w, tag)) && (if s.fromEnv then Gives(w, tag, s.text) else s.text == "")
  {
    if tag.secret && tag.name + "_FILE" in w.vars {
      var path := w.vars[tag.name + "_FILE"];
      if path != "" {
        if path !in w.files { return NoSource; }
        assert Gives(w, tag, w.files[path]);
        return Source(w.files[path], true);
      }
    }
    if tag.name in w.vars {
      assert Gives(w, tag, w.vars[tag.name]);
      return Source(w.vars[tag.name], true);
    }
    return Source("", false);
  }

  method LoadTagged(w: World, f: Field) returns (r: Result)
    requires !f.tag.Untagged?
    ensures r.Failed? ==> FailsFor(w, f, r.error)
    ensures r.Loaded? ==> f.tag.Env? && !TagFails(w, f) && HoldsIt(w, f.tag, r.value) && (r.envRead <==> Given(w, f.tag))
  {
    if !f.tag.Env? { return Failed(BadTag); }
    var s := ResolveWithSource(w, f.tag);
    if s.NoSource? { return Failed(Unreadable); }
    if f.tag.required && s.fromEnv && s.text == "" { return Failed(RequiredVariable); }
    var text := s.text;
    if text == "" { text := f.tag.fallback; }
    if text == "" && f.tag.required { return Failed(RequiredVariable); }
    TextIs(w, f.tag, s, text);
    if text == "" { return Loaded(Zero, s.fromEnv); }
    var parsed := w.parses(f.kind, text);
    if !parsed { return Failed(Unparsable); }
    return Loaded(Text(text), s.fromEnv);
  }

  lemma TextIs(w: World, tag: Tag, s: Source, text: string)
    requires tag.Env? && s.Source? && (s.fromEnv <==> Given(w, tag)) && (if s.fromEnv then Gives(w, tag, s.text) else s.text == "")
    requires text == if s.text == "" then tag.fallback else s.text
    ensures forall x :: ToHold(w, tag, x) <==> x == text != ""
    ensures Gives(w, tag, "") <==> s.fromEnv && s.text == ""
  {
    forall x | Gives(w, tag, x) ensures x == s.text { GivesOne(w, tag, x, s.text); }
    hide Gives;
  }

  // ---- what a load should come to ----

  ghost predicate FromEnv(w: World, f: Field) {
    f.exported && f.tag.Env? && Given(w, f.tag)
  }

  ghost predicate SetHere(g: Graph, w: World, t: Type) { t < |g| && exists f <- g[t] :: FromEnv(w, f) }

  /** Some variable in the subtree of t came from the environment. */
  ghost predicate SetBelow(g: Graph, w: World, t: Type) { exists u :: Reaches(g, t, u) && SetHere(g, w, u) }

  /** A field that does not fail by itself: its variable loads, or its struct may be missing. */
  ghost predicate FieldFine(g: Graph, w: World, f: Field) {
    f.exported ==>
      if !f.tag.Untagged? then !TagFails(w, f)
      else f.kind.Pointer? && f.required ==> SetBelow(g, w, f.kind.to)
  }

  ghost predicate TypeFine(g: Graph, w: World, t: Type) {
    t < |g| && !Leads(g, t, t) && forall i :: 0 <= i < |g[t]| ==> FieldFine(g, w, g[t][i])
  }

  /** No type below t holds itself, and no field below t fails. */
  ghost predicate Loadable(g: Graph, w: World, t: Type) {
    forall u :: Reaches(g, t, u) ==> TypeFine(g, w, u)
  }

  /** The value of a struct; a pointer is allocated exactly when something below it is set. */
  ghost predicate Right(g: Graph, w: World, t: Type, v: Value)
    decreases v, 1
  {
    t < |g| && v.Nested? && |v.fields| == |g[t]|
    && forall i :: 0 <= i < |g[t]| ==> RightField(g, w, g[t][i], v.fields[i])
  }

  ghost predicate RightField(g: Graph, w: World, f: Field, v: Value)
    decreases v, 2
  {
    if !f.exported then v.Zero?
    else if !f.tag.Untagged? then f.tag.Env? && HoldsIt(w, f.tag, v)
    else match f.kind
      case Struct(c) => Right(g, w, c, v)
      case Pointer(c) => if SetBelow(g, w, c) then v.Allocated? && Right(g, w, c, v.to) else v.Zero?
      case Scalar(_) => v.Zero?
  }

  // ---- from a type to its fields ----

  lemma SetBelowSplits(g: Graph, w: World, t: Type)
    ensures SetBelow(g, w, t) <==> SetHere(g, w, t) || exists c :: Edge(g, t, c) && SetBelow(g, w, c)
  {
    if SetBelow(g, w, t) {
      var u :| Reaches(g, t, u) && SetHere(g, w, u);
      ReachesSplits(g, t, u);
      if Leads(g, t, u) {
        var c :| Edge(g, t, c) && Reaches(g, c, u);
        assert SetBelow(g, w, c);
      }
    }
    if SetHere(g, w, t) { ReachesSelf(g, t); }
    if c :| Edge(g, t, c) && SetBelow(g, w, c) {
      var u :| Reaches(g, c, u) && SetHere(g, w, u);
      ReachesBy(g, t, c, u);
    }
  }

  lemma LoadableSplits(g: Graph, w: World, t: Type)
    ensures Loadable(g, w, t) <==> TypeFine(g, w, t) && forall c :: Edge(g, t, c) ==> Loadable(g, w, c)
  {
    hide TypeFine;
    ReachesSelf(g, t);
    if Loadable(g, w, t) {
      forall c, u | Edge(g, t, c) && Reaches(g, c, u) ensures TypeFine(g, w, u) { ReachesBy(g, t, c, u); }
    }
    if TypeFine(g, w, t) && forall c :: Edge(g, t, c) ==> Loadable(g, w, c) {
      forall u | Reaches(g, t, u) ensures TypeFine(g, w, u) { ReachesSplits(g, t, u); }
    }
  }

  lemma EdgeOf(g: Graph, t: Type, i: int, c: Type)
    requires t < |g| && 0 <= i < |g[t]| && Holds(g[t][i], c) && c < |g|
    ensures Edge(g, t, c)
  {
    assert g[t][i] in g[t];
  }

  // ---- the loader ----

  /** What one field contributes once it is loaded; none of the types on the stack is below it. */
  ghost predicate FieldDone(g: Graph, w: World, stack: set<Type>, f: Field, v: Value) {
    && FieldFine(g, w, f) && RightField(g, w, f, v)
    && forall c :: Holds(f, c) ==> Loadable(g, w, c) && forall u <- stack :: !Reaches(g, c, u)
  }

  ghost predicate FieldSets(g: Graph, w: World, f: Field) {
    FromEnv(w, f) || exists c :: Holds(f, c) && SetBelow(g, w, c)
  }

  /** Why a field fails: as a tagged one, or as a required struct with nothing set below it. */
  ghost predicate FieldFailsFor(g: Graph, w: World, f: Field, e: Error) {
    && f.exported
    && if !f.tag.Untagged? then FailsFor(w, f, e)
       else e.RequiredStruct? && f.kind.Pointer? && f.required && !SetBelow(g, w, f.kind.to)
  }

  ghost predicate FailsHere(g: Graph, w: World, t: Type, e: Error) {
    t < |g| && exists f <- g[t] :: FieldFailsFor(g, w, f, e)
  }

  /** What a load fails with: below t there is a type that holds itself, or a field that fails
      for this very reason. */
  ghost predicate Justified(g: Graph, w: World, t: Type, e: Error) {
    && !Loadable(g, w, t)
    && if e.Cycle? then exists u :: Reaches(g, t, u) && Leads(g, u, u)
       else exists u :: Reaches(g, t, u) && FailsHere(g, w, u, e)
  }

  /** All fields done make the type done. */
  lemma FieldsMakeType(g: Graph, w: World, stack: set<Type>, t: Type, fields: seq<Value>)
    requires Closed(g) && t < |g| && t in stack && |fields| == |g[t]|
    requires forall i :: 0 <= i < |g[t]| ==> FieldDone(g, w, stack, g[t][i], fields[i])
    ensures Loadable(g, w, t) && Right(g, w, t, Nested(fields))
    ensures forall u <- stack :: !Leads(g, t, u)
    ensures SetBelow(g, w, t) <==> exists i :: 0 <= i < |g[t]| && FieldSets(g, w, g[t][i])
  {
    forall c | Edge(g, t, c) ensures Loadable(g, w, c) && forall u <- stack :: !Reaches(g, c, u) {
      var f :| f in g[t] && Holds(f, c);
      var i :| 0 <= i < |g[t]| && g[t][i] == f;
      assert FieldDone(g, w, stack, g[t][i], fields[i]);
    }
    assert TypeFine(g, w, t);
    LoadableSplits(g, w, t);
    FieldsMakeSet(g, w, t);
  }

  lemma FieldsMakeSet(g: Graph, w: World, t: Type)
    requires Closed(g) && t < |g|
    ensures SetBelow(g, w, t) <==> exists i :: 0 <= i < |g[t]| && FieldSets(g, w, g[t][i])
  {
    SetBelowSplits(g, w, t);
    hide FromEnv, SetBelow;
    if SetHere(g, w, t) {
      var f :| f in g[t] && FromEnv(w, f);
      var i :| 0 <= i < |g[t]| && g[t][i] == f;
      assert FieldSets(g, w, g[t][i]);
    }
    if c :| Edge(g, t, c) && SetBelow(g, w, c) {
      var f :| f in g[t] && Holds(f, c);
      var i :| 0 <= i < |g[t]| && g[t][i] == f;
      assert FieldSets(g, w, g[t][i]);
    }
    if i :| 0 <= i < |g[t]| && FieldSets(g, w, g[t][i]) {
      assert g[t][i] in g[t];
      if !FromEnv(w, g[t][i]) {
        var c :| Holds(g[t][i], c) && SetBelow(g, w, c);
        EdgeOf(g, t, i, c);
      }
    }
  }

  class Loader {
    const g: Graph
    const w: World
    var visited: set<Type>

    constructor (g: Graph, w: World)
      ensures this.g == g && this.w == w && visited == {}
    {
      this.g, this.w := g, w;
      visited := {};
    }

    /** Loads a struct. The types on the stack all lead to it. */
    method LoadWithEnvTracking(t: Type) returns (r: Result)
      requires Closed(g) && t < |g| && forall u <- visited :: Leads(g, u, t)
      modifies this
      ensures visited == old(visited)
      ensures r.Loaded? ==> Loadable(g, w, t) && Right(g, w, t, r.value) && (r.envRead <==> SetBelow(g, w, t))
      ensures r.Loaded? ==> forall u <- visited :: !Reaches(g, t, u)
      ensures r.Failed? ==> Justified(g, w, t, r.error)
      decreases Types(g) - visited, 0
    {
      if t in visited {
        ReachesSelf(g, t);
        return Failed(Cycle);
      }
      visited := visited + {t};
      r := LoadFields(t);
      visited := visited - {t};
      if r.Loaded? {
        forall u <- visited ensures !Reaches(g, t, u) { ReachesSplits(g, t, u); }
      }
    }

    method LoadFields(t: Type) returns (r: Result)
      requires Closed(g) && t < |g| && t in visited && forall u <- visited :: u != t ==> Leads(g, u, t)
      modifies this
      ensures visited == old(visited)
      ensures r.Loaded? ==> Loadable(g, w, t) && Right(g, w, t, r.value) && (r.envRead <==> SetBelow(g, w, t))
      ensures r.Loaded? ==> forall u <- visited :: !Leads(g, t, u)
      ensures r.Failed? ==> Justified(g, w, t, r.error)
      decreases Types(g) - visited, 2
    {
      hide FieldDone, FieldSets, Loadable, Right, SetBelow, Justified, Leads;
      var envRead, fields := false, [];
      for i := 0 to |g[t]|
        invariant visited == old(visited) && |fields| == i
        invariant forall h :: 0 <= h < i ==> FieldDone(g, w, visited, g[t][h], fields[h])
        invariant envRead <==> exists h :: 0 <= h < i && FieldSets(g, w, g[t][h])
      {
        var field := LoadField(t, i);
        if field.Failed? { return field; }
        if field.envRead { envRead := true; }
        fields := fields + [field.value];
      }
      FieldsMakeType(g, w, visited, t, fields);
      return Loaded(Nested(fields), envRead);
    }

    method LoadField(t: Type, i: nat) returns (r: Result)
      requires Closed(g) && t < |g| && i < |g[t]|
      requires t in visited && forall u <- visited :: u != t ==> Leads(g, u, t)
      modifies this
      ensures visited == old(visited)
      ensures r.Loaded? ==> FieldDone(g, w, visited, g[t][i], r.value)
      ensures r.Loaded? ==> (r.envRead <==> FieldSets(g, w, g[t][i]))
      ensures r.Failed? ==> Justified(g, w, t, r.error)
      decreases Types(g) - visited, 1
    {
      var f := g[t][i];
      if !f.exported { return Loaded(Zero, false); }
      if f.tag.Untagged? && f.kind.Struct? {
        OnStack(g, visited, t, i, f.kind.of);
        r := LoadWithEnvTracking(f.kind.of);
        if r.Failed? { ChildFails(g, w, t, f.kind.of, r.error); }
        return;
      }
      if f.tag.Untagged? && f.kind.Pointer? {
        OnStack(g, visited, t, i, f.kind.to);
        r := LoadWithEnvTracking(f.kind.to);
        if r.Failed? { ChildFails(g, w, t, f.kind.to, r.error); return; }
        if r.envRead { return Loaded(Allocated(r.value), true); }
        if f.required {
          FieldFails(g, w, t, i, RequiredStruct);
          return Failed(RequiredStruct);
        }
        return Loaded(Zero, false);
      }
      if f.tag.Untagged? { return Loaded(Zero, false); }
      r := LoadTagged(w, f);
      if r.Failed? {
        assert TagFails(w, f);
        FieldFails(g, w, t, i, r.error);
      }
    }
  }

  lemma OnStack(g: Graph, stack: set<Type>, t: Type, i: nat, c: Type)
    requires t < |g| && i < |g[t]| && c < |g| && Holds(g[t][i], c)
    requires t in stack && forall u <- stack :: u != t ==> Leads(g, u, t)
    ensures Edge(g, t, c) && forall u <- stack :: Leads(g, u, c)
  {
    EdgeOf(g, t, i, c);
    forall u <- stack ensures Leads(g, u, c) {
      ReachesSplits(g, u, t);
      LeadsOn(g, u, t, c);
    }
  }

  lemma ChildFails(g: Graph, w: World, t: Type, c: Type, e: Error)
    requires Edge(g, t, c) && Justified(g, w, c, e)
    ensures Justified(g, w, t, e)
  {
    LoadableSplits(g, w, t);
    if e.Cycle? {
      var u :| Reaches(g, c, u) && Leads(g, u, u);
      ReachesBy(g, t, c, u);
    } else {
      var u :| Reaches(g, c, u) && FailsHere(g, w, u, e);
      ReachesBy(g, t, c, u);
    }
  }

  lemma FieldFails(g: Graph, w: World, t: Type, i: nat, e: Error)
    requires t < |g| && i < |g[t]| && !FieldFine(g, w, g[t][i]) && FieldFailsFor(g, w, g[t][i], e) && !e.Cycle?
    ensures Justified(g, w, t, e)
  {
    ReachesSelf(g, t);
    assert g[t][i] in g[t];
    assert FailsHere(g, w, t, e);
  }

  /** What loading may come to: it succeeds exactly when the type has a tag below it, nothing below
      it holds itself and no field below it fails; then every tagged field below holds the text it
      is to hold, and every pointer is allocated exactly when a variable below it came from the
      environment. A failure names what is wrong. */
  ghost predicate Outcome(g: Graph, w: World, t: Type, r: Result) {
    && (r.Loaded? <==> EnvTags.TagBelow(g, t) && Loadable(g, w, t))
    && (r.Loaded? ==> Right(g, w, t, r.value) && (r.envRead <==> SetBelow(g, w, t)))
    && (r.Failed? ==> if r.error.NoTags? then !EnvTags.TagBelow(g, t) else Justified(g, w, t, r.error))
  }

  method Load(g: Graph, w: World, t: Type) returns (r: Result)
    requires Closed(g) && t < |g|
    ensures Outcome(g, w, t, r)
  {
    var tags := EnvTags.HasEnvTags(g, t);
    if !tags { return Failed(NoTags); }
    var loader := new Loader(g, w);
    r := loader.LoadWithEnvTracking(t);
  }

  // ---- what a loaded config can be relied on for ----

  /** Every required variable in the value has text, and every required struct is there. */
  predicate RequiredIsThere(g: Graph, t: Type, v: Value)
    decreases v, 1
  {
    t < |g| && v.Nested? && |v.fields| == |g[t]|
    && forall i :: 0 <= i < |g[t]| ==> RequiredFieldIsThere(g, g[t][i], v.fields[i])
  }

  predicate RequiredFieldIsThere(g: Graph, f: Field, v: Value)
    decreases v, 2
  {
    f.exported ==>
      match f.tag
      case Env(_, required, _, _) => required ==> v.Text? && v.text != ""
      case Malformed => true
      case Untagged =>
        match f.kind
        case Struct(c) => RequiredIsThere(g, c, v)
        case Pointer(c) => if v.Allocated? then RequiredIsThere(g, c, v.to) else !f.required
        case Scalar(_) => true
  }

  lemma RequiredHasText(w: World, f: Field, v: Value)
    requires f.tag.Env? && f.tag.required && !TagFails(w, f) && HoldsIt(w, f.tag, v)
    ensures v.Text? && v.text != ""
  {
    assert !FailsFor(w, f, RequiredVariable);
    if Given(w, f.tag) {
      var x :| Gives(w, f.tag, x);
      assert ToHold(w, f.tag, x);
    } else {
      assert ToHold(w, f.tag, f.tag.fallback);
    }
  }

  /** In a config that loads, nothing required is missing or empty, however deep it lies. */
  lemma {:induction false} LoadedIsComplete(g: Graph, w: World, t: Type, v: Value)
    requires Closed(g) && Loadable(g, w, t) && Right(g, w, t, v)
    ensures RequiredIsThere(g, t, v)
    decreases v
  {
    LoadableSplits(g, w, t);
    forall i | 0 <= i < |g[t]| ensures RequiredFieldIsThere(g, g[t][i], v.fields[i]) {
      var f, x := g[t][i], v.fields[i];
      assert FieldFine(g, w, f) && RightField(g, w, f, x);
      if f.exported && f.tag.Env? && f.tag.required {
        RequiredHasText(w, f, x);
      } else if f.exported && f.tag.Untagged? && f.kind.Struct? {
        EdgeOf(g, t, i, f.kind.of);
        LoadedIsComplete(g, w, f.kind.of, x);
      } else if f.exported && f.tag.Untagged? && f.kind.Pointer? && x.Allocated? {
        EdgeOf(g, t, i, f.kind.to);
        LoadedIsComplete(g, w, f.kind.to, x.to);
      }
    }
  }

  /** The variable, and for a secret the file it names, are the same in both environments. */
  predicate SameTag(w1: World, w2: World, tag: Tag)
    requires tag.Env?
  {
    && SameVariable(w1, w2, tag.name)
    && (tag.secret ==>
          var file := tag.name + "_FILE";
          && SameVariable(w1, w2, file)
          && (file in w1.vars ==> SameFile(w1, w2, w1.vars[file])))
  }

  predicate SameVariable(w1: World, w2: World, name: string) {
    (name in w1.vars <==> name in w2.vars) && (name in w1.vars ==> w1.vars[name] == w2.vars[name])
  }

  predicate SameFile(w1: World, w2: World, path: string) {
    (path in w1.files <==> path in w2.files) && (path in w1.files ==> w1.files[path] == w2.files[path])
  }

  predicate SameHere(g: Graph, w1: World, w2: World, t: Type) {
    t < |g| ==> forall i :: 0 <= i < |g[t]| && g[t][i].exported && g[t][i].tag.Env? ==> SameTag(w1, w2, g[t][i].tag)
  }

  /** The tags below t read the same in both environments. */
  ghost predicate SameBelow(g: Graph, w1: World, w2: World, t: Type) {
    w1.parses == w2.parses && forall u: Type :: Reaches(g, t, u) ==> SameHere(g, w1, w2, u)
  }

  /** What a field comes to is the same. */
  ghost predicate SameEnd(w1: World, w2: World, f: Field) {
    && (FromEnv(w1, f) <==> FromEnv(w2, f)) && (TagFails(w1, f) <==> TagFails(w2, f))
    && (f.tag.Env? ==> forall v :: HoldsIt(w1, f.tag, v) <==> HoldsIt(w2, f.tag, v))
  }

  lemma SameLoad(w1: World, w2: World, f: Field)
    requires w1.parses == w2.parses && (f.tag.Env? ==> SameTag(w1, w2, f.tag))
    ensures SameEnd(w1, w2, f)
  {
    if f.tag.Env? {
      forall x ensures Gives(w1, f.tag, x) <==> Gives(w2, f.tag, x) {}
      SameText(w1, w2, f);
    } else {
      forall e ensures FailsFor(w1, f, e) <==> FailsFor(w2, f, e) {}
    }
  }

  lemma SameText(w1: World, w2: World, f: Field)
    requires f.tag.Env? && w1.parses == w2.parses && SameTag(w1, w2, f.tag)
    requires forall x :: Gives(w1, f.tag, x) <==> Gives(w2, f.tag, x)
    ensures SameEnd(w1, w2, f)
  {
    hide Gives;
    assert forall x :: ToHold(w1, f.tag, x) <==> ToHold(w2, f.tag, x);
    forall e ensures FailsFor(w1, f, e) <==> FailsFor(w2, f, e) {}
  }

  lemma SameDown(g: Graph, w1: World, w2: World, t: Type, u: Type)
    requires SameBelow(g, w1, w2, t) && Reaches(g, t, u)
    ensures SameBelow(g, w1, w2, u)
  {
    hide SameHere;
    forall v: Type | Reaches(g, u, v) ensures SameHere(g, w1, w2, v) { ReachesFar(g, t, u, v); }
  }

  lemma SetOneWay(g: Graph, w1: World, w2: World, t: Type)
    requires SameBelow(g, w1, w2, t) && SetBelow(g, w1, t)
    ensures SetBelow(g, w2, t)
  {
    var u: Type :| Reaches(g, t, u) && SetHere(g, w1, u);
    var f :| f in g[u] && FromEnv(w1, f);
    var i :| 0 <= i < |g[u]| && g[u][i] == f;
    assert SameHere(g, w1, w2, u);
    SameLoad(w1, w2, f);
  }

  lemma SameBack(g: Graph, w1: World, w2: World, t: Type)
    requires SameBelow(g, w1, w2, t)
    ensures SameBelow(g, w2, w1, t)
  {
    forall u: Type | Reaches(g, t, u) ensures SameHere(g, w2, w1, u) {
      assert SameHere(g, w1, w2, u);
    }
  }

  lemma SameSet(g: Graph, w1: World, w2: World, t: Type)
    requires SameBelow(g, w1, w2, t)
    ensures SetBelow(g, w1, t) <==> SetBelow(g, w2, t)
  {
    SameBack(g, w1, w2, t);
    hide SetBelow, SameBelow;
    if SetBelow(g, w1, t) { SetOneWay(g, w1, w2, t); }
    if SetBelow(g, w2, t) { SetOneWay(g, w2, w1, t); }
  }

  lemma SameField(g: Graph, w1: World, w2: World, t: Type, i: int)
    requires Closed(g) && SameBelow(g, w1, w2, t) && t < |g| && 0 <= i < |g[t]|
    ensures g[t][i].exported ==> SameEnd(w1, w2, g[t][i])
    ensures forall c: Type :: Holds(g[t][i], c) ==>
              c < |g| && SameBelow(g, w1, w2, c) && (SetBelow(g, w1, c) <==> SetBelow(g, w2, c))
  {
    ReachesSelf(g, t);
    assert SameHere(g, w1, w2, t);
    if g[t][i].exported { SameLoad(w1, w2, g[t][i]); }
    hide SameBelow, SetBelow, SameEnd;
    forall c: Type | Holds(g[t][i], c) ensures c < |g| && SameBelow(g, w1, w2, c) && (SetBelow(g, w1, c) <==> SetBelow(g, w2, c)) {
      EdgeOf(g, t, i, c);
      ReachesSelf(g, c);
      ReachesBy(g, t, c, c);
      SameDown(g, w1, w2, t, c);
      SameSet(g, w1, w2, c);
    }
  }

  lemma FineOneWay(g: Graph, w1: World, w2: World, t: Type)
    requires Closed(g) && SameBelow(g, w1, w2, t) && Loadable(g, w1, t)
    ensures Loadable(g, w2, t)
  {
    hide SameBelow, TagFails, HoldsIt, SetBelow, Leads;
    forall u: Type | Reaches(g, t, u) ensures TypeFine(g, w2, u) {
      assert TypeFine(g, w1, u);
      SameDown(g, w1, w2, t, u);
      forall i | 0 <= i < |g[u]| ensures FieldFine(g, w2, g[u][i]) {
        assert FieldFine(g, w1, g[u][i]);
        SameField(g, w1, w2, u, i);
      }
    }
  }

  lemma {:induction false} RightOneWay(g: Graph, w1: World, w2: World, t: Type, v: Value)
    requires Closed(g) && SameBelow(g, w1, w2, t) && Right(g, w1, t, v)
    ensures Right(g, w2, t, v)
    decreases v
  {
    hide SameBelow, TagFails, HoldsIt, SetBelow;
    forall i | 0 <= i < |g[t]| ensures RightField(g, w2, g[t][i], v.fields[i]) {
      var f, x := g[t][i], v.fields[i];
      assert RightField(g, w1, f, x);
      SameField(g, w1, w2, t, i);
      if f.exported && f.tag.Untagged? && f.kind.Struct? {
        assert Holds(f, f.kind.of);
        RightOneWay(g, w1, w2, f.kind.of, x);
      } else if f.exported && f.tag.Untagged? && f.kind.Pointer? {
        assert Holds(f, f.kind.to);
        if x.Allocated? { RightOneWay(g, w1, w2, f.kind.to, x.to); }
      }
    }
  }

  /** There is only one right value. */
  lemma {:induction false} RightIsUnique(g: Graph, w: World, t: Type, v: Value, x: Value)
    requires Right(g, w, t, v) && Right(g, w, t, x)
    ensures v == x
    decreases v, 1
  {
    hide SetBelow;
    forall i | 0 <= i < |g[t]| ensures v.fields[i] == x.fields[i] {
      RightFieldIsUnique(g, w, g[t][i], v.fields[i], x.fields[i]);
    }
  }

  lemma {:induction false} RightFieldIsUnique(g: Graph, w: World, f: Field, v: Value, x: Value)
    requires RightField(g, w, f, v) && RightField(g, w, f, x)
    ensures v == x
    decreases v, 2
  {
    hide SetBelow;
    if f.exported && f.tag.Env? {
      if v.Text? && x.Text? { GivesOne(w, f.tag, v.text, x.text); }
    } else if f.exported && f.tag.Untagged? && f.kind.Struct? {
      RightIsUnique(g, w, f.kind.of, v, x);
    } else if f.exported && f.tag.Untagged? && f.kind.Pointer? && SetBelow(g, w, f.kind.to) {
      RightIsUnique(g, w, f.kind.to, v.to, x.to);
    }
  }

  /** A load depends on nothing but the variables its tags name, and the files that the secret ones
      name: in environments that agree on those it fails in both or returns the same. */
  lemma OnlyNamedVariablesCount(g: Graph, w1: World, w2: World, t: Type, r1: Result, r2: Result)
    requires Closed(g) && SameBelow(g, w1, w2, t) && Outcome(g, w1, t, r1) && Outcome(g, w2, t, r2)
    ensures r1 == r2 || (r1.Failed? && r2.Failed?)
  {
    SameBack(g, w1, w2, t);
    SameSet(g, w1, w2, t);
    hide SameBelow, Loadable, Right, SetBelow;
    if Loadable(g, w1, t) { FineOneWay(g, w1, w2, t); }
    if Loadable(g, w2, t) { FineOneWay(g, w2, w1, t); }
    if r1.Loaded? {
      RightOneWay(g, w1, w2, t, r1.value);
      RightIsUnique(g, w2, t, r1.value, r2.value);
    }
  }
}
