/** The interface registry as it runs: one object whose tables `add_class`, `get_namespace_prefix` and
    `process_method` fill. */
module Interface {
  import opened Wrappers
  import opened Registry
  import P = Prefixes

  class Interface {
    const g: Graph
    var classes: map<Key, ClassId>
    var imports: map<string, set<string>>
    var deps: map<ClassId, set<ClassId>>
    var nsmap: map<string, string>
    var prefmap: map<string, string>
    var nsCounter: nat
    var methodIdMap: map<string, Method>
    var serviceMethodMap: map<string, seq<Method>>
    var memberMethods: seq<(ClassId, Method)>
    /** The methods that were offered under a message name, in order. */
    ghost var routes: seq<Route>
    /** The classes that were asked for, and why and when each class was entered. */
    ghost var asked: set<ClassId>
    ghost var entered: map<ClassId, Entry>

    ghost function T(): Tables
      reads this
    {
      Tables(classes, imports, deps, memberMethods, asked, entered)
    }

    function PT(): P.Tables
      reads this
    {
      P.Tables(nsmap, prefmap, nsCounter)
    }

    ghost predicate Valid()
      reads this
    {
      && GraphOk(g)
      && Sound(g, T())
      && P.Coherent(PT())
      && Routed(serviceMethodMap, routes)
    }

    constructor (g: Graph)
      requires GraphOk(g)
      ensures Valid() && this.g == g
      ensures T() == Nothing.(imports := map[g.tns := {}]) && Complete(g, T())
      ensures serviceMethodMap == map[] && routes == []
      ensures PT() == P.Reset(g.tns, 0)
    {
      this.g := g;
      nsCounter := 0;
      new;
      ResetInterface();
    }

    /** The counter of generated prefixes is not reset. */
    method ResetInterface()
      requires GraphOk(g)
      modifies this
      ensures Valid()
      ensures T() == Nothing.(imports := map[g.tns := {}]) && Complete(g, T())
      ensures serviceMethodMap == map[] && methodIdMap == map[] && routes == []
      ensures PT() == P.Reset(g.tns, old(nsCounter))
    {
      hide P.Coherent, P.Reset, GraphOk, Sound, Routed, Complete;
      EmptySound(g);
      ResetTables();
      serviceMethodMap := map[];
      methodIdMap := map[];
      routes := [];
      ResetPrefixes();
    }

    method ResetTables()
      modifies this`classes, this`imports, this`deps, this`memberMethods, this`asked, this`entered
      ensures T() == Nothing.(imports := map[g.tns := {}])
    {
      classes := map[];
      imports := map[g.tns := {}];
      deps := map[];
      memberMethods := [];
      asked, entered := {}, map[];
    }

    method ResetPrefixes()
      modifies this`nsmap, this`prefmap
      ensures PT() == P.Reset(g.tns, nsCounter) && P.Coherent(PT())
    {
      hide P.Coherent, P.NSMAP, P.PREFMAP;
      nsmap := P.NSMAP()["tns" := g.tns];
      prefmap := P.PREFMAP()[g.tns := "tns"];
      P.ResetCoherent(g.tns, nsCounter);
    }

    // ---------- Prefixes ----------

    method GetNamespacePrefix(ns: string) returns (pref: string)
      requires Valid()
      modifies this`nsmap, this`prefmap, this`nsCounter
      ensures Valid()
      ensures PT() == P.Allocate(old(PT()), ns)
      ensures ns in prefmap && pref == prefmap[ns]
    {
      hide GraphOk, Sound, Routed, P.Coherent, P.Pref;
      P.AllocateCoherent(PT(), ns);
      if ns !in prefmap {
        pref := P.Pref(nsCounter);
        while pref in nsmap
          invariant pref == P.Pref(nsCounter)
          invariant nsmap == old(nsmap) && prefmap == old(prefmap)
          invariant P.FreeFrom(nsmap, old(nsCounter)) == P.FreeFrom(nsmap, nsCounter)
          decreases P.TakenFrom(nsmap, nsCounter)
        {
          P.TakenShrinks(nsmap, nsCounter);
          nsCounter := nsCounter + 1;
          pref := P.Pref(nsCounter);
        }
        prefmap := prefmap[ns := pref];
        nsmap := nsmap[pref := ns];
        nsCounter := nsCounter + 1;
      } else {
        pref := prefmap[ns];
      }
    }

    // ---------- Classes ----------

    method HasClass(cls: ClassId) returns (r: Result<bool, Error>)
      requires Sound(g, T()) && GraphOk(g) && cls in g.classes
      ensures r.Ok? ==> r.value == Registered(g, T(), cls)
      ensures r.Err? <==>
        && Registered(g, T(), cls)
        && var c := classes[KeyOf(g, cls)];
           && g.classes[c].complex && g.classes[cls].complex
           && OrigOf(g, cls) != OrigOf(g, c)
           && {OrigOf(g, cls), OrigOf(g, c)} != {g.arrayClass, g.iterableClass}
    {
      var key := KeyOf(g, cls);
      if key !in classes {
        return Ok(false);
      }
      var c := classes[key];
      if g.classes[c].complex && g.classes[cls].complex {
        var o1, o2 := OrigOf(g, cls), OrigOf(g, c);
        if o1 == o2 {
          return Ok(true);
        }
        if {o1, o2} == {g.arrayClass, g.iterableClass} {
          return Ok(true);
        }
        return Err(NameConflict);
      }
      return Ok(true);
    }

    method AddDep(cls: ClassId, other: Option<ClassId>)
      modifies this`deps
      ensures T() == WithDep(old(T()), cls, other)
    {
      var before := if cls in deps then deps[cls] else {};
      deps := deps[cls := before + (if other.Some? then {other.value} else {})];
    }

    method Import(ns: string, other: string) returns (err: Option<Error>)
      requires Sound(g, T())
      modifies this`imports
      ensures Sound(g, T()) && Grows(old(T()), T()) && NewClosed(g, old(T()), T(), None)
      ensures FreeKeys(g, T()) == FreeKeys(g, old(T()))
      ensures match WithImport(g, old(T()), ns, other)
              case Ok(t) => err.None? && T() == t
              case Err(e) => err == Some(e) && T() == old(T())
      ensures err.None? && ns != other && ValidImport(g, other) ==> ns in imports && other in imports[ns]
    {
      NothingNew(g, T(), None);
      if other != ns {
        if ns !in imports {
          return Some(NoImports);
        }
        ImportStep(g, T(), ns, other);
        if other !in imports[ns] && ValidImport(g, other) {
          imports := imports[ns := imports[ns] + {other}];
        }
      }
      return None;
    }

    /** Asks for a class.  When it returns normally, the class is registered and every class it added has its
        parent, its field types and the types inside modifiers registered and imported, its methods collected
        with all that they mention registered, and its subclasses in the same namespace registered.  A class
        that comes in as a subclass of one with another name than its parent depends on that one instead. */
    method AddClass(cls: ClassId) returns (err: Option<Error>)
      requires GraphOk(g) && Sound(g, T()) && cls in g.classes
      modifies this`classes, this`imports, this`deps, this`memberMethods, this`asked, this`entered
      ensures asked == old(asked) + {cls}
      ensures Sound(g, T()) && Grows(old(T()).(asked := asked), T())
      ensures err.None? ==> Registered(g, T(), cls) && NewClosed(g, old(T()), T(), None)
      ensures err.None? && !Registered(g, old(T()), cls) ==> EnteredFor(g, T(), cls, Asked)
      ensures err.None? && old(Complete(g, T())) ==> Complete(g, T())
    {
      hide GraphOk, Sound, Grows, NewClosed, ParentClosed, BodyClosed, FreeKeys, Complete;
      Ask({cls});
      ghost var t := T();
      err := Enter(cls, true, Asked);
      if err.None? {
        NewClosedAlike(g, old(T()), t, T());
        CompleteStays(g, old(T()), t, T(), {cls});
      }
    }

    ghost method Ask(cs: set<ClassId>)
      requires Sound(g, T())
      modifies this`asked
      ensures asked == old(asked) + cs && Sound(g, T())
    {
      hide NamesOk, ImportsOk, Traced;
      AskTraced(g, T(), cs);
      asked := asked + cs;
    }

    /** The recursion of `add_class`, depth first.  An added class comes in with its parent, or else as a
        subclass of the class at hand. */
    method Enter(cls: ClassId, addParent: bool, ghost cause: Cause) returns (err: Option<Error>)
      requires GraphOk(g) && Sound(g, T()) && Wanted(g, T(), cls, cause) && (addParent <==> !cause.Listed?)
      modifies this`classes, this`imports, this`deps, this`memberMethods, this`entered
      ensures Sound(g, T()) && Grows(old(T()), T())
      ensures err.None? ==> Registered(g, T(), cls)
      ensures err.None? ==> NewClosed(g, old(T()), T(), if addParent then None else Some(cls))
      ensures err.None? && !Registered(g, old(T()), cls) ==> EnteredFor(g, T(), cls, cause)
      decreases FreeKeys(g, T()), 1
    {
      hide GraphOk, Sound, Grows, NewClosed, BodyClosed, ParentClosed, FreeKeys, Mentions, Derives, EnteredFor;
      ghost var t0 := T();
      NothingNew(g, t0, if addParent then None else Some(cls));
      var known := HasClass(cls);
      if known.Err? {
        return Some(known.error);
      }
      if known.value {
        return None;
      }
      err := AddNew(cls, addParent, cause);
    }

    /** Enters a class whose name is free. */
    method AddNew(cls: ClassId, addParent: bool, ghost cause: Cause) returns (err: Option<Error>)
      requires GraphOk(g) && Sound(g, T()) && Wanted(g, T(), cls, cause) && (addParent <==> !cause.Listed?)
      requires !Registered(g, T(), cls)
      modifies this`classes, this`imports, this`deps, this`memberMethods, this`entered
      ensures Sound(g, T()) && Grows(old(T()), T())
      ensures err.None? ==> Registered(g, T(), cls) && EnteredFor(g, T(), cls, cause)
      ensures err.None? ==> NewClosed(g, old(T()), T(), if addParent then None else Some(cls))
      decreases FreeKeys(g, T()), 0
    {
      hide GraphOk, Sound, Grows, NewClosed, BodyClosed, ParentClosed, FreeKeys, Mentions, Derives, Wanted;
      assert cls in g.classes by { WantedThere(g, T(), cls, cause); }
      ghost var t0 := T();
      var info := g.classes[cls];
      NamespaceStep(g, T(), info.ns);
      WantedGrows(g, t0, WithNamespace(g, t0, info.ns), cls, cause);
      if info.ns !in imports && ValidImport(g, info.ns) {
        imports := imports[info.ns := {}];
      }
      if info.typeName.None? {
        return Some(NoName);
      }
      ghost var t1 := T();
      ClassStep(g, t1, cls, cause);
      Record(cls, cause);
      ghost var t2 := T();
      GrowsTransitive(t0, t1, t2);
      err := AddRest(cls, addParent);
      GrowsTransitive(t0, t2, T());
      if err.None? {
        FirstClosed(g, t0, t2, T(), cls, addParent);
        EnteredStays(g, t2, T(), cls, cause);
      }
    }

    method Record(cls: ClassId, ghost cause: Cause)
      requires cls in g.classes && g.classes[cls].typeName.Some?
      modifies this`classes, this`deps, this`entered
      ensures T() == WithClass(g, old(T()), cls, cause)
    {
      AddDep(cls, None);
      entered := entered[cls := Entry(|entered|, cause)];
      classes := classes[KeyOf(g, cls) := cls];
      if g.classes[cls].ns == g.tns {
        classes := classes[Plain(g.classes[cls].typeName.value) := cls];
      }
    }

    /** Parent, fields, member methods and subclasses of a class that was just entered. */
    method AddRest(cls: ClassId, addParent: bool) returns (err: Option<Error>)
      requires GraphOk(g) && Sound(g, T()) && cls in T().entered && (addParent <==> !entered[cls].cause.Listed?)
      modifies this`classes, this`imports, this`deps, this`memberMethods, this`entered
      ensures Sound(g, T()) && Grows(old(T()), T())
      ensures err.None? ==> NewClosed(g, old(T()), T(), None)
      ensures err.None? ==> BodyClosed(g, T(), cls) && (addParent ==> ParentClosed(g, T(), cls))
      decreases FreeKeys(g, T()), 9
    {
      hide GraphOk, Sound, Grows, NewClosed, ParentClosed, FreeKeys, FieldsClosed, MethodsClosed, SubclassesClosed;
      ghost var t := T();
      NothingNew(g, t, None);
      if addParent {
        err := AddParent(cls);
        if err.Some? {
          return;
        }
      }
      ghost var t1 := T();
      FewerFree(g, t, t1);
      StaysEntered(t, t1, cls);
      err := AddBody(cls);
      GrowsTransitive(t, t1, T());
      if err.None? {
        NewClosedJoin(g, t, t1, T(), None);
        StaysClosed(g, t1, T(), cls);
      }
    }

    method AddBody(cls: ClassId) returns (err: Option<Error>)
      requires GraphOk(g) && Sound(g, T()) && cls in T().entered
      modifies this`classes, this`imports, this`deps, this`memberMethods, this`entered
      ensures Sound(g, T()) && Grows(old(T()), T())
      ensures err.None? ==> NewClosed(g, old(T()), T(), None) && BodyClosed(g, T(), cls)
      decreases FreeKeys(g, T()), 8
    {
      hide GraphOk, Sound, Grows, NewClosed, ParentClosed, FreeKeys, FieldClosed, MethodClosed, SubclassClosed;
      ghost var t1 := T();
      NothingNew(g, t1, None);
      EnteredThere(g, t1, cls);
      if g.classes[cls].complex {
        err := AddFields(cls);
        ghost var t2 := T();
        if err.Some? {
          return;
        }
        FewerFree(g, t1, t2);
        StaysEntered(t1, t2, cls);
        err := AddMemberMethods(cls);
        ghost var t3 := T();
        GrowsTransitive(t1, t2, t3);
        if err.Some? {
          return;
        }
        NewClosedJoin(g, t1, t2, t3, None);
        FewerFree(g, t1, t3);
        StaysEntered(t1, t3, cls);
        err := AddSubclasses(cls);
        GrowsTransitive(t1, t3, T());
        GrowsTransitive(t2, t3, T());
        if err.Some? {
          return;
        }
        NewClosedJoin(g, t1, t3, T(), None);
        FieldsStayClosed(g, t2, T(), cls);
        MethodsStayClosed(g, t3, T(), cls);
      }
      err := None;
    }

    method AddParent(cls: ClassId) returns (err: Option<Error>)
      requires GraphOk(g) && Sound(g, T()) && cls in T().entered && !entered[cls].cause.Listed?
      modifies this`classes, this`imports, this`deps, this`memberMethods, this`entered
      ensures Sound(g, T()) && Grows(old(T()), T())
      ensures err.None? ==> NewClosed(g, old(T()), T(), None) && ParentClosed(g, T(), cls)
      decreases FreeKeys(g, T()), 2
    {
      hide GraphOk, Sound, Grows, NewClosed, BodyClosed, FreeKeys, Fields, Serves, Wanted;
      ghost var t := T();
      NothingNew(g, t, None);
      EnteredThere(g, t, cls);
      var parent := NearestNamed(cls);
      if parent.Some? {
        var p := parent.value;
        DepStep(g, t, cls, p);
        AddDep(cls, Some(p));
        ghost var t1 := T();
        MentionWanted(g, t1, p, cls);
        err := Enter(p, true, Mention(cls));
        ghost var t2 := T();
        GrowsTransitive(t, t1, t2);
        if err.Some? {
          return;
        }
        NewClosedJoin(g, t, t1, t2, None);
        err := Import(g.classes[cls].ns, g.classes[p].ns);
        GrowsTransitive(t, t2, T());
        if err.Some? {
          return;
        }
        NewClosedJoin(g, t, t2, T(), None);
        StaysRegistered(g, t2, T(), p);
        DepStays(t1, t2, cls, p);
        DepStays(t2, T(), cls, p);
      }
      EnteredStays(g, t, T(), cls, entered[cls].cause);
      err := None;
    }

    /** Follows `__extends__` past classes that have no name yet. */
    method NearestNamed(cls: ClassId) returns (parent: Option<ClassId>)
      requires GraphOk(g) && cls in g.classes
      ensures parent == Parent(g, cls)
      ensures parent == None <==>
        forall i | 0 <= i < |g.classes[cls].ancestors| :: g.classes[g.classes[cls].ancestors[i]].typeName == None
      ensures forall p :: parent == Some(p) ==> p in g.classes && exists i | 0 <= i < |g.classes[cls].ancestors| ::
        && g.classes[cls].ancestors[i] == p && g.classes[p].typeName.Some?
        && forall j | 0 <= j < i :: g.classes[g.classes[cls].ancestors[j]].typeName == None
    {
      var chain := g.classes[cls].ancestors;
      var i := 0;
      while i < |chain| && g.classes[chain[i]].typeName.None?
        invariant 0 <= i <= |chain|
        invariant FirstNamed(g, chain) == FirstNamed(g, chain[i..])
        invariant forall j | 0 <= j < i :: g.classes[chain[j]].typeName == None
      {
        assert chain[i..][1..] == chain[i + 1..];
        i := i + 1;
      }
      if i < |chain| {
        return Some(chain[i]);
      }
      return None;
    }

    method AddFields(cls: ClassId) returns (err: Option<Error>)
      requires GraphOk(g) && Sound(g, T()) && cls in T().entered && cls in g.classes && g.classes[cls].complex
      modifies this`classes, this`imports, this`deps, this`memberMethods, this`entered
      ensures Sound(g, T()) && Grows(old(T()), T())
      ensures err.None? ==> NewClosed(g, old(T()), T(), None) && FieldsClosed(g, T(), cls)
      decreases FreeKeys(g, T()), 4
    {
      hide Sound, Grows, NewClosed, ParentClosed, FreeKeys, FieldClosed, Fields;
      var fields := g.classes[cls].fields;
      ghost var t0 := T();
      NothingNew(g, t0, None);
      for i := 0 to |fields|
        invariant Sound(g, T()) && Grows(t0, T()) && NewClosed(g, t0, T(), None)
        invariant forall j | 0 <= j < i :: fields[j] in g.classes && FieldClosed(g, T(), cls, fields[j])
      {
        ghost var t := T();
        FewerFree(g, t0, t);
        StaysEntered(t0, t, cls);
        err := AddField(cls, fields[i]);
        GrowsTransitive(t0, t, T());
        if err.Some? {
          return;
        }
        NewClosedJoin(g, t0, t, T(), None);
        forall j | 0 <= j < i ensures FieldClosed(g, T(), cls, fields[j]) {
          FieldStaysClosed(g, t, T(), cls, fields[j]);
        }
      }
      err := None;
    }

    method AddField(cls: ClassId, v: ClassId) returns (err: Option<Error>)
      requires GraphOk(g) && Sound(g, T()) && cls in T().entered && cls in g.classes && v in g.classes
      requires g.classes[cls].complex && v in g.classes[cls].fields
      modifies this`classes, this`imports, this`deps, this`memberMethods, this`entered
      ensures Sound(g, T()) && Grows(old(T()), T())
      ensures err.None? ==> NewClosed(g, old(T()), T(), None) && FieldClosed(g, T(), cls, v)
      decreases FreeKeys(g, T()), 3
    {
      hide GraphOk, Sound, Grows, NewClosed, BodyClosed, ParentClosed, FreeKeys, Wanted, FieldClosed;
      InnerKnown(g, v);
      ghost var t := T();
      FieldDepends(g, t, cls, v);
      DepStep(g, t, cls, v);
      AddDep(cls, Some(v));
      ghost var t1 := T();
      FewerFree(g, t, t1);
      err := AddHeld(cls, v);
      ghost var t2 := T();
      GrowsTransitive(t, t1, t2);
      if err.Some? {
        return;
      }
      NewClosedJoin(g, t, t1, t2, None);
      DepStays(t1, t2, cls, v);
      var inner := g.classes[v].inner;
      if inner.Some? {
        FewerFree(g, t, t2);
        StaysEntered(t, t2, cls);
        err := AddHeld(cls, inner.value);
        GrowsTransitive(t, t2, T());
        if err.Some? {
          return;
        }
        NewClosedJoin(g, t, t2, T(), None);
        DepStays(t2, T(), cls, v);
        StaysRegistered(g, t2, T(), v);
        ImportStays(g, t2, T(), cls, v);
      }
      FieldIsClosed(g, T(), cls, v);
      err := None;
    }

    /** A field type, or the class inside one, and its namespace. */
    method AddHeld(cls: ClassId, v: ClassId) returns (err: Option<Error>)
      requires GraphOk(g) && Sound(g, T()) && cls in T().entered && cls in g.classes && v in g.classes
      requires Fields(g, cls, v)
      modifies this`classes, this`imports, this`deps, this`memberMethods, this`entered
      ensures Sound(g, T()) && Grows(old(T()), T())
      ensures err.None? ==> NewClosed(g, old(T()), T(), None) && Registered(g, T(), v) && Imported(g, T(), cls, v)
      decreases FreeKeys(g, T()), 2
    {
      hide GraphOk, Sound, Grows, NewClosed, BodyClosed, ParentClosed, FreeKeys, Wanted, Fields, Serves;
      ghost var t := T();
      MentionWanted(g, t, v, cls);
      err := Enter(v, true, Mention(cls));
      ghost var t1 := T();
      if err.Some? {
        return;
      }
      err := Import(g.classes[cls].ns, g.classes[v].ns);
      GrowsTransitive(t, t1, T());
      if err.None? {
        NewClosedJoin(g, t, t1, T(), None);
        StaysRegistered(g, t1, T(), v);
      }
    }

    /** The enabled methods of a class are collected, and what they mention is added. */
    method AddMemberMethods(cls: ClassId) returns (err: Option<Error>)
      requires GraphOk(g) && Sound(g, T()) && cls in T().entered && cls in g.classes && g.classes[cls].complex
      modifies this`classes, this`imports, this`deps, this`memberMethods, this`entered
      ensures Sound(g, T()) && Grows(old(T()), T())
      ensures err.None? ==> NewClosed(g, old(T()), T(), None) && MethodsClosed(g, T(), cls)
      decreases FreeKeys(g, T()), 7
    {
      hide Sound, Grows, NewClosed, BodyClosed, ParentClosed, FreeKeys, Names, MethodClosed, Wanted, MethodWanted;
      var methods := g.classes[cls].methods;
      ghost var t0 := T();
      NothingNew(g, t0, None);
      for i := 0 to |methods|
        invariant Sound(g, T()) && Grows(t0, T()) && NewClosed(g, t0, T(), None)
        invariant forall j | 0 <= j < i && methods[j].enabled ::
          (cls, methods[j]) in T().members && MethodClosed(g, T(), methods[j])
      {
        if methods[i].enabled {
          ghost var t := T();
          MemberStep(g, t, cls, methods[i]);
          memberMethods := memberMethods + [(cls, methods[i])];
          ghost var t1 := T();
          GrowsTransitive(t0, t, t1);
          NewClosedJoin(g, t0, t, t1, None);
          FewerFree(g, t0, t1);
          StaysEntered(t0, t1, cls);
          ServedWanted(g, t1, cls, i);
          err := AddMethod(methods[i], Mention(cls));
          GrowsTransitive(t0, t1, T());
          if err.Some? {
            return;
          }
          NewClosedJoin(g, t0, t1, T(), None);
          MemberStays(t1, T(), (cls, methods[i]));
          GrowsTransitive(t, t1, T());
          forall j | 0 <= j < i && methods[j].enabled
            ensures (cls, methods[j]) in T().members && MethodClosed(g, T(), methods[j])
          {
            MemberStays(t, T(), (cls, methods[j]));
            MethodStaysClosed(g, t, T(), methods[j]);
          }
        }
      }
      err := None;
    }

    /** Registers the classes that a method mentions, or for an auxiliary method none, and imports their
        namespaces into the target namespace; faults live in the target namespace. */
    method AddMethod(m: Method, ghost cause: Cause) returns (err: Option<Error>)
      requires GraphOk(g) && Sound(g, T()) && Names(g, m) && MethodWanted(g, T(), m, cause)
      modifies this`classes, this`imports, this`deps, this`memberMethods, this`entered
      ensures Sound(g, T()) && Grows(old(T()), T())
      ensures err.None? ==> NewClosed(g, old(T()), T(), None) && MethodClosed(g, T(), m)
      decreases FreeKeys(g, T()), 6
    {
      hide GraphOk, Sound, Grows, NewClosed, BodyClosed, ParentClosed, FreeKeys, Registered, TargetImports, Wanted;
      ghost var t0 := T();
      NothingNew(g, t0, None);
      for i := 0 to |m.headers|
        invariant Sound(g, T()) && Grows(t0, T()) && NewClosed(g, t0, T(), None)
        invariant forall j | 0 <= j < i :: There(m.headers[j], m.aux, true)
      {
        ghost var t := T();
        SaidWanted(g, t0, m, cause);
        err := AddHeader(m.headers[i], m.aux, t0, cause);
        if err.Some? {
          return;
        }
        forall j | 0 <= j < i ensures There(m.headers[j], m.aux, true) { StaysThere(t, m.headers[j], m.aux, true); }
      }
      for i := 0 to |m.faults|
        invariant Sound(g, T()) && Grows(t0, T()) && NewClosed(g, t0, T(), None)
        invariant forall j | 0 <= j < |m.headers| :: There(m.headers[j], m.aux, true)
        invariant forall j | 0 <= j < i :: There(m.faults[j], m.aux, false)
      {
        ghost var t := T();
        SaidWanted(g, t0, m, cause);
        err := AddMentioned(m.faults[i], m.aux, t0, cause);
        if err.Some? {
          return;
        }
        forall j | 0 <= j < |m.headers| ensures There(m.headers[j], m.aux, true) {
          StaysThere(t, m.headers[j], m.aux, true);
        }
        forall j | 0 <= j < i ensures There(m.faults[j], m.aux, false) { StaysThere(t, m.faults[j], m.aux, false); }
      }
      ghost var t := T();
      MethodStaysWanted(g, t0, t, m, cause);
      err := AddMessages(m, t0, cause);
      if err.None? {
        forall j | 0 <= j < |m.headers| ensures There(m.headers[j], m.aux, true) {
          StaysThere(t, m.headers[j], m.aux, true);
        }
        forall j | 0 <= j < |m.faults| ensures There(m.faults[j], m.aux, false) {
          StaysThere(t, m.faults[j], m.aux, false);
        }
      }
    }

    /** Class `c` is registered unless a method is auxiliary, and imported where it has to be. */
    ghost predicate There(c: ClassId, aux: bool, imported: bool)
      reads this
    {
      c in g.classes && (!aux ==> Registered(g, T(), c)) && (imported ==> TargetImports(g, T(), c))
    }

    lemma StaysThere(t: Tables, c: ClassId, aux: bool, imported: bool)
      requires Grows(t, T()) && c in g.classes
      requires (!aux ==> Registered(g, t, c)) && (imported ==> TargetImports(g, t, c))
      ensures There(c, aux, imported)
    {
    }

    /** The messages of a method. */
    method AddMessages(m: Method, ghost t0: Tables, ghost cause: Cause) returns (err: Option<Error>)
      requires GraphOk(g) && Sound(g, T()) && Names(g, m) && MethodWanted(g, t0, m, cause)
      requires Grows(t0, T()) && NewClosed(g, t0, T(), None)
      modifies this`classes, this`imports, this`deps, this`memberMethods, this`entered
      ensures Sound(g, T()) && Grows(old(T()), T()) && Grows(t0, T())
      ensures err.None? ==> NewClosed(g, t0, T(), None)
      ensures err.None? ==> There(m.inMessage, m.aux, true) && There(m.outMessage, m.aux, true)
      decreases FreeKeys(g, t0), 4
    {
      hide GraphOk, Sound, Grows, NewClosed, BodyClosed, ParentClosed, FreeKeys, Registered, TargetImports, Wanted;
      ghost var t2 := T();
      SaidWanted(g, t0, m, cause);
      err := AddMessage(m.inMessage, m.aux, t0, cause);
      if err.Some? {
        return;
      }
      ghost var t3 := T();
      err := AddMessage(m.outMessage, m.aux, t0, cause);
      GrowsTransitive(t2, t3, T());
      if err.None? {
        StaysThere(t3, m.inMessage, m.aux, true);
      }
    }

    /** The class first, and then its namespace. */
    method AddHeader(c: ClassId, aux: bool, ghost t0: Tables, ghost cause: Cause) returns (err: Option<Error>)
      requires GraphOk(g) && Sound(g, T()) && c in g.classes && !cause.Listed? && (!aux ==> Wanted(g, t0, c, cause))
      requires Grows(t0, T()) && NewClosed(g, t0, T(), None)
      modifies this`classes, this`imports, this`deps, this`memberMethods, this`entered
      ensures Sound(g, T()) && Grows(old(T()), T()) && Grows(t0, T())
      ensures err.None? ==> NewClosed(g, t0, T(), None) && There(c, aux, true)
      decreases FreeKeys(g, t0), 3
    {
      hide GraphOk, Sound, Grows, NewClosed, BodyClosed, ParentClosed, FreeKeys, Wanted;
      ghost var t := T();
      err := AddMentioned(c, aux, t0, cause);
      if err.Some? {
        return;
      }
      ghost var t1 := T();
      ImportIntoTarget(c, t0);
      GrowsTransitive(t, t1, T());
      if !aux { StaysRegistered(g, t1, T(), c); }
    }

    /** The namespace first, and then the class. */
    method AddMessage(c: ClassId, aux: bool, ghost t0: Tables, ghost cause: Cause) returns (err: Option<Error>)
      requires GraphOk(g) && Sound(g, T()) && c in g.classes && !cause.Listed? && (!aux ==> Wanted(g, t0, c, cause))
      requires Grows(t0, T()) && NewClosed(g, t0, T(), None)
      modifies this`classes, this`imports, this`deps, this`memberMethods, this`entered
      ensures Sound(g, T()) && Grows(old(T()), T()) && Grows(t0, T())
      ensures err.None? ==> NewClosed(g, t0, T(), None) && There(c, aux, true)
      decreases FreeKeys(g, t0), 3
    {
      hide GraphOk, Sound, Grows, NewClosed, BodyClosed, ParentClosed, FreeKeys, Wanted;
      ghost var t := T();
      ImportIntoTarget(c, t0);
      ghost var t1 := T();
      err := AddMentioned(c, aux, t0, cause);
      GrowsTransitive(t, t1, T());
      if err.None? { StaysImported(t1, c); }
    }

    lemma StaysImported(t: Tables, c: ClassId)
      requires Grows(t, T()) && c in g.classes && TargetImports(g, t, c)
      ensures TargetImports(g, T(), c)
    {
    }

    /** A class that a method mentions; an auxiliary method adds none. */
    method AddMentioned(c: ClassId, aux: bool, ghost t0: Tables, ghost cause: Cause) returns (err: Option<Error>)
      requires GraphOk(g) && Sound(g, T()) && c in g.classes && !cause.Listed? && (!aux ==> Wanted(g, t0, c, cause))
      requires Grows(t0, T()) && NewClosed(g, t0, T(), None)
      modifies this`classes, this`imports, this`deps, this`memberMethods, this`entered
      ensures Sound(g, T()) && Grows(old(T()), T()) && Grows(t0, T())
      ensures err.None? ==> NewClosed(g, t0, T(), None) && There(c, aux, false)
      decreases FreeKeys(g, t0), 2
    {
      hide GraphOk, Sound, Grows, NewClosed, BodyClosed, ParentClosed, FreeKeys, Wanted;
      ghost var t := T();
      NothingNew(g, t, None);
      err := None;
      if !aux {
        FewerFree(g, t0, t);
        WantedGrows(g, t0, t, c, cause);
        err := Enter(c, true, cause);
        GrowsTransitive(t0, t, T());
        if err.None? {
          NewClosedJoin(g, t0, t, T(), None);
        }
      }
    }

    method ImportIntoTarget(c: ClassId, ghost t0: Tables)
      requires Sound(g, T()) && c in g.classes
      requires Grows(t0, T()) && NewClosed(g, t0, T(), None)
      modifies this`imports
      ensures Sound(g, T()) && Grows(old(T()), T()) && Grows(t0, T()) && NewClosed(g, t0, T(), None)
      ensures TargetImports(g, T(), c)
    {
      hide GraphOk, Grows, NewClosed, BodyClosed, ParentClosed, FreeKeys;
      ghost var t := T();
      var err := Import(g.tns, g.classes[c].ns);
      NewClosedJoin(g, t0, t, T(), None);
    }

    /** Subclasses of the same namespace come along, without their parent. */
    method AddSubclasses(cls: ClassId) returns (err: Option<Error>)
      requires GraphOk(g) && Sound(g, T()) && cls in T().entered && cls in g.classes && g.classes[cls].complex
      modifies this`classes, this`imports, this`deps, this`memberMethods, this`entered
      ensures Sound(g, T()) && Grows(old(T()), T())
      ensures err.None? ==> NewClosed(g, old(T()), T(), None) && SubclassesClosed(g, T(), cls)
      decreases FreeKeys(g, T()), 3
    {
      hide GraphOk, Sound, Grows, NewClosed, BodyClosed, ParentClosed, FreeKeys, SubclassClosed, ParentHeld, Apart;
      var subclasses := g.classes[cls].subclasses;
      ghost var t0 := T();
      NothingNew(g, t0, None);
      for i := 0 to |subclasses|
        invariant Sound(g, T()) && Grows(t0, T()) && NewClosed(g, t0, T(), None)
        invariant forall j | 0 <= j < i :: SubclassClosed(g, T(), cls, subclasses[j])
      {
        ghost var t := T();
        SubclassKnown(g, cls, i);
        StaysEntered(t0, t, cls);
        FewerFree(g, t0, t);
        err := AddSubclass(cls, subclasses[i]);
        GrowsTransitive(t0, t, T());
        if err.Some? {
          return;
        }
        NewClosedJoin(g, t0, t, T(), None);
        forall j | 0 <= j < i ensures SubclassClosed(g, T(), cls, subclasses[j]) {
          SubclassStaysClosed(g, t, T(), cls, subclasses[j]);
        }
      }
      err := None;
    }

    /** A subclass that comes in here has its parent exactly when that is the class at hand, by name, or a
        field type brings it. */
    method AddSubclass(cls: ClassId, c: ClassId) returns (err: Option<Error>)
      requires GraphOk(g) && Sound(g, T()) && cls in T().entered && cls in g.classes && g.classes[cls].complex
      requires c in g.classes[cls].subclasses && c in g.classes
      modifies this`classes, this`imports, this`deps, this`memberMethods, this`entered
      ensures Sound(g, T()) && Grows(old(T()), T())
      ensures err.None? ==> NewClosed(g, old(T()), T(), None) && SubclassClosed(g, T(), cls, c)
      ensures err.None? && g.classes[c].ns == g.classes[cls].ns && !Registered(g, old(T()), c) ==>
        (ParentHeld(g, T(), c) <==> !Apart(g, cls, c))
      decreases FreeKeys(g, T()), 2
    {
      hide GraphOk, Sound, Grows, NewClosed, BodyClosed, ParentClosed, FreeKeys, ParentHeld, Apart, Wanted;
      ghost var t := T();
      NothingNew(g, t, None);
      if g.classes[c].ns == g.classes[cls].ns {
        var known := HasClass(c);
        if known.Err? {
          return Some(known.error);
        }
        if !known.value {
          ListedWanted(g, t, c, cls);
          err := Enter(c, false, Listed(cls));
          ghost var t1 := T();
          if err.Some? {
            return;
          }
          SubclassAdded(g, t, t1, cls, c);
          AddDep(c, Some(cls));
          EnteredStays(g, t1, T(), c, Listed(cls));
          ListedHeld(g, t, T(), cls, c);
        }
      }
      err := None;
    }

    // ---------- Methods ----------

    /** Enters a method under its own key and under its message name.  A key that is taken is left alone,
        or a conflict when another class holds it. */
    method ProcessMethod(s: Owner, m: Method) returns (err: Option<Error>)
      requires Valid()
      modifies this`methodIdMap, this`serviceMethodMap, this`routes
      ensures Valid()
      ensures m.key in old(methodIdMap) ==>
        && methodIdMap == old(methodIdMap) && serviceMethodMap == old(serviceMethodMap) && routes == old(routes)
        && (err.None? <==> MayShare(g, old(methodIdMap)[m.key].owner, s))
      ensures m.key !in old(methodIdMap) ==>
        && methodIdMap == old(methodIdMap)[m.key := m]
        && var name := MethodKey(g, s, m.name);
           && routes == old(routes) + [Route(name, m)]
           && match Dispatch(if name in old(serviceMethodMap) then old(serviceMethodMap)[name] else [], m)
              case Ok(methods) => err.None? && serviceMethodMap == old(serviceMethodMap)[name := methods]
              case Err(e) => err == Some(e) && serviceMethodMap == old(serviceMethodMap)
    {
      hide GraphOk, Sound, P.Coherent, Routed, MethodKey, MayShare;
      var name := MethodKey(g, s, m.name);
      if m.key in methodIdMap {
        return if MayShare(g, methodIdMap[m.key].owner, s) then None else Some(MethodConflict);
      }
      RouteStep(serviceMethodMap, routes, name, m);
      methodIdMap := methodIdMap[m.key := m];
      routes := routes + [Route(name, m)];
      var val := if name in serviceMethodMap then serviceMethodMap[name] else [];
      if |val| == 0 {
        serviceMethodMap := serviceMethodMap[name := [m]];
        assert val + [m] == [m];
      } else if m.aux {
        serviceMethodMap := serviceMethodMap[name := val + [m]];
      } else if val[0].aux {
        return Some(BadInsert);
      } else {
        return Some(DuplicateMethod);
      }
      return None;
    }

    /** From the methods of all services to the full registry. */
    method PopulateInterface(services: seq<(Owner, seq<Method>)>, extra: seq<ClassId>) returns (err: Option<Error>)
      requires Valid()
      requires forall i, j | 0 <= i < |services| && 0 <= j < |services[i].1| :: Names(g, services[i].1[j])
      requires forall i | 0 <= i < |extra| :: extra[i] in g.classes
      modifies this`classes, this`imports, this`deps, this`memberMethods, this`methodIdMap, this`serviceMethodMap,
        this`routes, this`asked, this`entered
      ensures asked == old(asked) + Roots(g, services, extra)
      ensures Valid() && Grows(old(T()).(asked := asked), T())
      ensures err.None? && old(Complete(g, T())) ==> Complete(g, T())
      ensures err.None? ==> NewClosed(g, old(T()), T(), None)
      ensures err.None? ==> forall i | 0 <= i < |extra| :: Registered(g, T(), extra[i])
      ensures err.None? ==> forall i | 0 <= i < |services| :: AllMethodsClosed(g, T(), services[i].1)
      ensures err.None? ==> routes == old(routes) + Fresh(g, old(methodIdMap.Keys), Offers(services))
      ensures err.None? && old(AllAccepted(serviceMethodMap, routes)) ==> AllAccepted(serviceMethodMap, routes)
    {
      hide GraphOk, Sound, Grows, NewClosed, BodyClosed, ParentClosed, FreeKeys, P.Coherent, Names, Routed,
        AllMethodsClosed, Fresh, AllAccepted, Roots, MethodWanted, Complete;
      Ask(Roots(g, services, extra));
      ghost var t0 := T();
      NothingNew(g, t0, None);
      for i := 0 to |services|
        invariant Valid() && Grows(t0, T()) && NewClosed(g, t0, T(), None)
        invariant forall n | 0 <= n < i :: AllMethodsClosed(g, T(), services[n].1)
        invariant methodIdMap == old(methodIdMap) && serviceMethodMap == old(serviceMethodMap) && routes == old(routes)
        invariant asked == t0.asked
      {
        ghost var t := T();
        RootsWanted(g, t, services, extra, i);
        err := AddMethods(services[i].1);
        GrowsTransitive(t0, t, T());
        if err.Some? {
          return;
        }
        NewClosedJoin(g, t0, t, T(), None);
        forall n | 0 <= n < i ensures AllMethodsClosed(g, T(), services[n].1) {
          AllMethodsStayClosed(g, t, T(), services[n].1);
        }
      }
      ghost var t1 := T();
      ExtraAsked(g, services, extra);
      err := AddExtra(extra);
      GrowsTransitive(t0, t1, T());
      if err.Some? {
        return;
      }
      NewClosedJoin(g, t0, t1, T(), None);
      forall n | 0 <= n < |services| ensures AllMethodsClosed(g, T(), services[n].1) {
        AllMethodsStayClosed(g, t1, T(), services[n].1);
      }
      RootsDone(g, T(), services, extra);
      CompleteStays(g, old(T()), t0, T(), Roots(g, services, extra));
      NewClosedAlike(g, old(T()), t0, T());
      err := RouteMethods(services);
    }

    method AddMethods(ms: seq<Method>) returns (err: Option<Error>)
      requires Valid()
      requires forall j | 0 <= j < |ms| :: Names(g, ms[j]) && MethodWanted(g, T(), ms[j], Asked)
      modifies this`classes, this`imports, this`deps, this`memberMethods, this`entered
      ensures Valid() && Grows(old(T()), T())
      ensures err.None? ==> NewClosed(g, old(T()), T(), None) && AllMethodsClosed(g, T(), ms)
    {
      hide GraphOk, Sound, Grows, NewClosed, BodyClosed, ParentClosed, FreeKeys, P.Coherent, Names, Routed,
        MethodClosed, MethodWanted;
      ghost var t0 := T();
      NothingNew(g, t0, None);
      for j := 0 to |ms|
        invariant Valid() && Grows(t0, T()) && NewClosed(g, t0, T(), None)
        invariant forall n | 0 <= n < j :: MethodClosed(g, T(), ms[n])
      {
        ghost var t := T();
        MethodStaysWanted(g, t0, t, ms[j], Asked);
        err := AddMethod(ms[j], Asked);
        GrowsTransitive(t0, t, T());
        if err.Some? {
          return;
        }
        NewClosedJoin(g, t0, t, T(), None);
        forall n | 0 <= n < j ensures MethodClosed(g, T(), ms[n]) { MethodStaysClosed(g, t, T(), ms[n]); }
      }
      err := None;
    }

    method AddExtra(extra: seq<ClassId>) returns (err: Option<Error>)
      requires Valid()
      requires forall i | 0 <= i < |extra| :: extra[i] in g.classes && extra[i] in T().asked
      modifies this`classes, this`imports, this`deps, this`memberMethods, this`entered
      ensures Valid() && Grows(old(T()), T())
      ensures err.None? ==> NewClosed(g, old(T()), T(), None)
      ensures err.None? ==> forall i | 0 <= i < |extra| :: Registered(g, T(), extra[i])
    {
      hide GraphOk, Sound, Grows, NewClosed, BodyClosed, ParentClosed, FreeKeys, P.Coherent, Routed;
      ghost var t0 := T();
      NothingNew(g, t0, None);
      for i := 0 to |extra|
        invariant Valid() && Grows(t0, T()) && NewClosed(g, t0, T(), None)
        invariant forall j | 0 <= j < i :: Registered(g, T(), extra[j])
      {
        ghost var t := T();
        AskedAlike(t0, t);
        err := Enter(extra[i], true, Asked);
        GrowsTransitive(t0, t, T());
        if err.Some? {
          return;
        }
        NewClosedJoin(g, t0, t, T(), None);
        AllStayRegistered(g, t, T(), extra[..i]);
        assert forall j | 0 <= j < i :: extra[..i][j] == extra[j];
      }
      err := None;
    }

    /** The methods of all services, and then the member methods. */
    function Offers(services: seq<(Owner, seq<Method>)>): seq<(Owner, Method)>
      reads this`memberMethods
    {
      ServiceOffers(services) + MemberOffers(g, memberMethods)
    }

    /** The call routes: methods of services first, then the collected member methods.  After a normal
        return the dispatch lists are the methods with new keys under each message name, in this order. */
    method RouteMethods(services: seq<(Owner, seq<Method>)>) returns (err: Option<Error>)
      requires Valid()
      modifies this`methodIdMap, this`serviceMethodMap, this`routes
      ensures Valid()
      ensures err.None? ==> methodIdMap.Keys == old(methodIdMap.Keys) + OfferKeys(Offers(services))
      ensures err.None? ==> routes == old(routes) + Fresh(g, old(methodIdMap.Keys), Offers(services))
      ensures err.None? && old(AllAccepted(serviceMethodMap, routes)) ==> AllAccepted(serviceMethodMap, routes)
    {
      hide GraphOk, Sound, P.Coherent, Routed, AllAccepted, Fresh, OfferKeys;
      ghost var taken, before, smooth := methodIdMap.Keys, routes, AllAccepted(serviceMethodMap, routes);
      ghost var done: seq<(Owner, Method)> := [];
      NoOffers(g, taken);
      for i := 0 to |services|
        invariant Valid() && Offered(taken, before, done, smooth) && done == ServiceOffers(services[..i])
      {
        var ms := services[i].1;
        ghost var first := done;
        assert first + OwnOffers(services[i].0, ms[..0]) == first;
        for j := 0 to |ms|
          invariant Valid() && Offered(taken, before, done, smooth) && done == first + OwnOffers(services[i].0, ms[..j])
        {
          err := Offer(services[i].0, ms[j], taken, before, done, smooth);
          if err.Some? {
            return;
          }
          done := done + [(services[i].0, ms[j])];
          assert ms[..j + 1][..j] == ms[..j];
        }
        assert ms[..|ms|] == ms;
        assert services[..i + 1][..i] == services[..i];
      }
      assert services[..|services|] == services;
      err := RouteMembers(taken, before, done, smooth);
    }

    /** The member methods, after those of the services. */
    method RouteMembers(ghost taken: set<string>, ghost before: seq<Route>, ghost first: seq<(Owner, Method)>,
        ghost smooth: bool) returns (err: Option<Error>)
      requires Valid() && Offered(taken, before, first, smooth)
      modifies this`methodIdMap, this`serviceMethodMap, this`routes
      ensures Valid()
      ensures err.None? ==> Offered(taken, before, first + MemberOffers(g, memberMethods), smooth)
    {
      hide GraphOk, Sound, P.Coherent, Routed, AllAccepted, Fresh, OfferKeys, Offered;
      ghost var done := first;
      assert first + MemberOffers(g, memberMethods[..0]) == first;
      for i := 0 to |memberMethods|
        invariant Valid() && Offered(taken, before, done, smooth)
        invariant done == first + MemberOffers(g, memberMethods[..i])
      {
        var (cls, m) := memberMethods[i];
        err := Offer(MemberOwner(g, cls), m, taken, before, done, smooth);
        if err.Some? {
          return;
        }
        done := done + [(MemberOwner(g, cls), m)];
        assert memberMethods[..i + 1][..i] == memberMethods[..i];
      }
      assert memberMethods[..|memberMethods|] == memberMethods;
      err := None;
    }

    /** Where registration stands after the methods of `done` were offered. */
    ghost predicate Offered(taken: set<string>, before: seq<Route>, done: seq<(Owner, Method)>, smooth: bool)
      reads this
    {
      && methodIdMap.Keys == taken + OfferKeys(done)
      && routes == before + Fresh(g, taken, done)
      && (smooth ==> AllAccepted(serviceMethodMap, routes))
    }

    method Offer(s: Owner, m: Method, ghost taken: set<string>, ghost before: seq<Route>,
        ghost done: seq<(Owner, Method)>, ghost smooth: bool) returns (err: Option<Error>)
      requires Valid() && Offered(taken, before, done, smooth)
      modifies this`methodIdMap, this`serviceMethodMap, this`routes
      ensures Valid()
      ensures err.None? ==> Offered(taken, before, done + [(s, m)], smooth)
    {
      hide GraphOk, Sound, P.Coherent, Routed, AllAccepted, Fresh, OfferKeys, Dispatch, MethodKey, MayShare;
      FreshSnoc(g, taken, done, s, m);
      ghost var lists, was := serviceMethodMap, routes;
      ghost var name := MethodKey(g, s, m.name);
      err := ProcessMethod(s, m);
      if err.None? && m.key !in taken + OfferKeys(done) && smooth {
        AcceptedStep(lists, was, name, m);
      }
    }

    /** The methods of a request, one context each: a name without a namespace is one of the target
        namespace, an unknown name is refused.  The first is the one that was registered first, and the
        others are the auxiliary ones in the order of their registration. */
    method GenerateMethodContexts(request: string) returns (r: Result<seq<Method>, Error>)
      requires Valid()
      ensures
        var name := if request != "" && request[0] == '{' then request else "{" + g.tns + "}" + request;
        var ms := Under(routes, name);
        if ms == [] then r == Err(NotFound) else r == Ok([ms[0]] + AuxOnly(ms[1..]))
      ensures r.Ok? ==>
        r.value != [] && ((exists i :: 0 <= i < |r.value| && !r.value[i].aux) <==> !r.value[0].aux)
    {
      hide GraphOk, Sound, P.Coherent, DispatchAll, Under, AuxOnly;
      var name := request;
      if !(name != "" && name[0] == '{') {
        name := "{" + g.tns + "}" + name;
      }
      var handles := if name in serviceMethodMap then serviceMethodMap[name] else [];
      if Under(routes, name) != [] {
        DispatchOrder(Under(routes, name));
        PrimaryFirst(Under(routes, name));
      }
      if |handles| == 0 {
        return Err(NotFound);
      }
      var retval: seq<Method> := [];
      for i := 0 to |handles|
        invariant retval == handles[..i]
      {
        retval := retval + [handles[i]];
      }
      assert handles[..|handles|] == handles;
      return Ok(retval);
    }
  }

  lemma NoOffers(g: Graph, taken: set<string>)
    ensures OfferKeys([]) == {} && Fresh(g, taken, []) == []
  {
  }
}
