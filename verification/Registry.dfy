/** What the interface registry promises, stated on the values of its tables. */
module Registry {
  import opened Wrappers

  type ClassId = nat

  /** A method descriptor.  `owner` is `parent_class`; `aux` marks an auxiliary method. */
  datatype Method = Method(
    key: string,
    name: string,
    owner: Option<ClassId>,
    aux: bool,
    enabled: bool,
    headers: seq<ClassId>,
    faults: seq<ClassId>,
    inMessage: ClassId,
    outMessage: ClassId)

  /** A class as the registry sees it.  `typeName` is `None` for a class still to be named, `ancestors`
      is the `__extends__` chain from the nearest on, `inner` the type inside an `XmlModifier`. */
  datatype ClassInfo = ClassInfo(
    ns: string,
    typeName: Option<string>,
    complex: bool,
    orig: Option<ClassId>,
    ancestors: seq<ClassId>,
    fields: seq<ClassId>,
    inner: Option<ClassId>,
    subclasses: seq<ClassId>,
    methods: seq<Method>)

  /** The classes of a program; they may refer to each other in cycles. */
  datatype Graph = Graph(
    classes: map<ClassId, ClassInfo>,
    arrayClass: ClassId,
    iterableClass: ClassId,
    tns: string,
    importBase: bool,
    baseNamespaces: set<string>)

  datatype Key = Qualified(ns: string, typeName: Option<string>) | Plain(name: string)

  datatype Error = NameConflict | NoName | NoImports | MethodConflict | DuplicateMethod | BadInsert | NotFound

  predicate Names(g: Graph, m: Method) {
    && (m.owner.Some? ==> m.owner.value in g.classes)
    && (forall i | 0 <= i < |m.headers| :: m.headers[i] in g.classes)
    && (forall i | 0 <= i < |m.faults| :: m.faults[i] in g.classes)
    && m.inMessage in g.classes && m.outMessage in g.classes
  }

  /** No class mentions one that is not there. */
  ghost predicate GraphOk(g: Graph) {
    forall c | c in g.classes ::
      var info := g.classes[c];
      && (forall i | 0 <= i < |info.ancestors| :: info.ancestors[i] in g.classes)
      && (forall i | 0 <= i < |info.fields| :: info.fields[i] in g.classes)
      && (info.inner.Some? ==> info.inner.value in g.classes)
      && (info.orig.Some? ==> info.orig.value in g.classes)
      && (forall i | 0 <= i < |info.methods| :: Names(g, info.methods[i]))
      && (forall i | 0 <= i < |info.subclasses| :: info.subclasses[i] in g.classes)
  }

  function KeyOf(g: Graph, c: ClassId): Key
    requires c in g.classes
  {
    Qualified(g.classes[c].ns, g.classes[c].typeName)
  }

  function OrigOf(g: Graph, c: ClassId): ClassId
    requires c in g.classes
  {
    if g.classes[c].orig.Some? then g.classes[c].orig.value else c
  }

  /** The first of `chain` that has a name. */
  function FirstNamed(g: Graph, chain: seq<ClassId>): Option<ClassId> {
    if chain == [] then None
    else if chain[0] in g.classes && g.classes[chain[0]].typeName.Some? then Some(chain[0])
    else FirstNamed(g, chain[1..])
  }

  /** The nearest named parent of a class. */
  function Parent(g: Graph, c: ClassId): Option<ClassId>
    requires c in g.classes
  {
    FirstNamed(g, g.classes[c].ancestors)
  }

  predicate ValidImport(g: Graph, ns: string) {
    g.importBase || ns !in g.baseNamespaces
  }

  /** Why a class was entered: it was asked for, or entered class `via` mentions it, or lists it among its
      subclasses, in which case it comes without its parent. */
  datatype Cause = Asked | Mention(via: ClassId) | Listed(via: ClassId)

  datatype Entry = Entry(rank: nat, cause: Cause)

  /** The tables that `add_class` fills; `members` is `member_methods`.  The last two are the history: the
      classes that were asked for, and why and in which order each class was entered. */
  datatype Tables = Tables(
    classes: map<Key, ClassId>,
    imports: map<string, set<string>>,
    deps: map<ClassId, set<ClassId>>,
    members: seq<(ClassId, Method)>,
    asked: set<ClassId>,
    entered: map<ClassId, Entry>)

  const Nothing: Tables := Tables(map[], map[], map[], [], {}, map[])

  predicate Registered(g: Graph, t: Tables, c: ClassId)
    requires c in g.classes
  {
    KeyOf(g, c) in t.classes
  }

  /** Where class `c` mentions class `d`, the namespace of `d` is imported into that of `c`. */
  predicate Imported(g: Graph, t: Tables, c: ClassId, d: ClassId)
    requires c in g.classes && d in g.classes
  {
    var ns, other := g.classes[c].ns, g.classes[d].ns;
    ns != other && ValidImport(g, other) ==> ns in t.imports && other in t.imports[ns]
  }

  predicate FieldClosed(g: Graph, t: Tables, c: ClassId, v: ClassId)
    requires c in g.classes && v in g.classes
  {
    && c in t.deps && v in t.deps[c]
    && Registered(g, t, v) && Imported(g, t, c, v)
    && match g.classes[v].inner
       case None => true
       case Some(inner) => inner in g.classes && Registered(g, t, inner) && Imported(g, t, c, inner)
  }

  /** Every field type of a class, and every type inside an `XmlModifier` field, is registered. */
  predicate FieldsClosed(g: Graph, t: Tables, c: ClassId) {
    && c in g.classes
    && (g.classes[c].complex ==>
          forall i | 0 <= i < |g.classes[c].fields| ::
            g.classes[c].fields[i] in g.classes && FieldClosed(g, t, c, g.classes[c].fields[i]))
  }

  predicate MethodRegistered(g: Graph, t: Tables, m: Method)
    requires Names(g, m)
  {
    && (forall i | 0 <= i < |m.headers| :: Registered(g, t, m.headers[i]))
    && (forall i | 0 <= i < |m.faults| :: Registered(g, t, m.faults[i]))
    && Registered(g, t, m.inMessage) && Registered(g, t, m.outMessage)
  }

  /** The namespace of a class is imported into the target namespace. */
  predicate TargetImports(g: Graph, t: Tables, d: ClassId)
    requires d in g.classes
  {
    var other := g.classes[d].ns;
    other != g.tns && ValidImport(g, other) ==> g.tns in t.imports && other in t.imports[g.tns]
  }

  /** What a method mentions is registered, unless it is auxiliary, and headers and messages are imported. */
  predicate MethodClosed(g: Graph, t: Tables, m: Method) {
    && Names(g, m)
    && (!m.aux ==> MethodRegistered(g, t, m))
    && (forall i | 0 <= i < |m.headers| :: TargetImports(g, t, m.headers[i]))
    && TargetImports(g, t, m.inMessage) && TargetImports(g, t, m.outMessage)
  }

  predicate AllMethodsClosed(g: Graph, t: Tables, ms: seq<Method>) {
    forall j | 0 <= j < |ms| :: MethodClosed(g, t, ms[j])
  }

  /** The enabled methods of a class are collected, and what they mention is there. */
  predicate MethodsClosed(g: Graph, t: Tables, c: ClassId) {
    && c in g.classes
    && (g.classes[c].complex ==>
          forall i | 0 <= i < |g.classes[c].methods| && g.classes[c].methods[i].enabled ::
            (c, g.classes[c].methods[i]) in t.members && MethodClosed(g, t, g.classes[c].methods[i]))
  }

  predicate SubclassClosed(g: Graph, t: Tables, c: ClassId, d: ClassId) {
    c in g.classes && d in g.classes && (g.classes[d].ns == g.classes[c].ns ==> Registered(g, t, d))
  }

  /** Subclasses in the same namespace are registered. */
  predicate SubclassesClosed(g: Graph, t: Tables, c: ClassId) {
    && c in g.classes
    && (g.classes[c].complex ==>
          forall i | 0 <= i < |g.classes[c].subclasses| :: SubclassClosed(g, t, c, g.classes[c].subclasses[i]))
  }

  predicate BodyClosed(g: Graph, t: Tables, c: ClassId) {
    FieldsClosed(g, t, c) && MethodsClosed(g, t, c) && SubclassesClosed(g, t, c)
  }

  /** A class that was entered with its parent depends on it, and the parent is registered and imported; one
      that was entered as a subclass depends on the class that lists it. */
  predicate ParentClosed(g: Graph, t: Tables, c: ClassId) {
    && c in g.classes && c in t.entered && c in t.deps
    && if t.entered[c].cause.Listed? then t.entered[c].cause.via in t.deps[c]
       else match Parent(g, c)
         case None => true
         case Some(p) => p in g.classes && Registered(g, t, p) && Imported(g, t, c, p) && p in t.deps[c]
  }

  /** Tables only grow. */
  ghost predicate Grows(t: Tables, u: Tables) {
    && (forall k | k in t.classes :: k in u.classes && u.classes[k] == t.classes[k])
    && (forall ns | ns in t.imports :: ns in u.imports && t.imports[ns] <= u.imports[ns])
    && (forall c | c in t.deps :: c in u.deps && t.deps[c] <= u.deps[c])
    && t.members <= u.members
    && u.asked == t.asked
    && (forall c | c in t.entered :: c in u.entered && u.entered[c] == t.entered[c])
  }

  /** All classes that `u` has and `t` has not are closed, but for the parent of class `open`. */
  ghost predicate NewClosed(g: Graph, t: Tables, u: Tables, open: Option<ClassId>) {
    forall k | k in u.classes && k !in t.classes ::
      BodyClosed(g, u, u.classes[k]) && (open != Some(u.classes[k]) ==> ParentClosed(g, u, u.classes[k]))
  }

  /** Names denote the class of that name, a class of the target namespace is also found under its plain
      name, and classes and namespaces stay in the graph. */
  ghost predicate NamesOk(g: Graph, t: Tables) {
    && (forall k | k in t.classes :: t.classes[k] in g.classes)
    && (forall k | k in t.classes && k.Qualified? :: KeyOf(g, t.classes[k]) == k && k.typeName.Some?)
    && (forall k | k in t.classes && k.Plain? ::
          var q := Qualified(g.tns, Some(k.name));
          q in t.classes && t.classes[q] == t.classes[k])
    && (forall k | k in t.classes && k.Qualified? && k.ns == g.tns && k.typeName.Some? ::
          Plain(k.typeName.value) in t.classes)
  }

  /** Namespaces import other ones only. */
  ghost predicate ImportsOk(g: Graph, t: Tables) {
    && g.tns in t.imports
    && (forall k | k in t.classes && k.Qualified? && ValidImport(g, k.ns) :: k.ns in t.imports)
    && (forall ns | ns in t.imports :: forall other | other in t.imports[ns] :: other != ns && ValidImport(g, other))
  }

  /** The tables agree with the graph and with their history. */
  ghost predicate Sound(g: Graph, t: Tables) {
    NamesOk(g, t) && ImportsOk(g, t) && Traced(g, t)
  }

  /** Class `d` is a field type of `c`, or inside one. */
  ghost predicate Fields(g: Graph, c: ClassId, d: ClassId)
    requires c in g.classes && d in g.classes
  {
    && g.classes[c].complex
    && (d in g.classes[c].fields
        || exists v :: v in g.classes[c].fields && v in g.classes && g.classes[v].inner == Some(d))
  }

  /** Class `d` is a subclass of `c` in the same namespace. */
  predicate Derives(g: Graph, c: ClassId, d: ClassId)
    requires c in g.classes && d in g.classes
  {
    g.classes[c].complex && d in g.classes[c].subclasses && g.classes[d].ns == g.classes[c].ns
  }

  /** An enabled method of `c` has `d` as a header or message; `faulty` as a fault. */
  predicate Serves(g: Graph, c: ClassId, d: ClassId, faulty: bool)
    requires c in g.classes && d in g.classes
  {
    g.classes[c].complex
    && exists i | 0 <= i < |g.classes[c].methods| :: Uses(g.classes[c].methods[i], d, faulty)
  }

  predicate Uses(m: Method, d: ClassId, faulty: bool) {
    m.enabled && !m.aux && Says(m, d, faulty)
  }

  predicate Says(m: Method, d: ClassId, faulty: bool) {
    if faulty then d in m.faults else d in m.headers || d == m.inMessage || d == m.outMessage
  }

  /** Class `d` is the nearest named parent of `c`, and `c` was made to depend on it. */
  predicate Extends(g: Graph, t: Tables, c: ClassId, d: ClassId)
    requires c in g.classes
  {
    Parent(g, c) == Some(d) && c in t.deps && d in t.deps[c]
  }

  /** Class `c` mentions class `d` otherwise than as a subclass. */
  ghost predicate Mentions(g: Graph, t: Tables, c: ClassId, d: ClassId) {
    && c in g.classes && d in g.classes
    && (Extends(g, t, c, d) || Fields(g, c, d) || Serves(g, c, d, false) || Serves(g, c, d, true))
  }

  /** There is a reason to enter class `c`. */
  ghost predicate Wanted(g: Graph, t: Tables, c: ClassId, cause: Cause) {
    && c in g.classes
    && match cause
       case Asked => c in t.asked
       case Mention(via) => via in t.entered && Mentions(g, t, via, c)
       case Listed(via) => via in t.entered && via in g.classes && Derives(g, via, c)
  }

  /** Every class that `add_class` entered holds its name, and was entered for a reason, by a class that was
      entered before it. */
  ghost predicate Traced(g: Graph, t: Tables) {
    && (forall c | c in t.entered :: HoldsName(g, t, c) && Wanted(g, t, c, t.entered[c].cause) && Ranked(t, c))
    && (forall k | k in t.classes && k.Qualified? :: t.classes[k] in t.entered)
    && (forall c | c in t.deps :: forall d | d in t.deps[c] :: DependsOk(g, t, c, d))
    && t.deps.Keys == t.entered.Keys
  }

  predicate HoldsName(g: Graph, t: Tables, c: ClassId) {
    c in g.classes && Registered(g, t, c) && t.classes[KeyOf(g, c)] == c
  }

  predicate Ranked(t: Tables, c: ClassId)
    requires c in t.entered
  {
    && t.entered[c].rank < |t.entered|
    && (!t.entered[c].cause.Asked? ==>
          t.entered[c].cause.via in t.entered && t.entered[t.entered[c].cause.via].rank < t.entered[c].rank)
  }

  /** A class depends on its field types, and on its parent or the class that lists it. */
  predicate DependsOk(g: Graph, t: Tables, c: ClassId, d: ClassId) {
    && c in g.classes && c in t.entered
    && ((g.classes[c].complex && d in g.classes[c].fields)
        || if t.entered[c].cause.Listed? then d == t.entered[c].cause.via else Parent(g, c) == Some(d))
  }

  ghost function AllKeys(g: Graph): set<Key> {
    set c | c in g.classes :: KeyOf(g, c)
  }

  /** The keys that are still free; every class that is added takes one of them. */
  ghost function FreeKeys(g: Graph, t: Tables): set<Key> {
    AllKeys(g) - t.classes.Keys
  }

  // ---------- Single updates ----------

  function WithDep(t: Tables, cls: ClassId, other: Option<ClassId>): Tables {
    var before := if cls in t.deps then t.deps[cls] else {};
    t.(deps := t.deps[cls := before + (if other.Some? then {other.value} else {})])
  }

  function WithNamespace(g: Graph, t: Tables, ns: string): Tables {
    if ns !in t.imports && ValidImport(g, ns) then t.(imports := t.imports[ns := {}]) else t
  }

  /** A class is entered under its qualified name, and in the target namespace under its plain one. */
  function WithClass(g: Graph, t: Tables, cls: ClassId, cause: Cause): Tables
    requires cls in g.classes && g.classes[cls].typeName.Some?
  {
    var entered := t.classes[KeyOf(g, cls) := cls];
    t.(classes := if g.classes[cls].ns == g.tns then entered[Plain(g.classes[cls].typeName.value) := cls] else entered,
       deps := WithDep(t, cls, None).deps,
       entered := t.entered[cls := Entry(|t.entered|, cause)])
  }

  function WithMember(t: Tables, cls: ClassId, m: Method): Tables {
    t.(members := t.members + [(cls, m)])
  }

  /** An unknown importing namespace is a `KeyError`. */
  function WithImport(g: Graph, t: Tables, ns: string, other: string): Result<Tables, Error> {
    if other == ns then Ok(t)
    else if ns !in t.imports then Err(NoImports)
    else if other !in t.imports[ns] && ValidImport(g, other) then
      Ok(t.(imports := t.imports[ns := t.imports[ns] + {other}]))
    else Ok(t)
  }

  lemma DepStep(g: Graph, t: Tables, cls: ClassId, other: ClassId)
    requires Sound(g, t) && cls in t.entered && DependsOk(g, t, cls, other)
    ensures
      var u := WithDep(t, cls, Some(other));
      && Sound(g, u) && Grows(t, u) && NewClosed(g, t, u, None) && FreeKeys(g, u) == FreeKeys(g, t)
      && cls in u.deps && other in u.deps[cls]
  {
    hide Traced, DependsOk, BodyClosed, ParentClosed, ValidImport;
    TracedDeps(g, t, cls, other);
  }

  lemma TracedDeps(g: Graph, t: Tables, cls: ClassId, other: ClassId)
    requires Traced(g, t) && cls in t.entered && DependsOk(g, t, cls, other)
    ensures Traced(g, WithDep(t, cls, Some(other)))
  {
    hide Fields, Serves, Derives, Mentions, Wanted, Parent, HoldsName, DependsOk;
    var u := WithDep(t, cls, Some(other));
    forall c | c in u.entered ensures HoldsName(g, u, c) && Wanted(g, u, c, u.entered[c].cause) && Ranked(u, c) {
      assert HoldsName(g, t, c) && Ranked(t, c);
      WantedGrows(g, t, u, c, t.entered[c].cause);
      HolderStays(g, t, u, c);
    }
    forall c | c in u.deps ensures forall d | d in u.deps[c] :: DependsOk(g, u, c, d) {
      forall d | d in u.deps[c] ensures DependsOk(g, u, c, d) { DependsStays(g, t, u, c, d); }
    }
  }

  lemma HolderStays(g: Graph, t: Tables, u: Tables, c: ClassId)
    requires Grows(t, u) && HoldsName(g, t, c)
    ensures HoldsName(g, u, c)
  {
  }

  lemma WantedGrows(g: Graph, t: Tables, u: Tables, c: ClassId, cause: Cause)
    requires Grows(t, u) && Wanted(g, t, c, cause)
    ensures Wanted(g, u, c, cause)
  {
    hide Fields, Serves, Derives;
  }

  lemma NamesFrame(g: Graph, t: Tables, u: Tables)
    requires NamesOk(g, t) && u.classes == t.classes
    ensures NamesOk(g, u)
  {
  }

  /** Imports and member methods are no part of the history. */
  lemma TracedFrame(g: Graph, t: Tables, u: Tables)
    requires Traced(g, t)
    requires u.classes == t.classes && u.deps == t.deps && u.asked == t.asked && u.entered == t.entered
    ensures Traced(g, u)
  {
    hide Fields, Serves, Derives;
    forall c | c in u.entered
      ensures HoldsName(g, u, c) && Wanted(g, u, c, u.entered[c].cause) && Ranked(u, c)
    {
      assert HoldsName(g, t, c) && Wanted(g, t, c, t.entered[c].cause) && Ranked(t, c);
    }
    forall c | c in u.deps ensures forall d | d in u.deps[c] :: DependsOk(g, u, c, d) {
      forall d | d in u.deps[c] ensures DependsOk(g, u, c, d) { assert DependsOk(g, t, c, d); }
    }
  }

  lemma MemberStep(g: Graph, t: Tables, cls: ClassId, m: Method)
    requires Sound(g, t)
    ensures
      var u := WithMember(t, cls, m);
      && Sound(g, u) && Grows(t, u) && NewClosed(g, t, u, None) && FreeKeys(g, u) == FreeKeys(g, t)
      && (cls, m) in u.members
  {
    hide Traced;
    var u := WithMember(t, cls, m);
    TracedFrame(g, t, u);
    assert u.members[|t.members|] == (cls, m);
  }

  lemma NamespaceStep(g: Graph, t: Tables, ns: string)
    requires Sound(g, t)
    ensures
      var u := WithNamespace(g, t, ns);
      Sound(g, u) && Grows(t, u) && FreeKeys(g, u) == FreeKeys(g, t) && (ValidImport(g, ns) ==> ns in u.imports)
  {
    hide Traced;
    TracedFrame(g, t, WithNamespace(g, t, ns));
  }

  lemma NameIsFree(g: Graph, t: Tables, cls: ClassId)
    requires Sound(g, t) && cls in g.classes && g.classes[cls].typeName.Some? && !Registered(g, t, cls)
    ensures cls !in t.entered
    ensures g.classes[cls].ns == g.tns ==> Plain(g.classes[cls].typeName.value) !in t.classes
  {
    hide Wanted, Ranked, DependsOk, ImportsOk;
  }

  lemma EntryGrows(g: Graph, t: Tables, cls: ClassId, cause: Cause)
    requires cls in g.classes && g.classes[cls].typeName.Some? && !Registered(g, t, cls)
    requires cls !in t.entered
    requires g.classes[cls].ns == g.tns ==> Plain(g.classes[cls].typeName.value) !in t.classes
    ensures Grows(t, WithClass(g, t, cls, cause))
  {
  }

  lemma EntryThere(g: Graph, t: Tables, cls: ClassId, cause: Cause)
    requires cls in g.classes && g.classes[cls].typeName.Some?
    ensures
      var u := WithClass(g, t, cls, cause);
      && HoldsName(g, u, cls) && cls in u.entered && u.entered[cls].cause == cause
      && forall k | k in u.classes && k !in t.classes :: u.classes[k] == cls
  {
  }

  lemma KeyUsed(g: Graph, t: Tables, cls: ClassId, cause: Cause)
    requires cls in g.classes && g.classes[cls].typeName.Some? && !Registered(g, t, cls)
    ensures FreeKeys(g, WithClass(g, t, cls, cause)) < FreeKeys(g, t)
  {
    assert KeyOf(g, cls) in FreeKeys(g, t);
    assert t.classes.Keys <= WithClass(g, t, cls, cause).classes.Keys;
  }

  lemma ClassStep(g: Graph, t: Tables, cls: ClassId, cause: Cause)
    requires Sound(g, t) && cls in g.classes && g.classes[cls].typeName.Some? && !Registered(g, t, cls)
    requires Wanted(g, t, cls, cause)
    requires ValidImport(g, g.classes[cls].ns) ==> g.classes[cls].ns in t.imports
    ensures
      var u := WithClass(g, t, cls, cause);
      && Sound(g, u) && Grows(t, u) && FreeKeys(g, u) < FreeKeys(g, t)
      && HoldsName(g, u, cls) && cls in u.entered && u.entered[cls].cause == cause
      && forall k | k in u.classes && k !in t.classes :: u.classes[k] == cls
  {
    hide Grows, FreeKeys, HoldsName, NamesOk, ImportsOk, Traced;
    NameIsFree(g, t, cls);
    EntryGrows(g, t, cls, cause);
    EntryThere(g, t, cls, cause);
    KeyUsed(g, t, cls, cause);
    EntryNamed(g, t, cls, cause);
    EntryTraced(g, t, cls, cause);
  }

  lemma EntryNamed(g: Graph, t: Tables, cls: ClassId, cause: Cause)
    requires NamesOk(g, t) && ImportsOk(g, t) && cls in g.classes && g.classes[cls].typeName.Some?
    requires !Registered(g, t, cls)
    requires ValidImport(g, g.classes[cls].ns) ==> g.classes[cls].ns in t.imports
    ensures NamesOk(g, WithClass(g, t, cls, cause)) && ImportsOk(g, WithClass(g, t, cls, cause))
  {
    hide ValidImport;
  }

  lemma EntryTraced(g: Graph, t: Tables, cls: ClassId, cause: Cause)
    requires Traced(g, t) && cls in g.classes && g.classes[cls].typeName.Some? && !Registered(g, t, cls)
    requires cls !in t.entered && Wanted(g, t, cls, cause)
    requires g.classes[cls].ns == g.tns ==> Plain(g.classes[cls].typeName.value) !in t.classes
    ensures Traced(g, WithClass(g, t, cls, cause))
  {
    hide Fields, Serves, Derives, Mentions, Wanted, DependsOk, FreeKeys, Parent, HoldsName, Ranked, Grows;
    var u := WithClass(g, t, cls, cause);
    EntryGrows(g, t, cls, cause);
    EntryThere(g, t, cls, cause);
    WantedGrows(g, t, u, cls, cause);
    EntryRanked(g, t, cls, cause);
    forall c | c in u.entered
      ensures HoldsName(g, u, c) && Wanted(g, u, c, u.entered[c].cause)
    {
      if c != cls {
        assert HoldsName(g, t, c) && Wanted(g, t, c, t.entered[c].cause);
        WantedGrows(g, t, u, c, t.entered[c].cause);
        HolderStays(g, t, u, c);
      }
    }
    forall c | c in u.deps ensures forall d | d in u.deps[c] :: DependsOk(g, u, c, d) {
      forall d | d in u.deps[c] ensures DependsOk(g, u, c, d) { DependsStays(g, t, u, c, d); }
    }
  }

  lemma EntryRanked(g: Graph, t: Tables, cls: ClassId, cause: Cause)
    requires Traced(g, t) && cls !in t.entered && cls in g.classes && g.classes[cls].typeName.Some?
    requires Wanted(g, t, cls, cause)
    ensures forall c | c in WithClass(g, t, cls, cause).entered :: Ranked(WithClass(g, t, cls, cause), c)
  {
    hide HoldsName, DependsOk, Mentions, Derives;
    var u := WithClass(g, t, cls, cause);
    assert |u.entered| == |t.entered| + 1 by { assert u.entered - {cls} == t.entered; }
    forall c | c in u.entered ensures Ranked(u, c) {
      if c != cls { assert Ranked(t, c); } else if !cause.Asked? { assert Ranked(t, cause.via); }
    }
  }

  lemma DependsStays(g: Graph, t: Tables, u: Tables, c: ClassId, d: ClassId)
    requires Grows(t, u) && DependsOk(g, t, c, d)
    ensures DependsOk(g, u, c, d)
  {
  }

  lemma EmptySound(g: Graph)
    ensures Sound(g, Nothing.(imports := map[g.tns := {}])) && Routed(map[], [])
    ensures Complete(g, Nothing.(imports := map[g.tns := {}]))
  {
  }

  lemma ImportStep(g: Graph, t: Tables, ns: string, other: string)
    requires Sound(g, t) && WithImport(g, t, ns, other).Ok?
    ensures
      var u := WithImport(g, t, ns, other).value;
      && Sound(g, u) && Grows(t, u) && NewClosed(g, t, u, None) && FreeKeys(g, u) == FreeKeys(g, t)
      && (ns != other && ValidImport(g, other) ==> ns in u.imports && other in u.imports[ns])
  {
    hide BodyClosed, ParentClosed, AllKeys, Traced, NamesOk;
    NamesFrame(g, t, WithImport(g, t, ns, other).value);
    TracedFrame(g, t, WithImport(g, t, ns, other).value);
  }

  // ---------- Growth ----------

  lemma NothingNew(g: Graph, t: Tables, open: Option<ClassId>)
    ensures Grows(t, t) && NewClosed(g, t, t, open)
  {
  }

  lemma StaysRegistered(g: Graph, t: Tables, u: Tables, c: ClassId)
    requires Grows(t, u) && c in g.classes && Registered(g, t, c)
    ensures Registered(g, u, c) && u.classes[KeyOf(g, c)] == t.classes[KeyOf(g, c)]
  {
  }

  lemma FieldsStayClosed(g: Graph, t: Tables, u: Tables, c: ClassId)
    requires Grows(t, u) && FieldsClosed(g, t, c)
    ensures FieldsClosed(g, u, c)
  {
  }

  lemma MethodStaysClosed(g: Graph, t: Tables, u: Tables, m: Method)
    requires Grows(t, u) && MethodClosed(g, t, m)
    ensures MethodClosed(g, u, m)
  {
  }

  lemma AllMethodsStayClosed(g: Graph, t: Tables, u: Tables, ms: seq<Method>)
    requires Grows(t, u) && AllMethodsClosed(g, t, ms)
    ensures AllMethodsClosed(g, u, ms)
  {
    hide MethodClosed;
    forall j | 0 <= j < |ms| ensures MethodClosed(g, u, ms[j]) { MethodStaysClosed(g, t, u, ms[j]); }
  }

  lemma MethodsStayClosed(g: Graph, t: Tables, u: Tables, c: ClassId)
    requires Grows(t, u) && MethodsClosed(g, t, c)
    ensures MethodsClosed(g, u, c)
  {
    hide MethodClosed;
    if g.classes[c].complex {
      forall i | 0 <= i < |g.classes[c].methods| && g.classes[c].methods[i].enabled
        ensures (c, g.classes[c].methods[i]) in u.members && MethodClosed(g, u, g.classes[c].methods[i])
      {
        MethodStaysClosed(g, t, u, g.classes[c].methods[i]);
        MemberStays(t, u, (c, g.classes[c].methods[i]));
      }
    }
  }

  lemma MemberStays(t: Tables, u: Tables, x: (ClassId, Method))
    requires Grows(t, u) && x in t.members
    ensures x in u.members
  {
    var i :| 0 <= i < |t.members| && t.members[i] == x;
    assert u.members[i] == x;
  }

  lemma SubclassStaysClosed(g: Graph, t: Tables, u: Tables, c: ClassId, d: ClassId)
    requires Grows(t, u) && SubclassClosed(g, t, c, d)
    ensures SubclassClosed(g, u, c, d)
  {
  }

  lemma SubclassesStayClosed(g: Graph, t: Tables, u: Tables, c: ClassId)
    requires Grows(t, u) && SubclassesClosed(g, t, c)
    ensures SubclassesClosed(g, u, c)
  {
    hide Grows, SubclassClosed;
    forall d | SubclassClosed(g, t, c, d) ensures SubclassClosed(g, u, c, d) { SubclassStaysClosed(g, t, u, c, d); }
  }

  lemma StaysClosed(g: Graph, t: Tables, u: Tables, c: ClassId)
    requires Grows(t, u)
    ensures BodyClosed(g, t, c) ==> BodyClosed(g, u, c)
    ensures ParentClosed(g, t, c) ==> ParentClosed(g, u, c)
  {
    hide FieldsClosed, MethodsClosed, SubclassesClosed;
    if BodyClosed(g, t, c) {
      FieldsStayClosed(g, t, u, c);
      MethodsStayClosed(g, t, u, c);
      SubclassesStayClosed(g, t, u, c);
    }
  }

  lemma FieldStaysClosed(g: Graph, t: Tables, u: Tables, c: ClassId, v: ClassId)
    requires Grows(t, u) && c in g.classes && v in g.classes && FieldClosed(g, t, c, v)
    ensures FieldClosed(g, u, c, v)
  {
  }

  lemma DepStays(t: Tables, u: Tables, c: ClassId, d: ClassId)
    requires Grows(t, u) && c in t.deps && d in t.deps[c]
    ensures c in u.deps && d in u.deps[c]
  {
  }

  lemma ImportStays(g: Graph, t: Tables, u: Tables, c: ClassId, d: ClassId)
    requires Grows(t, u) && c in g.classes && d in g.classes && Imported(g, t, c, d)
    ensures Imported(g, u, c, d)
  {
  }

  lemma AllStayRegistered(g: Graph, t: Tables, u: Tables, cs: seq<ClassId>)
    requires Grows(t, u) && forall i | 0 <= i < |cs| :: cs[i] in g.classes && Registered(g, t, cs[i])
    ensures forall i | 0 <= i < |cs| :: Registered(g, u, cs[i])
  {
  }

  lemma InnerKnown(g: Graph, v: ClassId)
    requires GraphOk(g) && v in g.classes
    ensures g.classes[v].inner.Some? ==> g.classes[v].inner.value in g.classes
  {
  }

  lemma SubclassKnown(g: Graph, c: ClassId, i: nat)
    requires GraphOk(g) && c in g.classes && i < |g.classes[c].subclasses|
    ensures g.classes[c].subclasses[i] in g.classes
  {
  }

  lemma GrowsTransitive(t: Tables, u: Tables, w: Tables)
    requires Grows(t, u) && Grows(u, w)
    ensures Grows(t, w)
  {
  }

  /** Closedness of what was added in two stretches. */
  lemma NewClosedJoin(g: Graph, t: Tables, u: Tables, w: Tables, open: Option<ClassId>)
    requires Grows(t, u) && Grows(u, w) && NewClosed(g, t, u, open) && NewClosed(g, u, w, None)
    ensures Grows(t, w) && NewClosed(g, t, w, open)
  {
    hide BodyClosed, ParentClosed;
    forall k | k in w.classes && k !in t.classes
      ensures BodyClosed(g, w, w.classes[k]) && (open != Some(w.classes[k]) ==> ParentClosed(g, w, w.classes[k]))
    {
      if k in u.classes { StaysClosed(g, u, w, u.classes[k]); }
    }
  }

  lemma NewClosedAlike(g: Graph, t: Tables, t1: Tables, u: Tables)
    requires t1.classes == t.classes && NewClosed(g, t1, u, None)
    ensures NewClosed(g, t, u, None)
  {
    hide BodyClosed, ParentClosed;
  }

  lemma FewerFree(g: Graph, t: Tables, u: Tables)
    requires Grows(t, u)
    ensures FreeKeys(g, u) <= FreeKeys(g, t)
  {
  }

  /** The class that was entered first is closed when all that follows it is. */
  lemma FirstClosed(g: Graph, t0: Tables, t1: Tables, t: Tables, cls: ClassId, addParent: bool)
    requires NewClosed(g, t1, t, None) && Grows(t1, t)
    requires forall k | k in t1.classes && k !in t0.classes :: t1.classes[k] == cls
    requires BodyClosed(g, t, cls) && (addParent ==> ParentClosed(g, t, cls))
    ensures NewClosed(g, t0, t, if addParent then None else Some(cls))
  {
    hide BodyClosed, ParentClosed;
  }

  /** A subclass that was added without its parent is closed once the class at hand is a dependency. */
  lemma SubclassAdded(g: Graph, t: Tables, u: Tables, cls: ClassId, c: ClassId)
    requires Sound(g, u) && Grows(t, u) && NewClosed(g, t, u, Some(c))
    requires c in u.entered && u.entered[c].cause == Listed(cls)
    ensures
      var w := WithDep(u, c, Some(cls));
      Sound(g, w) && Grows(u, w) && Grows(t, w) && NewClosed(g, t, w, None)
  {
    hide Sound, BodyClosed;
    var w := WithDep(u, c, Some(cls));
    SubclassDepends(g, u, cls, c);
    DepStep(g, u, c, cls);
    GrowsTransitive(t, u, w);
    forall k | k in w.classes && k !in t.classes
      ensures BodyClosed(g, w, w.classes[k]) && ParentClosed(g, w, w.classes[k])
    {
      StaysClosed(g, u, w, u.classes[k]);
    }
  }

  lemma SubclassDepends(g: Graph, u: Tables, cls: ClassId, c: ClassId)
    requires Sound(g, u) && c in u.entered && u.entered[c].cause == Listed(cls)
    ensures c in g.classes && DependsOk(g, u, c, cls)
  {
  }

  // ---------- Why classes are entered ----------

  predicate EnteredFor(g: Graph, t: Tables, c: ClassId, cause: Cause) {
    HoldsName(g, t, c) && c in t.entered && t.entered[c].cause == cause
  }

  lemma EnteredStays(g: Graph, t: Tables, u: Tables, c: ClassId, cause: Cause)
    requires Grows(t, u) && EnteredFor(g, t, c, cause)
    ensures EnteredFor(g, u, c, cause)
  {
  }

  lemma StaysEntered(t: Tables, u: Tables, c: ClassId)
    requires Grows(t, u) && c in t.entered
    ensures c in u.entered && u.entered[c] == t.entered[c]
  {
  }

  lemma EnteredThere(g: Graph, t: Tables, c: ClassId)
    requires Sound(g, t) && c in t.entered
    ensures EnteredFor(g, t, c, t.entered[c].cause) && c in t.deps
  {
    hide Wanted, DependsOk, Ranked;
  }

  lemma WantedThere(g: Graph, t: Tables, c: ClassId, cause: Cause)
    requires Wanted(g, t, c, cause)
    ensures c in g.classes
  {
  }

  lemma MentionWanted(g: Graph, t: Tables, c: ClassId, via: ClassId)
    requires via in t.entered && Mentions(g, t, via, c)
    ensures Wanted(g, t, c, Mention(via))
  {
  }

  lemma ListedWanted(g: Graph, t: Tables, c: ClassId, via: ClassId)
    requires via in t.entered && via in g.classes && c in g.classes && Derives(g, via, c)
    ensures Wanted(g, t, c, Listed(via))
  {
  }

  lemma FieldDepends(g: Graph, t: Tables, c: ClassId, v: ClassId)
    requires c in t.entered && c in g.classes && g.classes[c].complex && v in g.classes[c].fields
    ensures DependsOk(g, t, c, v)
  {
  }

  lemma FieldIsClosed(g: Graph, t: Tables, c: ClassId, v: ClassId)
    requires GraphOk(g) && c in g.classes && v in g.classes && c in t.deps && v in t.deps[c]
    requires Registered(g, t, v) && Imported(g, t, c, v)
    requires match g.classes[v].inner
             case None => true
             case Some(inner) => inner in g.classes ==> Registered(g, t, inner) && Imported(g, t, c, inner)
    ensures FieldClosed(g, t, c, v)
  {
    InnerKnown(g, v);
  }

  /** There is a reason to enter every class that a method mentions, unless it is auxiliary. */
  ghost predicate MethodWanted(g: Graph, t: Tables, m: Method, cause: Cause) {
    !cause.Listed? && (!m.aux ==> forall d, faulty | Says(m, d, faulty) :: Wanted(g, t, d, cause))
  }

  lemma SaidWanted(g: Graph, t: Tables, m: Method, cause: Cause)
    requires MethodWanted(g, t, m, cause)
    ensures !m.aux ==>
      && (forall i | 0 <= i < |m.headers| :: Wanted(g, t, m.headers[i], cause))
      && (forall i | 0 <= i < |m.faults| :: Wanted(g, t, m.faults[i], cause))
      && Wanted(g, t, m.inMessage, cause) && Wanted(g, t, m.outMessage, cause)
  {
    hide Wanted;
    assert forall i | 0 <= i < |m.headers| :: Says(m, m.headers[i], false);
    assert forall i | 0 <= i < |m.faults| :: Says(m, m.faults[i], true);
    assert Says(m, m.inMessage, false) && Says(m, m.outMessage, false);
  }

  lemma MethodStaysWanted(g: Graph, t: Tables, u: Tables, m: Method, cause: Cause)
    requires Grows(t, u) && MethodWanted(g, t, m, cause)
    ensures MethodWanted(g, u, m, cause)
  {
    hide Wanted, Says;
    if !m.aux {
      forall d, faulty | Says(m, d, faulty) ensures Wanted(g, u, d, cause) { WantedGrows(g, t, u, d, cause); }
    }
  }

  lemma ServedWanted(g: Graph, t: Tables, c: ClassId, i: nat)
    requires GraphOk(g) && c in t.entered && c in g.classes && g.classes[c].complex
    requires i < |g.classes[c].methods| && g.classes[c].methods[i].enabled
    ensures Names(g, g.classes[c].methods[i]) && MethodWanted(g, t, g.classes[c].methods[i], Mention(c))
  {
    hide Fields;
    var m := g.classes[c].methods[i];
    assert Names(g, m);
    if !m.aux {
      forall d, faulty | Says(m, d, faulty) ensures Wanted(g, t, d, Mention(c)) {
        assert Uses(m, d, faulty);
        assert d in g.classes && Serves(g, c, d, faulty);
      }
    }
  }

  lemma AskTraced(g: Graph, t: Tables, cs: set<ClassId>)
    requires Sound(g, t)
    ensures Sound(g, t.(asked := t.asked + cs))
  {
    hide Mentions, Derives, Parent;
    var u := t.(asked := t.asked + cs);
    hide Fields, Serves;
    forall c | c in u.entered ensures HoldsName(g, u, c) && Wanted(g, u, c, u.entered[c].cause) && Ranked(u, c) {
      assert HoldsName(g, t, c) && Wanted(g, t, c, t.entered[c].cause) && Ranked(t, c);
      if t.entered[c].cause.Mention? { MentionsAlike(g, t, u, t.entered[c].cause.via, c); }
    }
    forall c | c in u.deps ensures forall d | d in u.deps[c] :: DependsOk(g, u, c, d) {
      forall d | d in u.deps[c] ensures DependsOk(g, u, c, d) { assert DependsOk(g, t, c, d); }
    }
  }

  lemma MentionsAlike(g: Graph, t: Tables, u: Tables, c: ClassId, d: ClassId)
    requires Mentions(g, t, c, d) && u.deps == t.deps
    ensures Mentions(g, u, c, d)
  {
  }

  /** The subclass that `cls` has just brought in. */
  lemma ListedHeld(g: Graph, t: Tables, u: Tables, cls: ClassId, c: ClassId)
    requires GraphOk(g) && Sound(g, u) && NewClosed(g, t, u, None) && EnteredFor(g, u, c, Listed(cls))
    requires c in g.classes && cls in g.classes && !Registered(g, t, c)
    ensures ParentHeld(g, u, c) <==> !Apart(g, cls, c)
  {
    hide GraphOk, Sound, Apart, ParentHeld, FieldsClosed, MethodsClosed, SubclassesClosed, ParentClosed;
    ParentHeldExactly(g, u, c);
  }

  /** What the services and the additional classes ask for; an auxiliary method asks for nothing. */
  ghost function Roots(g: Graph, services: seq<(Owner, seq<Method>)>, extra: seq<ClassId>): set<ClassId> {
    set c | c in g.classes && (c in extra || Served(services, c))
  }

  ghost predicate Served(services: seq<(Owner, seq<Method>)>, c: ClassId) {
    exists i, j | 0 <= i < |services| && 0 <= j < |services[i].1| ::
      !services[i].1[j].aux && (Says(services[i].1[j], c, false) || Says(services[i].1[j], c, true))
  }

  lemma RootsWanted(g: Graph, t: Tables, services: seq<(Owner, seq<Method>)>, extra: seq<ClassId>, i: nat)
    requires i < |services| && Roots(g, services, extra) <= t.asked
    requires forall j | 0 <= j < |services[i].1| :: Names(g, services[i].1[j])
    ensures forall j | 0 <= j < |services[i].1| :: MethodWanted(g, t, services[i].1[j], Asked)
  {
    forall j | 0 <= j < |services[i].1| && !services[i].1[j].aux
      ensures MethodWanted(g, t, services[i].1[j], Asked)
    {
      var m := services[i].1[j];
      forall d, faulty | Says(m, d, faulty) ensures Wanted(g, t, d, Asked) {
        assert Names(g, m) && d in g.classes;
        assert Served(services, d);
        assert d in Roots(g, services, extra);
      }
    }
  }

  lemma ExtraAsked(g: Graph, services: seq<(Owner, seq<Method>)>, extra: seq<ClassId>)
    ensures forall i | 0 <= i < |extra| && extra[i] in g.classes :: extra[i] in Roots(g, services, extra)
  {
    hide Served;
  }

  lemma AskedAlike(t: Tables, u: Tables)
    requires Grows(t, u)
    ensures u.asked == t.asked
  {
  }

  lemma RootsDone(g: Graph, u: Tables, services: seq<(Owner, seq<Method>)>, extra: seq<ClassId>)
    requires forall i | 0 <= i < |extra| :: extra[i] in g.classes && Registered(g, u, extra[i])
    requires forall i | 0 <= i < |services| :: AllMethodsClosed(g, u, services[i].1)
    ensures forall c | c in Roots(g, services, extra) :: c in g.classes && Registered(g, u, c)
  {
    forall c | c in Roots(g, services, extra) ensures c in g.classes && Registered(g, u, c) {
      if c !in extra {
        var i, j :| 0 <= i < |services| && 0 <= j < |services[i].1| && !services[i].1[j].aux
          && (Says(services[i].1[j], c, false) || Says(services[i].1[j], c, true));
        assert MethodClosed(g, u, services[i].1[j]);
      }
    }
  }

  /** Every class that was asked for is registered, and all that is registered is closed. */
  ghost predicate Complete(g: Graph, t: Tables) {
    && (forall c | c in t.asked :: c in g.classes && Registered(g, t, c))
    && NewClosed(g, Nothing, t, None)
  }

  lemma CompleteStays(g: Graph, t: Tables, t1: Tables, u: Tables, cs: set<ClassId>)
    requires t1 == t.(asked := t.asked + cs) && Grows(t1, u) && NewClosed(g, t1, u, None)
    requires forall c | c in cs :: c in g.classes && Registered(g, u, c)
    ensures Complete(g, t) ==> Complete(g, u)
  {
    hide BodyClosed, ParentClosed;
    if Complete(g, t) {
      forall k | k in u.classes ensures BodyClosed(g, u, u.classes[k]) && ParentClosed(g, u, u.classes[k]) {
        if k in t.classes {
          ClosedAlike(g, t, t1, t.classes[k]);
          StaysClosed(g, t1, u, t.classes[k]);
        }
      }
    }
  }

  lemma ClosedAlike(g: Graph, t: Tables, t1: Tables, c: ClassId)
    requires t1 == t.(asked := t1.asked)
    ensures BodyClosed(g, t, c) ==> BodyClosed(g, t1, c)
    ensures ParentClosed(g, t, c) ==> ParentClosed(g, t1, c)
  {
    hide Parent;
    if BodyClosed(g, t, c) {
      assert FieldsClosed(g, t1, c);
      assert SubclassesClosed(g, t1, c);
      if g.classes[c].complex {
        forall i | 0 <= i < |g.classes[c].methods| && g.classes[c].methods[i].enabled
          ensures (c, g.classes[c].methods[i]) in t1.members && MethodClosed(g, t1, g.classes[c].methods[i])
        {
          assert MethodClosed(g, t, g.classes[c].methods[i]);
        }
      }
    }
  }

  // ---------- What is registered ----------

  /** The class that holds the name of `c` mentions or lists class `d`. */
  ghost predicate Step(g: Graph, t: Tables, c: ClassId, d: ClassId) {
    && c in g.classes && d in g.classes && Registered(g, t, c)
    && var holder := t.classes[KeyOf(g, c)];
       holder in g.classes && (Mentions(g, t, holder, d) || Derives(g, holder, d))
  }

  ghost predicate IsWalk(g: Graph, t: Tables, walk: seq<ClassId>) {
    && walk != []
    && walk[0] in g.classes
    && forall i | 0 <= i < |walk| - 1 :: Step(g, t, walk[i], walk[i + 1])
  }

  /** Of the class that holds the name of `c`: what it holds is imported into its namespace, what its methods
      serve into the target one. */
  ghost predicate StepMade(g: Graph, t: Tables, c: ClassId, d: ClassId) {
    && c in g.classes && d in g.classes && Registered(g, t, c)
    && var holder := t.classes[KeyOf(g, c)];
       && holder in g.classes
       && (Extends(g, t, holder, d) || Fields(g, holder, d) ==> Imported(g, t, holder, d))
       && (Serves(g, holder, d, false) ==> TargetImports(g, t, d))
  }

  /** A registry filled from nothing holds everything that can be reached from a registered class, going on
      from the class that holds each name, and imports every namespace on the way. */
  lemma {:induction false} ReachableRegistered(g: Graph, t: Tables, walk: seq<ClassId>)
    requires Sound(g, t) && NewClosed(g, Nothing, t, None)
    requires IsWalk(g, t, walk) && Registered(g, t, walk[0])
    ensures forall i | 0 <= i < |walk| :: walk[i] in g.classes && Registered(g, t, walk[i])
    ensures forall i | 0 <= i < |walk| - 1 :: StepMade(g, t, walk[i], walk[i + 1])
    decreases |walk|
  {
    hide Sound, NewClosed, Step, StepMade, Registered;
    var last := |walk| - 1;
    if last > 0 {
      var front := walk[..last];
      forall i | 0 <= i < |front| - 1 ensures Step(g, t, front[i], front[i + 1]) {
        assert Step(g, t, walk[i], walk[i + 1]);
      }
      ReachableRegistered(g, t, front);
      forall i | 0 <= i < last ensures walk[i] in g.classes && Registered(g, t, walk[i]) { assert walk[i] == front[i]; }
      assert Step(g, t, walk[last - 1], walk[last - 1 + 1]);
      StepRegistered(g, t, walk[last - 1], walk[last]);
      forall i | 0 <= i < last ensures StepMade(g, t, walk[i], walk[i + 1]) {
        if i < last - 1 { assert walk[i] == front[i] && walk[i + 1] == front[i + 1]; }
      }
    }
  }

  lemma StepRegistered(g: Graph, t: Tables, c: ClassId, d: ClassId)
    requires Sound(g, t) && NewClosed(g, Nothing, t, None)
    requires Step(g, t, c, d)
    ensures d in g.classes && Registered(g, t, d) && StepMade(g, t, c, d)
  {
    hide FieldsClosed, MethodsClosed, SubclassesClosed, ParentClosed, Extends, Fields, Serves, Derives, Imported,
      TargetImports;
    var holder := t.classes[KeyOf(g, c)];
    assert holder in t.entered && BodyClosed(g, t, holder) && ParentClosed(g, t, holder);
    if Extends(g, t, holder, d) { ExtendedRegistered(g, t, holder, d); }
    if Fields(g, holder, d) { FieldRegistered(g, t, holder, d); }
    if Derives(g, holder, d) { DerivedRegistered(g, t, holder, d); }
    if Serves(g, holder, d, false) { ServedRegistered(g, t, holder, d, false); }
    if Serves(g, holder, d, true) { ServedRegistered(g, t, holder, d, true); }
  }

  lemma FieldRegistered(g: Graph, t: Tables, c: ClassId, d: ClassId)
    requires FieldsClosed(g, t, c) && d in g.classes && Fields(g, c, d)
    ensures Registered(g, t, d) && Imported(g, t, c, d)
  {
  }

  /** A parent that a class depends on is registered, also where the dependency has another reason. */
  lemma ExtendedRegistered(g: Graph, t: Tables, c: ClassId, d: ClassId)
    requires Sound(g, t) && c in t.entered && c in g.classes && FieldsClosed(g, t, c) && ParentClosed(g, t, c)
    requires d in g.classes && Extends(g, t, c, d)
    ensures Registered(g, t, d) && Imported(g, t, c, d)
  {
    hide Serves, Mentions, Parent;
    assert DependsOk(g, t, c, d);
    if g.classes[c].complex && d in g.classes[c].fields {
      FieldRegistered(g, t, c, d);
    } else if t.entered[c].cause.Listed? {
      assert Wanted(g, t, c, t.entered[c].cause) && HoldsName(g, t, d);
    }
  }

  lemma DerivedRegistered(g: Graph, t: Tables, c: ClassId, d: ClassId)
    requires SubclassesClosed(g, t, c) && d in g.classes && Derives(g, c, d)
    ensures Registered(g, t, d)
  {
    var i :| 0 <= i < |g.classes[c].subclasses| && g.classes[c].subclasses[i] == d;
    assert SubclassClosed(g, t, c, g.classes[c].subclasses[i]);
  }

  lemma ServedRegistered(g: Graph, t: Tables, c: ClassId, d: ClassId, faulty: bool)
    requires MethodsClosed(g, t, c) && d in g.classes && Serves(g, c, d, faulty)
    ensures Registered(g, t, d) && (!faulty ==> TargetImports(g, t, d))
  {
    var i :| 0 <= i < |g.classes[c].methods| && Uses(g.classes[c].methods[i], d, faulty);
    assert MethodClosed(g, t, g.classes[c].methods[i]);
  }

  /** Class `c` can be reached from one that was asked for. */
  ghost predicate Reached(g: Graph, t: Tables, c: ClassId) {
    exists walk :: IsWalk(g, t, walk) && walk[0] in t.asked && walk[|walk| - 1] == c
  }

  /** Nothing is entered that cannot be reached. */
  lemma {:induction false} EnteredReached(g: Graph, t: Tables, c: ClassId)
    requires Sound(g, t) && c in t.entered
    ensures Reached(g, t, c)
    decreases t.entered[c].rank
  {
    hide Mentions, Derives, DependsOk, Sound, Step;
    EnteredStep(g, t, c);
    if t.entered[c].cause.Asked? {
      assert IsWalk(g, t, [c]);
    } else {
      var via := t.entered[c].cause.via;
      EnteredReached(g, t, via);
      var walk :| IsWalk(g, t, walk) && walk[0] in t.asked && walk[|walk| - 1] == via;
      WalkOn(g, t, walk, c);
    }
  }

  lemma EnteredStep(g: Graph, t: Tables, c: ClassId)
    requires Sound(g, t) && c in t.entered
    ensures c in g.classes && Ranked(t, c)
    ensures match t.entered[c].cause
            case Asked => c in t.asked
            case Mention(via) => Step(g, t, via, c)
            case Listed(via) => Step(g, t, via, c)
  {
    hide Mentions, Derives, DependsOk, NamesOk, ImportsOk;
    assert HoldsName(g, t, c) && Wanted(g, t, c, t.entered[c].cause) && Ranked(t, c);
    if !t.entered[c].cause.Asked? { assert HoldsName(g, t, t.entered[c].cause.via); }
  }

  lemma WalkOn(g: Graph, t: Tables, walk: seq<ClassId>, d: ClassId)
    requires IsWalk(g, t, walk) && Step(g, t, walk[|walk| - 1], d)
    ensures IsWalk(g, t, walk + [d])
  {
    hide Step;
  }

  /** The registry holds exactly the names of the classes that can be reached from those asked for. */
  lemma RegisteredExactly(g: Graph, t: Tables, c: ClassId)
    requires Sound(g, t) && Complete(g, t) && c in g.classes
    ensures Registered(g, t, c) <==> exists d :: d in g.classes && KeyOf(g, d) == KeyOf(g, c) && Reached(g, t, d)
  {
    hide Complete, Reached, Wanted, DependsOk, Ranked, ImportsOk;
    if Registered(g, t, c) {
      EnteredReached(g, t, t.classes[KeyOf(g, c)]);
    }
    if d :| d in g.classes && KeyOf(g, d) == KeyOf(g, c) && Reached(g, t, d) {
      ReachedRegistered(g, t, d);
    }
  }

  lemma ReachedRegistered(g: Graph, t: Tables, d: ClassId)
    requires Sound(g, t) && Complete(g, t) && Reached(g, t, d)
    ensures d in g.classes && Registered(g, t, d)
  {
    hide Sound, NewClosed, Step;
    var walk :| IsWalk(g, t, walk) && walk[0] in t.asked && walk[|walk| - 1] == d;
    ReachableRegistered(g, t, walk);
  }

  // ---------- What closedness says about the tables ----------

  /** Class `p` is an ancestor with a name, and those before it have none. */
  ghost predicate NearestNamed(g: Graph, c: ClassId, p: ClassId)
    requires c in g.classes
  {
    exists i | 0 <= i < |g.classes[c].ancestors| :: NamedAt(g, c, i) && g.classes[c].ancestors[i] == p
  }

  /** Ancestor `i` is the first that has a name. */
  predicate NamedAt(g: Graph, c: ClassId, i: nat)
    requires c in g.classes && i < |g.classes[c].ancestors|
  {
    && !Unnamed(g, g.classes[c].ancestors[i])
    && forall j | 0 <= j < i :: Unnamed(g, g.classes[c].ancestors[j])
  }

  predicate Unnamed(g: Graph, c: ClassId) {
    c in g.classes ==> g.classes[c].typeName == None
  }

  /** The parent is the nearest ancestor that has a name; there is none exactly when no ancestor has one. */
  lemma ParentIsNearest(g: Graph, c: ClassId)
    requires GraphOk(g) && c in g.classes
    ensures Parent(g, c) == None <==> forall i | 0 <= i < |g.classes[c].ancestors| :: Unnamed(g, g.classes[c].ancestors[i])
    ensures forall p :: Parent(g, c) == Some(p) ==> p in g.classes && g.classes[p].typeName.Some? && NearestNamed(g, c, p)
    ensures forall i | 0 <= i < |g.classes[c].ancestors| ::
      NamedAt(g, c, i) ==> Parent(g, c) == Some(g.classes[c].ancestors[i])
  {
    var chain := g.classes[c].ancestors;
    FirstIsNearest(g, chain);
    if Parent(g, c).Some? {
      var i :| 0 <= i < |chain| && chain[i] == Parent(g, c).value && !Unnamed(g, chain[i])
        && forall j | 0 <= j < i :: Unnamed(g, chain[j]);
      assert NamedAt(g, c, i);
    }
    forall i | 0 <= i < |chain| && NamedAt(g, c, i) ensures Parent(g, c) == Some(chain[i]) { FirstIsAt(g, chain, i); }
  }

  lemma {:induction false} FirstIsNearest(g: Graph, chain: seq<ClassId>)
    ensures FirstNamed(g, chain) == None ==> forall i | 0 <= i < |chain| :: Unnamed(g, chain[i])
    ensures FirstNamed(g, chain).Some? ==>
      exists i :: 0 <= i < |chain| && chain[i] == FirstNamed(g, chain).value && !Unnamed(g, chain[i])
        && forall j | 0 <= j < i :: Unnamed(g, chain[j])
  {
    if chain != [] && Unnamed(g, chain[0]) {
      FirstIsNearest(g, chain[1..]);
      if FirstNamed(g, chain).Some? {
        var i :| 0 <= i < |chain[1..]| && chain[1..][i] == FirstNamed(g, chain[1..]).value && !Unnamed(g, chain[1..][i])
          && forall j | 0 <= j < i :: Unnamed(g, chain[1..][j]);
        assert chain[i + 1] == chain[1..][i];
        forall j | 0 <= j < i + 1 ensures Unnamed(g, chain[j]) {
          if j > 0 { assert chain[j] == chain[1..][j - 1]; }
        }
      }
    } else if chain != [] {
      assert chain[0] == FirstNamed(g, chain).value;
    }
  }

  lemma {:induction false} FirstIsAt(g: Graph, chain: seq<ClassId>, i: nat)
    requires i < |chain| && !Unnamed(g, chain[i]) && forall j | 0 <= j < i :: Unnamed(g, chain[j])
    ensures FirstNamed(g, chain) == Some(chain[i])
  {
    if i > 0 { FirstIsAt(g, chain[1..], i - 1); }
  }

  /** The name of a class is in the table. */
  predicate NameThere(g: Graph, t: Tables, c: ClassId) {
    c in g.classes && Qualified(g.classes[c].ns, g.classes[c].typeName) in t.classes
  }

  /** A namespace knows another one: it is the same, or imported, or a base namespace that is left out. */
  predicate Knows(g: Graph, t: Tables, ns: string, other: string) {
    || ns == other
    || (other in g.baseNamespaces && !g.importBase)
    || (ns in t.imports && other in t.imports[ns])
  }

  /** Of a class that is entered and closed: unless it came in as a subclass, the nearest ancestor with a name
      is in the table, a dependency, and its namespace known; otherwise the class that lists it is one. */
  lemma ParentSpelled(g: Graph, t: Tables, c: ClassId)
    requires GraphOk(g) && c in g.classes && ParentClosed(g, t, c)
    ensures c in t.entered && c in t.deps
    ensures match t.entered[c].cause
            case Listed(via) => via in t.deps[c]
            case _ =>
              forall i | 0 <= i < |g.classes[c].ancestors| && NamedAt(g, c, i) ::
                var p := g.classes[c].ancestors[i];
                && NameThere(g, t, p) && p in t.deps[c]
                && (p in g.classes ==> Knows(g, t, g.classes[c].ns, g.classes[p].ns))
  {
    hide GraphOk, Parent;
    ParentIsNearest(g, c);
  }

  /** Its field types, and the types inside them, are in the table, and their namespaces known. */
  lemma FieldsSpelled(g: Graph, t: Tables, c: ClassId, v: ClassId)
    requires GraphOk(g) && c in g.classes && g.classes[c].complex && FieldsClosed(g, t, c) && v in g.classes[c].fields
    ensures v in g.classes && c in t.deps && v in t.deps[c]
    ensures NameThere(g, t, v) && Knows(g, t, g.classes[c].ns, g.classes[v].ns)
    ensures g.classes[v].inner.Some? ==>
      var inner := g.classes[v].inner.value;
      NameThere(g, t, inner) && (inner in g.classes ==> Knows(g, t, g.classes[c].ns, g.classes[inner].ns))
  {
    var i :| 0 <= i < |g.classes[c].fields| && g.classes[c].fields[i] == v;
    assert FieldClosed(g, t, c, g.classes[c].fields[i]);
  }

  /** What an enabled method mentions is in the table, unless it is auxiliary; the target namespace knows the
      namespaces of its headers and messages. */
  lemma MethodSpelled(g: Graph, t: Tables, m: Method, d: ClassId)
    requires MethodClosed(g, t, m) && d in g.classes
    ensures !m.aux && (d in m.headers || d in m.faults || d == m.inMessage || d == m.outMessage) ==> NameThere(g, t, d)
    ensures d in m.headers || d == m.inMessage || d == m.outMessage ==> Knows(g, t, g.tns, g.classes[d].ns)
  {
    hide Names;
    if d in m.headers {
      var i :| 0 <= i < |m.headers| && m.headers[i] == d;
      assert TargetImports(g, t, m.headers[i]);
    }
  }

  lemma MethodsSpelled(g: Graph, t: Tables, c: ClassId, m: Method)
    requires c in g.classes && g.classes[c].complex && MethodsClosed(g, t, c) && m in g.classes[c].methods && m.enabled
    ensures (c, m) in t.members && MethodClosed(g, t, m)
  {
    hide MethodClosed;
    var i :| 0 <= i < |g.classes[c].methods| && g.classes[c].methods[i] == m;
  }

  /** Its subclasses in the same namespace are in the table. */
  lemma SubclassesSpelled(g: Graph, t: Tables, c: ClassId, d: ClassId)
    requires GraphOk(g) && c in g.classes && g.classes[c].complex && SubclassesClosed(g, t, c)
    requires d in g.classes[c].subclasses && d in g.classes && g.classes[d].ns == g.classes[c].ns
    ensures NameThere(g, t, d)
  {
    var i :| 0 <= i < |g.classes[c].subclasses| && g.classes[c].subclasses[i] == d;
    assert SubclassClosed(g, t, c, g.classes[c].subclasses[i]);
  }

  /** A base namespace is imported only where that is allowed, and no namespace imports itself. */
  lemma ImportsSpelled(g: Graph, t: Tables, ns: string, other: string)
    requires Sound(g, t) && ns in t.imports && other in t.imports[ns]
    ensures other != ns && (other in g.baseNamespaces ==> g.importBase)
  {
    hide NamesOk, Traced;
  }

  /** A name denotes a class of that namespace and type name. */
  lemma NameDenotes(g: Graph, t: Tables, ns: string, name: string)
    requires Sound(g, t)
    ensures Qualified(ns, Some(name)) in t.classes ==>
      var c := t.classes[Qualified(ns, Some(name))];
      c in g.classes && g.classes[c].ns == ns && g.classes[c].typeName == Some(name)
    ensures Plain(name) in t.classes <==> Qualified(g.tns, Some(name)) in t.classes
    ensures Plain(name) in t.classes ==> t.classes[Plain(name)] == t.classes[Qualified(g.tns, Some(name))]
  {
    hide ImportsOk, Traced;
  }

  // ---------- Parents that are left behind ----------

  /** Class `via` has not the name of the nearest named parent of `c`, and no field type of `c` has it. */
  predicate Apart(g: Graph, via: ClassId, c: ClassId)
    requires via in g.classes && c in g.classes
  {
    && Parent(g, c).Some? && Parent(g, c).value in g.classes
    && KeyOf(g, via) != KeyOf(g, Parent(g, c).value)
    && (g.classes[c].complex ==>
          forall i | 0 <= i < |g.classes[c].fields| && g.classes[c].fields[i] in g.classes ::
            KeyOf(g, g.classes[c].fields[i]) != KeyOf(g, Parent(g, c).value))
  }

  /** The nearest named parent of a class is registered under its name, imported, and a dependency. */
  ghost predicate ParentHeld(g: Graph, t: Tables, c: ClassId) {
    && c in g.classes
    && match Parent(g, c)
       case None => true
       case Some(p) =>
         && p in g.classes && Registered(g, t, p) && Imported(g, t, c, p)
         && c in t.deps && exists d :: d in t.deps[c] && d in g.classes && KeyOf(g, d) == KeyOf(g, p)
  }

  /** Class `c` came in as a subclass of one that is not its parent, as with a customised class of another
      type name: it shares the list of subclasses with its original. */
  predicate Astray(g: Graph, t: Tables, c: ClassId) {
    && c in g.classes && c in t.entered
    && t.entered[c].cause.Listed? && t.entered[c].cause.via in g.classes && Apart(g, t.entered[c].cause.via, c)
  }

  lemma ParentKnown(g: Graph, c: ClassId)
    requires GraphOk(g) && c in g.classes
    ensures Parent(g, c).Some? ==> Parent(g, c).value in g.classes
  {
    FirstKnown(g, g.classes[c].ancestors);
  }

  lemma {:induction false} FirstKnown(g: Graph, chain: seq<ClassId>)
    ensures FirstNamed(g, chain).Some? ==> FirstNamed(g, chain).value in g.classes
  {
    if chain != [] { FirstKnown(g, chain[1..]); }
  }

  /** A closed class has its parent registered, imported and among its dependencies exactly when it did not
      come in as the subclass of another class than its parent. */
  lemma ParentHeldExactly(g: Graph, t: Tables, c: ClassId)
    requires GraphOk(g) && Sound(g, t) && c in t.entered && FieldsClosed(g, t, c) && ParentClosed(g, t, c)
    ensures ParentHeld(g, t, c) <==> !Astray(g, t, c)
  {
    hide GraphOk, Parent, Mentions;
    ParentKnown(g, c);
    if Parent(g, c).Some? {
      var p := Parent(g, c).value;
      if Astray(g, t, c) { AstrayLacks(g, t, c, p); } else { OthersHold(g, t, c, p); }
    }
  }

  lemma AstrayLacks(g: Graph, t: Tables, c: ClassId, p: ClassId)
    requires Sound(g, t) && Astray(g, t, c) && Parent(g, c) == Some(p)
    ensures !ParentHeld(g, t, c)
  {
    hide Parent, Mentions, Wanted, Ranked;
    forall d | c in t.deps && d in t.deps[c] && d in g.classes ensures KeyOf(g, d) != KeyOf(g, p) {
      assert DependsOk(g, t, c, d);
    }
  }

  lemma OthersHold(g: Graph, t: Tables, c: ClassId, p: ClassId)
    requires Sound(g, t) && c in t.entered && FieldsClosed(g, t, c) && ParentClosed(g, t, c)
    requires Parent(g, c) == Some(p) && p in g.classes && !Astray(g, t, c)
    ensures ParentHeld(g, t, c)
  {
    hide Parent, Mentions, Ranked;
    if t.entered[c].cause.Listed? {
      var via := t.entered[c].cause.via;
      assert Wanted(g, t, c, t.entered[c].cause) && HoldsName(g, t, via);
      if KeyOf(g, via) != KeyOf(g, p) {
        var i :| 0 <= i < |g.classes[c].fields| && g.classes[c].fields[i] in g.classes
          && KeyOf(g, g.classes[c].fields[i]) == KeyOf(g, p);
        assert FieldClosed(g, t, c, g.classes[c].fields[i]);
      }
    }
  }

  /** Where every class that lists another in its namespace has the name of its parent, or the other a field
      of that name, no parent is left behind. */
  lemma ParentsHeld(g: Graph, t: Tables, c: ClassId)
    requires GraphOk(g) && Sound(g, t) && NewClosed(g, Nothing, t, None) && c in t.entered
    requires forall via, d | via in g.classes && d in g.classes && Derives(g, via, d) :: !Apart(g, via, d)
    ensures ParentHeld(g, t, c)
  {
    hide GraphOk, Parent, Mentions, Apart, Derives, FieldsClosed, ParentClosed, MethodsClosed, SubclassesClosed;
    assert HoldsName(g, t, c) && Wanted(g, t, c, t.entered[c].cause);
    assert t.classes[KeyOf(g, c)] == c && BodyClosed(g, t, c) && ParentClosed(g, t, c);
    ParentHeldExactly(g, t, c);
  }

  /** Class `a` is mentioned by `b` alone, as its parent, and `b` by nobody except as a subclass; no other class
      has their names. */
  ghost predicate Secluded(g: Graph, a: ClassId, b: ClassId) {
    && a in g.classes && b in g.classes
    && forall c | c in g.classes :: Ignores(g, c, a) && Ignores(g, c, b) && !Derives(g, c, a) && Parent(g, c) != Some(b)
         && (Parent(g, c) == Some(a) ==> c == b)
  }

  /** Class `c` neither holds nor serves `d`, and does not share its name. */
  ghost predicate Ignores(g: Graph, c: ClassId, d: ClassId)
    requires c in g.classes && d in g.classes
  {
    && !Fields(g, c, d) && !Serves(g, c, d, false) && !Serves(g, c, d, true)
    && (KeyOf(g, c) == KeyOf(g, d) ==> c == d)
  }

  lemma SecludedMentions(g: Graph, t: Tables, a: ClassId, b: ClassId, c: ClassId)
    requires Secluded(g, a, b) && c in g.classes
    ensures !Mentions(g, t, c, b) && !Derives(g, c, a)
    ensures Mentions(g, t, c, a) ==> c == b && b in t.deps && a in t.deps[b]
    ensures (KeyOf(g, c) == KeyOf(g, a) ==> c == a) && (KeyOf(g, c) == KeyOf(g, b) ==> c == b)
  {
    hide Fields, Serves, Derives, Parent, KeyOf;
    assert Ignores(g, c, a) && Ignores(g, c, b);
  }

  /** When only class `r` was asked for, which lists `b`, the parent `a` of `b` is not registered. */
  lemma ParentLeftBehind(g: Graph, t: Tables, a: ClassId, b: ClassId, r: ClassId)
    requires Sound(g, t) && Complete(g, t)
    requires a in g.classes && b in g.classes && Secluded(g, a, b)
    requires t.asked == {r} && r in g.classes && r != a && r != b && a != b
    requires HoldsName(g, t, r) && Derives(g, r, b) && Parent(g, b) == Some(a)
    ensures Registered(g, t, b) && !Registered(g, t, a) && !ParentHeld(g, t, b)
  {
    hide Secluded, Mentions, Parent, Derives, FieldsClosed, MethodsClosed, SubclassesClosed, ParentClosed, ParentHeld,
      NewClosed, Traced, ImportsOk, Imported;
    HolderClosed(g, t, r);
    DerivedRegistered(g, t, r, b);
    SecludedMentions(g, t, a, b, t.classes[KeyOf(g, b)]);
    assert b in t.entered by { HolderEntered(g, t, b); }
    Listing(g, t, a, b, r);
    if Registered(g, t, a) {
      SecludedMentions(g, t, a, b, t.classes[KeyOf(g, a)]);
      HolderEntered(g, t, a);
      NotBefore(g, t, a, b);
    }
    NotHeld(g, t, a, b);
  }

  lemma HolderClosed(g: Graph, t: Tables, c: ClassId)
    requires NewClosed(g, Nothing, t, None) && HoldsName(g, t, c)
    ensures BodyClosed(g, t, c) && ParentClosed(g, t, c)
  {
    hide BodyClosed, ParentClosed;
  }

  lemma HolderEntered(g: Graph, t: Tables, c: ClassId)
    requires Sound(g, t) && HoldsName(g, t, c)
    ensures c in t.entered
  {
    hide NamesOk, ImportsOk, Wanted, DependsOk, Ranked;
  }

  /** The parent could only come in through the subclass, which came in before it, listed by another class. */
  lemma NotBefore(g: Graph, t: Tables, a: ClassId, b: ClassId)
    requires Traced(g, t) && a in g.classes && b in g.classes && Secluded(g, a, b) && a !in t.asked
    requires b in t.entered && t.entered[b].cause.Listed?
    ensures a !in t.entered
  {
    hide Secluded, Mentions, Derives, HoldsName, DependsOk;
    if a in t.entered {
      assert Wanted(g, t, a, t.entered[a].cause) && Ranked(t, a) && Ranked(t, b);
      SecludedMentions(g, t, a, b, t.entered[a].cause.via) by {
        assert HoldsName(g, t, t.entered[a].cause.via);
      }
      if t.entered[a].cause.Mention? { OnLister(g, t, a, b); }
    }
  }

  lemma Listing(g: Graph, t: Tables, a: ClassId, b: ClassId, r: ClassId)
    requires Traced(g, t) && Secluded(g, a, b) && t.asked == {r} && r != b && b in t.entered
    ensures t.entered[b].cause.Listed?
  {
    hide Secluded, Mentions, Derives, HoldsName, Ranked, DependsOk;
    assert Wanted(g, t, b, t.entered[b].cause);
    if t.entered[b].cause.Mention? { SecludedMentions(g, t, a, b, t.entered[b].cause.via); }
  }

  lemma OnLister(g: Graph, t: Tables, a: ClassId, b: ClassId)
    requires Traced(g, t) && Secluded(g, a, b) && b in t.entered && t.entered[b].cause.Listed?
    requires b in t.deps && a in t.deps[b]
    ensures a == t.entered[b].cause.via
  {
    hide Wanted, HoldsName, Ranked;
    assert DependsOk(g, t, b, a);
    FieldNotSecluded(g, t, a, b);
  }

  lemma NotHeld(g: Graph, t: Tables, a: ClassId, b: ClassId)
    requires a in g.classes && b in g.classes && Parent(g, b) == Some(a) && !Registered(g, t, a)
    ensures !ParentHeld(g, t, b)
  {
  }

  lemma FieldNotSecluded(g: Graph, t: Tables, a: ClassId, b: ClassId)
    requires Secluded(g, a, b)
    ensures g.classes[b].complex ==> a !in g.classes[b].fields
  {
    assert Ignores(g, b, a);
  }

  /** Class 1 derives from class 0; class 2 is class 0 customised with another type name, and shares its list
      of subclasses. */
  function Renamed(): (g: Graph)
    ensures GraphOk(g)
  {
    Graph(map[
      0 := ClassInfo("n", Some("A"), true, None, [], [], None, [1], []),
      1 := ClassInfo("n", Some("B"), true, None, [0], [], None, [], []),
      2 := ClassInfo("n", Some("C"), true, Some(0), [], [], None, [1], [])], 3, 4, "n", false, {})
  }

  lemma RenamedFacts()
    ensures Secluded(Renamed(), 0, 1) && Derives(Renamed(), 2, 1) && Parent(Renamed(), 1) == Some(0)
    ensures forall c | c in Renamed().classes && KeyOf(Renamed(), c) == KeyOf(Renamed(), 2) :: c == 2
  {
    hide Serves, Fields, Renamed, Parent;
    var g := Renamed();
    RenamedShape();
    forall c, d | c in g.classes && d in g.classes && (c == d || KeyOf(g, c) != KeyOf(g, d)) ensures Ignores(g, c, d) {
      HoldsNothing(g, c, d);
    }
  }

  lemma RenamedShape()
    ensures
      var g := Renamed();
      && g.classes.Keys == {0, 1, 2}
      && (forall c | c in g.classes :: g.classes[c].fields == [] && g.classes[c].methods == [])
      && g.classes[1].subclasses == [] && 0 !in g.classes[0].subclasses
      && g.classes[2].subclasses == [1] && g.classes[2].complex
      && (forall c | c in g.classes :: g.classes[c].ns == g.tns && g.classes[c].typeName.Some?)
      && KeyOf(g, 0) != KeyOf(g, 1) && KeyOf(g, 1) != KeyOf(g, 2) && KeyOf(g, 0) != KeyOf(g, 2)
      && Parent(g, 0) == None && Parent(g, 1) == Some(0) && Parent(g, 2) == None
  {
    assert FirstNamed(Renamed(), [0]) == Some(0) && FirstNamed(Renamed(), []) == None;
  }

  lemma HoldsNothing(g: Graph, c: ClassId, d: ClassId)
    requires c in g.classes && d in g.classes && g.classes[c].fields == [] && g.classes[c].methods == []
    ensures !Fields(g, c, d) && !Serves(g, c, d, false) && !Serves(g, c, d, true)
  {
  }

  /** Asking for class 2 enters it. */
  lemma RenamedFirst() returns (t: Tables)
    ensures Sound(Renamed(), t) && t.asked == {2} && EnteredFor(Renamed(), t, 2, Asked)
    ensures !Registered(Renamed(), t, 1) && Renamed().tns in t.imports
    ensures forall k | k in t.classes :: t.classes[k] == 2
  {
    hide Renamed, Sound, Grows, FreeKeys, Derives, KeyOf, Parent, Mentions, Secluded, NamesOk, ImportsOk, Traced,
      Complete;
    var g := Renamed();
    RenamedShape();
    EmptySound(g);
    var t0 := Nothing.(imports := map[g.tns := {}]);
    AskTraced(g, t0, {2});
    var t1 := t0.(asked := t0.asked + {2});
    assert t1.asked == {2} && !Registered(g, t1, 2);
    ClassStep(g, t1, 2, Asked);
    t := WithClass(g, t1, 2, Asked);
    NotYet(g, t, 1, 2);
  }

  lemma NotYet(g: Graph, t: Tables, c: ClassId, d: ClassId)
    requires Sound(g, t) && c in g.classes && d in g.classes && KeyOf(g, c) != KeyOf(g, d)
    requires forall k | k in t.classes :: t.classes[k] == d
    ensures !Registered(g, t, c)
  {
  }

  /** And then class 1, as its subclass: these are all the tables that the run fills. */
  lemma RenamedRun() returns (t: Tables)
    ensures Sound(Renamed(), t) && Complete(Renamed(), t) && t.asked == {2}
  {
    hide Renamed, Sound, BodyClosed, ParentClosed, Grows, FreeKeys, Derives, KeyOf, Parent, Mentions, Secluded;
    var g := Renamed();
    RenamedShape();
    RenamedFacts();
    var t2 := RenamedFirst();
    ListedWanted(g, t2, 1, 2);
    ClassStep(g, t2, 1, Listed(2));
    var t3 := WithClass(g, t2, 1, Listed(2));
    EnteredStays(g, t2, t3, 2, Asked);
    SubclassDepends(g, t3, 2, 1);
    DepStep(g, t3, 1, 2);
    t := WithDep(t3, 1, Some(2));
    EnteredStays(g, t3, t, 1, Listed(2));
    EnteredStays(g, t3, t, 2, Asked);
    RenamedClosed(t);
  }

  lemma RenamedClosed(t: Tables)
    requires Sound(Renamed(), t) && EnteredFor(Renamed(), t, 1, Listed(2)) && EnteredFor(Renamed(), t, 2, Asked)
    requires 2 in t.deps[1]
    ensures forall c | c in {1, 2} :: BodyClosed(Renamed(), t, c) && ParentClosed(Renamed(), t, c)
  {
    hide Renamed, Parent, NamesOk, ImportsOk, Wanted, Ranked, DependsOk, KeyOf;
    var g := Renamed();
    RenamedShape();
    assert forall c, d | c in {1, 2} && d in g.classes[c].subclasses :: d == 1;
  }

  /** Asked for class 2 alone, the registry gets class 1 and not its parent. */
  lemma RenamedLeavesParent(t: Tables)
    requires Sound(Renamed(), t) && Complete(Renamed(), t)
    requires t.asked == {2}
    ensures 0 in Renamed().classes && 1 in Renamed().classes
    ensures Registered(Renamed(), t, 1) && !Registered(Renamed(), t, 0) && !ParentHeld(Renamed(), t, 1)
  {
    hide NewClosed, Secluded, Derives, Parent, Traced;
    RenamedFacts();
    assert Registered(Renamed(), t, 2) && t.classes[KeyOf(Renamed(), 2)] == 2;
    ParentLeftBehind(Renamed(), t, 0, 1, 2);
  }

  // ---------- Dispatch lists ----------

  /** Where a method is defined: in a service, or in a model class. */
  datatype Owner = Service(name: string) | Model(cls: ClassId)

  /** A second method of the same key is harmless when it belongs to the same class, customised or not,
      or when the first one belongs to a service. */
  predicate MayShare(g: Graph, first: Option<ClassId>, s: Owner) {
    match (first, s)
    case (None, _) => true
    case (Some(_), Service(_)) => false
    case (Some(c), Model(d)) => c == d || (c in g.classes && d in g.classes && OrigOf(g, c) == OrigOf(g, d))
  }

  function BeforeDot(s: string): string {
    if s == "" || s[0] == '.' then "" else [s[0]] + BeforeDot(s[1..])
  }

  /** The message name of a method; a member method is prefixed with its class. */
  function MethodKey(g: Graph, s: Owner, name: string): string {
    var prefix := "{" + g.tns + "}";
    match s
    case Model(c) =>
      if c in g.classes && g.classes[c].typeName.Some? && g.classes[c].typeName.value != BeforeDot(name)
      then prefix + g.classes[c].typeName.value + "." + name
      else prefix + name
    case Service(_) => prefix + name
  }

  /** Method name `s` is `p`, or goes on after it with a dot; there is no dot before. */
  predicate BeginsWith(s: string, p: string) {
    '.' !in p && |p| <= |s| && s[..|p|] == p && (|p| < |s| ==> s[|p|] == '.')
  }

  lemma {:induction false} BeforeDotExactly(s: string, p: string)
    ensures BeforeDot(s) == p <==> BeginsWith(s, p)
  {
    if s != "" && s[0] != '.' && p != "" {
      BeforeDotExactly(s[1..], p[1..]);
      assert p == [p[0]] + p[1..];
      if BeforeDot(s) == p { assert s[..|p|] == [s[0]] + s[1..][..|p| - 1]; }
      if BeginsWith(s, p) {
        assert s[1..][..|p| - 1] == s[..|p|][1..] && s[0] == s[..|p|][0];
      }
    }
  }

  /** The message name of a service method is its own name in the target namespace; that of a member method has
      the type name of its class in front, unless the name begins with it already. */
  lemma MethodKeySpelled(g: Graph, s: Owner, name: string, typeName: string)
    ensures s.Service? ==> MethodKey(g, s, name) == "{" + g.tns + "}" + name
    ensures s.Model? && s.cls in g.classes && g.classes[s.cls].typeName == Some(typeName) ==>
      MethodKey(g, s, name) ==
        if BeginsWith(name, typeName) then "{" + g.tns + "}" + name else "{" + g.tns + "}" + typeName + "." + name
  {
    BeforeDotExactly(name, typeName);
  }

  /** A key is shared without a conflict by one class, by two variants of a class, by a class and a variant of
      it, and where the first method is one of a service. */
  lemma MayShareExactly(g: Graph, c: ClassId, d: ClassId)
    requires c in g.classes && d in g.classes
    ensures forall s :: MayShare(g, None, s)
    ensures forall name :: !MayShare(g, Some(c), Service(name))
    ensures MayShare(g, Some(c), Model(d)) <==> c == d || SameOrigin(g, c, d)
  {
    SameOriginExactly(g, c, d);
  }

  /** Two variants of a class, or a class and a variant of it. */
  predicate SameOrigin(g: Graph, c: ClassId, d: ClassId)
    requires c in g.classes && d in g.classes
  {
    match (g.classes[c].orig, g.classes[d].orig)
    case (None, None) => c == d
    case (Some(o), None) => o == d
    case (None, Some(o)) => o == c
    case (Some(o), Some(p)) => o == p
  }

  lemma SameOriginExactly(g: Graph, c: ClassId, d: ClassId)
    requires c in g.classes && d in g.classes
    ensures OrigOf(g, c) == OrigOf(g, d) <==> SameOrigin(g, c, d)
    ensures g.classes[c].orig == None ==> OrigOf(g, c) == c
  {
  }

  /** At most one primary method, and that one first. */
  predicate DispatchOk(methods: seq<Method>) {
    methods != [] && forall i | 1 <= i < |methods| :: methods[i].aux
  }

  /** `process_method` on the list of a message name: append, or refuse. */
  function Dispatch(methods: seq<Method>, m: Method): Result<seq<Method>, Error> {
    if methods == [] || m.aux then Ok(methods + [m])
    else if methods[0].aux then Err(BadInsert)
    else Err(DuplicateMethod)
  }

  /** The list after the methods of `ms` were offered in turn; refused ones leave it as it is. */
  function DispatchAll(ms: seq<Method>): seq<Method> {
    if ms == [] then []
    else
      var before := DispatchAll(ms[..|ms| - 1]);
      match Dispatch(before, ms[|ms| - 1])
      case Ok(after) => after
      case Err(_) => before
  }

  function AuxOnly(ms: seq<Method>): seq<Method> {
    if ms == [] then []
    else AuxOnly(ms[..|ms| - 1]) + if ms[|ms| - 1].aux then [ms[|ms| - 1]] else []
  }

  /** In every order of registration the list is the first method, whatever it is, and then the
      auxiliary ones in the order they came. */
  lemma {:induction false} DispatchOrder(ms: seq<Method>)
    requires ms != []
    ensures DispatchOk(DispatchAll(ms))
    ensures DispatchAll(ms) == [ms[0]] + AuxOnly(ms[1..])
  {
    var last := |ms| - 1;
    if last == 0 {
      assert ms[..0] == [] && ms[1..] == [] && DispatchAll(ms[..0]) == [];
      assert DispatchAll(ms) == [] + [ms[0]];
    } else {
      DispatchOrder(ms[..last]);
      assert ms[..last][1..] == ms[1..][..last - 1] && ms[..last][0] == ms[0];
      assert ms[1..][last - 1] == ms[last];
    }
  }

  /** The contexts of a request begin with the primary method exactly when the method registered first
      is primary; a primary method registered after an auxiliary one is refused. */
  lemma {:induction false} PrimaryFirst(ms: seq<Method>)
    requires ms != []
    ensures !DispatchAll(ms)[0].aux <==> !ms[0].aux
    ensures (exists i :: 0 <= i < |DispatchAll(ms)| && !DispatchAll(ms)[i].aux) <==> !DispatchAll(ms)[0].aux
    ensures ms[0].aux ==> forall m: Method | !m.aux :: Dispatch(DispatchAll(ms), m) == Err(BadInsert)
  {
    DispatchOrder(ms);
  }

  lemma DispatchSnoc(ms: seq<Method>, m: Method)
    ensures DispatchAll(ms + [m]) ==
      match Dispatch(DispatchAll(ms), m) case Ok(after) => after case Err(_) => DispatchAll(ms)
  {
    assert (ms + [m])[..|ms|] == ms;
  }

  // ---------- The history of registration ----------

  /** A method that was offered under a message name. */
  datatype Route = Route(name: string, m: Method)

  function Under(routes: seq<Route>, name: string): seq<Method> {
    if routes == [] then []
    else
      Under(routes[..|routes| - 1], name)
      + if routes[|routes| - 1].name == name then [routes[|routes| - 1].m] else []
  }

  lemma UnderSnoc(routes: seq<Route>, r: Route, name: string)
    ensures Under(routes + [r], name) == if r.name == name then Under(routes, name) + [r.m] else Under(routes, name)
  {
    assert (routes + [r])[..|routes|] == routes;
  }

  /** The dispatch lists are what the methods offered under each name make of them, in that order. */
  ghost predicate Routed(lists: map<string, seq<Method>>, routes: seq<Route>) {
    forall name: string ::
      && (name in lists <==> Under(routes, name) != [])
      && (name in lists ==> lists[name] == DispatchAll(Under(routes, name)))
  }

  lemma RouteStep(lists: map<string, seq<Method>>, routes: seq<Route>, name: string, m: Method)
    requires Routed(lists, routes)
    ensures
      var before := if name in lists then lists[name] else [];
      var more := routes + [Route(name, m)];
      match Dispatch(before, m)
      case Ok(after) => Routed(lists[name := after], more)
      case Err(_) => Routed(lists, more)
  {
    hide Under, Dispatch, DispatchAll;
    NothingDispatched();
    forall q: string { UnderSnoc(routes, Route(name, m), q); }
    DispatchSnoc(Under(routes, name), m);
    assert name !in lists ==> Under(routes, name) == [];
    EmptyAccepts(m);
  }

  lemma EmptyAccepts(m: Method)
    ensures Dispatch([], m).Ok?
  {
  }

  lemma NothingDispatched()
    ensures DispatchAll([]) == []
  {
  }

  /** No method was refused. */
  ghost predicate AllAccepted(lists: map<string, seq<Method>>, routes: seq<Route>) {
    forall name | name in lists :: lists[name] == Under(routes, name)
  }

  lemma AcceptedStep(lists: map<string, seq<Method>>, routes: seq<Route>, name: string, m: Method)
    requires Routed(lists, routes) && AllAccepted(lists, routes)
    requires Dispatch(if name in lists then lists[name] else [], m).Ok?
    ensures
      var before := if name in lists then lists[name] else [];
      AllAccepted(lists[name := Dispatch(before, m).value], routes + [Route(name, m)])
  {
    hide Under, DispatchAll;
    forall q: string { UnderSnoc(routes, Route(name, m), q); }
    assert name !in lists ==> Under(routes, name) == [];
  }

  // ---------- What is offered ----------

  function OfferKeys(offers: seq<(Owner, Method)>): set<string> {
    if offers == [] then {} else OfferKeys(offers[..|offers| - 1]) + {offers[|offers| - 1].1.key}
  }

  /** Of the methods offered, those whose key is not taken, under their message names. */
  function Fresh(g: Graph, taken: set<string>, offers: seq<(Owner, Method)>): seq<Route> {
    if offers == [] then []
    else
      var front, last := offers[..|offers| - 1], offers[|offers| - 1];
      Fresh(g, taken, front)
      + if last.1.key in taken + OfferKeys(front) then [] else [Route(MethodKey(g, last.0, last.1.name), last.1)]
  }

  lemma FreshSnoc(g: Graph, taken: set<string>, offers: seq<(Owner, Method)>, s: Owner, m: Method)
    ensures OfferKeys(offers + [(s, m)]) == OfferKeys(offers) + {m.key}
    ensures Fresh(g, taken, offers + [(s, m)]) ==
      Fresh(g, taken, offers) + if m.key in taken + OfferKeys(offers) then [] else [Route(MethodKey(g, s, m.name), m)]
  {
    assert (offers + [(s, m)])[..|offers|] == offers;
  }

  function OwnOffers(s: Owner, ms: seq<Method>): seq<(Owner, Method)> {
    if ms == [] then [] else OwnOffers(s, ms[..|ms| - 1]) + [(s, ms[|ms| - 1])]
  }

  function ServiceOffers(services: seq<(Owner, seq<Method>)>): seq<(Owner, Method)> {
    if services == [] then []
    else
      ServiceOffers(services[..|services| - 1])
      + OwnOffers(services[|services| - 1].0, services[|services| - 1].1)
  }

  /** Member methods belong to the original of their class. */
  function MemberOffers(g: Graph, members: seq<(ClassId, Method)>): seq<(Owner, Method)> {
    if members == [] then []
    else
      var (c, m) := members[|members| - 1];
      MemberOffers(g, members[..|members| - 1]) + [(MemberOwner(g, c), m)]
  }

  /** The methods of a service are offered for the service, in order. */
  lemma {:induction false} OwnOffersSpelled(s: Owner, ms: seq<Method>)
    ensures |OwnOffers(s, ms)| == |ms| && forall i | 0 <= i < |ms| :: OwnOffers(s, ms)[i] == (s, ms[i])
  {
    if ms != [] { OwnOffersSpelled(s, ms[..|ms| - 1]); }
  }

  /** The services are offered in order. */
  lemma {:induction false} ServiceOffersJoin(a: seq<(Owner, seq<Method>)>, b: seq<(Owner, seq<Method>)>)
    ensures ServiceOffers(a + b) == ServiceOffers(a) + ServiceOffers(b)
  {
    if b == [] {
      assert a + b == a;
    } else {
      ServiceOffersJoin(a, b[..|b| - 1]);
      assert (a + b)[..|a + b| - 1] == a + b[..|b| - 1];
    }
  }

  lemma ServiceOffersOne(s: Owner, ms: seq<Method>)
    ensures ServiceOffers([(s, ms)]) == OwnOffers(s, ms)
  {
    assert [(s, ms)][..0] == [] && ServiceOffers([(s, ms)][..0]) == [];
  }

  /** The member methods are offered for the original of their class, in the order in which they were met. */
  lemma {:induction false} MemberOffersSpelled(g: Graph, members: seq<(ClassId, Method)>)
    ensures |MemberOffers(g, members)| == |members|
    ensures forall i | 0 <= i < |members| && members[i].0 in g.classes ::
      MemberOffers(g, members)[i] ==
        (Model(match g.classes[members[i].0].orig case Some(o) => o case None => members[i].0), members[i].1)
  {
    if members != [] { MemberOffersSpelled(g, members[..|members| - 1]); }
  }

  function MemberOwner(g: Graph, c: ClassId): Owner {
    Model(if c in g.classes then OrigOf(g, c) else c)
  }
}
