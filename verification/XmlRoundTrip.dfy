/** Reading back what was written: the value returns, up to one canonical form. */
module XmlRoundTrip {
  import opened Wrappers
  import opened XmlSchema
  import opened XmlPrint
  import opened XmlParse

  // ---------- The canonical form ----------

  /** An empty text cannot be told from a missing one, except for strings. */
  function CanonPrim(env: Env, ty: Type, n: Native): Value {
    if (ty.Leaf? || ty.Attribute?)
       && env.codec.encode(ty.kind, n) == "" && (ty.emptyIsNone || (ty.Leaf? && !ty.unicode))
    then Null
    else Prim(n)
  }

  function CanonNull(env: Env, ty: Type): Value {
    match DefaultOf(ty)
    case Prim(d) => CanonPrim(env, ty, d)
    case _ => Null
  }

  /** What a value becomes on its way through XML. */
  function Canon(env: Env, ty: Type, v: Value): Value
    decreases v, 3
  {
    match v
    case Null => CanonNull(env, ty)
    case Prim(n) => CanonPrim(env, ty, n)
    case List(items) =>
      if ty.Array? && Known(env, ty) && !AttrsOf(env, ty.item).exc
      then List(CanonItems(env, ty.item, items))
      else List([])
    case Obj(cls, _) =>
      if ty.Class? && Known(env, ty) && Known(env, Class(Target(env, ty.id, cls).0))
      then
        var id := Target(env, ty.id, cls).0;
        Obj(OrigOf(env, id), CanonFields(env, id, v))
      else Null
  }

  function CanonItems(env: Env, ty: Type, items: seq<Value>): seq<Value>
    decreases items, 0
  {
    if items == [] then []
    else CanonItems(env, ty, items[..|items| - 1]) + [Canon(env, ty, items[|items| - 1])]
  }

  /** What arrives for a field: nothing when it is excluded, or unset and optional, or an empty list. */
  function Sent(env: Env, f: Field, v: Value): Option<Value>
    requires v.Obj?
    decreases v, 1
  {
    if !Known(env, f.ty) then None else
    var at := AttrsOf(env, f.ty);
    if at.exc || at.readOnly then None
    else if f.name in v.fields && v.fields[f.name] != Null then
      var sub := v.fields[f.name];
      if Many(at) then
        if sub.List? && sub.items != [] then
          Some(List(CanonItems(env, f.ty, sub.items)))
        else None
      else Some(Canon(env, f.ty, sub))
    else if at.minOccurs == 0 || (f.ty.Attribute? && f.ty.default == None) then None
    else if Many(at) then Some(List([CanonNull(env, f.ty)]))
    else Some(CanonNull(env, f.ty))
  }

  function CanonFields(env: Env, id: ClassId, v: Value): map<string, Value>
    requires v.Obj? && Known(env, Class(id))
    decreases v, 2
  {
    var init := InitFields(env, OrigOf(env, id));
    var flat := FlatOf(env, id);
    map k | k in init.Keys + flat.Keys && (k in init || Sent(env, Field(k, flat[k]), v).Some?) ::
      if k in flat && Sent(env, Field(k, flat[k]), v).Some? then Sent(env, Field(k, flat[k]), v).value
      else init[k]
  }

  // ---------- Schemas that can be read back ----------

  predicate DefaultReadable(env: Env, ty: Type) {
    match DefaultOf(ty)
    case Prim(d) => env.codec.decode(ty.kind, env.codec.encode(ty.kind, d)) == Some(d)
    case _ => true
  }

  /** Items of an array are elements, of which there may be many. */
  ghost predicate TypeOk(env: Env, ty: Type) {
    && Known(env, ty)
    && DefaultReadable(env, ty)
    && (ty.Array? ==> TypeOk(env, ty.item) && !ty.item.Attribute? && Many(AttrsOf(env, ty.item)))
  }

  /** No attribute that class `child` writes on its element is taken for a field of class `id`. */
  ghost predicate Silent(env: Env, id: ClassId, child: ClassId)
    requires id in env.table && child in env.table
  {
    forall k | k in FlatOf(env, child) && FlatOf(env, child)[k].Attribute? ::
      var ty := FlatOf(env, child)[k];
      ResolveAttr(env, id, AttrName(ty, MemberName(ty.attrs, k))) == None
  }

  /** The name under which a field is written leads back to that field and to no other. */
  ghost predicate FieldOk(env: Env, id: ClassId, ns: string, f: Field)
    requires id in env.table && OrigOf(env, id) in env.table
  {
    && TypeOk(env, f.ty)
    && var at := AttrsOf(env, f.ty);
       var name := MemberName(at, f.name);
       !at.exc ==>
         if f.ty.Attribute? then
           !Many(at) && ResolveAttr(env, id, AttrName(f.ty, name)) == Some(f)
         else
           && Resolve(env, id, QName(MemberNs(at, ns), name)) == Some(f)
           && (Many(at) ==> f.name !in InitFields(env, OrigOf(env, id))
                            || InitFields(env, OrigOf(env, id))[f.name] == Null)
           && (f.ty.Class? ==>
                 forall cls: ClassId | Known(env, Class(Target(env, f.ty.id, cls).0)) ::
                   Silent(env, id, Target(env, f.ty.id, cls).0))
  }

  ghost predicate LevelOk(env: Env, id: ClassId, level: Level)
    requires id in env.table && OrigOf(env, id) in env.table
  {
    match level
    case Top => true
    case Level(parent, ns, own) =>
      && LevelOk(env, id, parent)
      && (forall i | 0 <= i < |own| :: FieldOk(env, id, ns, own[i]))
      && (forall i | 0 <= i < |own| :: own[i].name !in Flat(parent))
      && (forall i, j | 0 <= i < j < |own| :: own[i].name != own[j].name)
  }

  ghost predicate HasNoColon(s: string) {
    ':' !in s
  }

  /** A class whose name is written into `xsi:type` is found again under that name. */
  ghost predicate Registered(env: Env, id: ClassId) {
    && Known(env, Class(id))
    && var d := env.table[id];
       && d.ns in env.prefmap
       && var p := env.prefmap[d.ns];
          && HasNoColon(p) && p in env.nsmap && env.nsmap[p] == d.ns
          && QName(Some(d.ns), d.typeName) in env.classes
          && env.classes[QName(Some(d.ns), d.typeName)] == Class(id)
          && !d.attrs.exc && d.attrs.subName == None && d.attrs.subNs == None
  }

  ghost predicate SchemaOk(env: Env) {
    && (env.polymorphic ==> env.parseXsiType)
    && forall id | id in env.table ::
         && OrigOf(env, id) in env.table
         && LevelOk(env, id, env.table[id].level)
         && ResolveAttr(env, id, XSI_NIL) == None
         && ResolveAttr(env, id, XSI_TYPE) == None
         && forall cls: ClassId :: Target(env, id, cls).1 ==> Registered(env, Target(env, id, cls).0)
  }

  // ---------- The element of a value ----------

  function Blank(): Node {
    Node(QName(None, ""), [], "", [])
  }

  /** Whether `to_parent` writes anything at all. */
  ghost predicate Shown(env: Env, ty: Type, v: Value)
    requires WellTyped(env, ty, v)
  {
    !ty.Attribute? && !AttrsOf(env, ty).exc
  }

  /** The one element that `to_parent` adds. */
  ghost function NodeOf(env: Env, ty: Type, v: Value, ns: Option<string>, name: string): Node
    requires SchemaOk(env) && WellTyped(env, ty, v) && Shown(env, ty, v)
  {
    Adds(env, ty, v, ns, name, Blank());
    ToParent(env, ty, v, ns, name, Blank()).kids[0]
  }

  lemma Adds(env: Env, ty: Type, v: Value, ns: Option<string>, name: string, e: Node)
    requires SchemaOk(env) && WellTyped(env, ty, v) && Shown(env, ty, v)
    ensures |ToParent(env, ty, v, ns, name, Blank()).kids| == 1
    ensures ToParent(env, ty, v, ns, name, e) == Append(e, ToParent(env, ty, v, ns, name, Blank()).kids[0])
  {
  }

  // ---------- Attributes of an element ----------

  /** An attribute that is offered to class `id` ends up, if anywhere, in one of the fields `keys`. */
  ghost predicate Lands(env: Env, id: ClassId, attrs: seq<(QName, string)>, keys: set<string>)
    requires id in env.table
  {
    forall i | 0 <= i < |attrs| ::
      ResolveAttr(env, id, attrs[i].0).Some? ==> ResolveAttr(env, id, attrs[i].0).value.name in keys
  }

  lemma {:induction false} SetPairAdds(attrs: seq<(QName, string)>, name: QName, text: string)
    requires forall i | 0 <= i < |attrs| :: attrs[i].0 != name
    ensures SetPair(attrs, name, text) == attrs + [(name, text)]
  {
    if attrs != [] {
      SetPairAdds(attrs[1..], name, text);
    }
  }

  lemma {:induction false} GetAttrAdds(attrs: seq<(QName, string)>, name: QName, text: string, other: QName)
    requires name != other
    ensures GetAttr(attrs + [(name, text)], other) == GetAttr(attrs, other)
  {
    if attrs != [] {
      GetAttrAdds(attrs[1..], name, text, other);
      assert (attrs + [(name, text)])[1..] == attrs[1..] + [(name, text)];
    }
  }

  lemma {:induction false} SilentAttrs(env: Env, id: ClassId, attrs: seq<(QName, string)>, inst: map<string, Value>)
    requires id in env.table
    requires forall i | 0 <= i < |attrs| :: ResolveAttr(env, id, attrs[i].0) == None
    ensures AbsorbChildAttrs(env, id, attrs, inst) == Ok(inst)
  {
    if attrs != [] {
      SilentAttrs(env, id, attrs[..|attrs| - 1], inst);
    }
  }

  // ---------- Fields one after another ----------

  /** The instance after the fields of `own` have arrived: attribute fields, or the element fields. */
  function AfterOwn(env: Env, own: seq<Field>, v: Value, attribute: bool, inst: map<string, Value>)
      : map<string, Value>
    requires v.Obj?
  {
    if own == [] then inst
    else
      var f := own[|own| - 1];
      var before := AfterOwn(env, own[..|own| - 1], v, attribute, inst);
      if f.ty.Attribute? == attribute && Sent(env, f, v).Some? then before[f.name := Sent(env, f, v).value]
      else before
  }

  function AfterLevel(env: Env, level: Level, v: Value, attribute: bool, inst: map<string, Value>)
      : map<string, Value>
    requires v.Obj?
  {
    match level
    case Top => inst
    case Level(parent, _, own) => AfterOwn(env, own, v, attribute, AfterLevel(env, parent, v, attribute, inst))
  }

  /** On field `k`, `after` differs from `before` only if something was sent for it. */
  predicate ArrivedAt(env: Env, flat: map<string, Type>, v: Value, attribute: bool,
      before: map<string, Value>, after: map<string, Value>, k: string)
    requires v.Obj?
  {
    if k in flat && flat[k].Attribute? == attribute && Sent(env, Field(k, flat[k]), v).Some? then
      k in after && after[k] == Sent(env, Field(k, flat[k]), v).value
    else (k in after <==> k in before) && (k in before ==> after[k] == before[k])
  }

  lemma {:induction false} NameInMap(own: seq<Field>, k: string)
    ensures k in OwnMap(own) <==> exists i :: 0 <= i < |own| && own[i].name == k
  {
    if own != [] {
      NameInMap(own[..|own| - 1], k);
    }
  }

  lemma {:induction false} OwnArrived(env: Env, own: seq<Field>, v: Value, attribute: bool, inst: map<string,
      Value>, k: string)
    requires v.Obj?
    requires forall i, j | 0 <= i < j < |own| :: own[i].name != own[j].name
    ensures ArrivedAt(env, OwnMap(own), v, attribute, inst, AfterOwn(env, own, v, attribute, inst), k)
  {
    hide Sent;
    if own != [] {
      var front, f := own[..|own| - 1], own[|own| - 1];
      OwnArrived(env, front, v, attribute, inst, k);
      NameInMap(front, k);
      assert f == Field(f.name, f.ty);
      if k == f.name {
        assert k !in OwnMap(front);
      }
    }
  }

  lemma {:induction false} LevelArrived(env: Env, id: ClassId, level: Level, v: Value, attribute: bool,
      inst: map<string, Value>, k: string)
    requires v.Obj? && Known(env, Class(id)) && LevelOk(env, id, level)
    ensures ArrivedAt(env, Flat(level), v, attribute, inst, AfterLevel(env, level, v, attribute, inst), k)
  {
    hide Sent, FieldOk;
    match level
    case Top =>
    case Level(parent, ns, own) =>
      LevelArrived(env, id, parent, v, attribute, inst, k);
      OwnArrived(env, own, v, attribute, AfterLevel(env, parent, v, attribute, inst), k);
      NameInMap(own, k);
  }

  /** Element fields and then attribute fields leave exactly the canonical fields. */
  lemma AllArrived(env: Env, id: ClassId, v: Value)
    requires v.Obj? && Known(env, Class(id)) && LevelOk(env, id, env.table[id].level)
    ensures
      var level := env.table[id].level;
      var init := InitFields(env, OrigOf(env, id));
      AfterLevel(env, level, v, true, AfterLevel(env, level, v, false, init)) == CanonFields(env, id, v)
  {
    hide Sent, LevelOk, AfterLevel;
    var level := env.table[id].level;
    var init := InitFields(env, OrigOf(env, id));
    var elems := AfterLevel(env, level, v, false, init);
    var all := AfterLevel(env, level, v, true, elems);
    var canon := CanonFields(env, id, v);
    forall k: string ensures (k in all <==> k in canon) && (k in all ==> all[k] == canon[k]) {
      LevelArrived(env, id, level, v, false, init, k);
      LevelArrived(env, id, level, v, true, elems, k);
    }
  }

  // ---------- Reading back ----------

  /** Part of the members are written to `e`.  Read as class `id`, its children turn `i0` into `i1`,
      its attributes turn `a0` into `a1` and concern the fields `keys` only. */
  ghost predicate Midway(env: Env, id: ClassId, e: Node, keys: set<string>, i0: map<string, Value>,
      i1: map<string, Value>, a0: map<string, Value>, a1: map<string, Value>, xsi: Option<string>)
    requires id in env.table
  {
    && AbsorbKids(env, id, e.kids, State(i0, map[])).Ok?
    && AbsorbKids(env, id, e.kids, State(i0, map[])).value.inst == i1
    && AbsorbAttrs(env, id, e.attrs, a0) == Ok(a1)
    && Lands(env, id, e.attrs, keys)
    && GetAttr(e.attrs, XSI_NIL) == None
    && GetAttr(e.attrs, XSI_TYPE) == xsi
  }

  /** A list field can start to collect. */
  ghost predicate Unset(env: Env, f: Field, inst: map<string, Value>) {
    && Known(env, f.ty)
    && (!f.ty.Attribute? && Many(AttrsOf(env, f.ty)) && !AttrsOf(env, f.ty).exc ==>
          f.name !in inst || inst[f.name] == Null)
  }

  lemma {:induction false} ColonSplits(p: string, name: string)
    requires HasNoColon(p)
    ensures SplitColon(p + ":" + name) == (Some(p), name)
  {
    var s := p + ":" + name;
    assert s[|p|] == ':';
    if p != "" {
      assert s[1..] == p[1..] + ":" + name;
      assert s[0] == p[0] && s[..1] + p[1..] == p;
      ColonSplits(p[1..], name);
    }
  }

  /** The attributes of a written object are `xsi:type` and its attribute fields. */
  ghost predicate OwnAttrs(env: Env, id: ClassId, attrs: seq<(QName, string)>)
    requires id in env.table
  {
    forall i | 0 <= i < |attrs| ::
      || attrs[i].0 == XSI_TYPE
      || exists k :: k in FlatOf(env, id) && FlatOf(env, id)[k].Attribute?
                     && attrs[i].0 == AttrName(FlatOf(env, id)[k], MemberName(FlatOf(env, id)[k].attrs, k))
  }

  lemma {:induction false} SetPairOwn(env: Env, id: ClassId, attrs: seq<(QName, string)>, k: string, text: string)
    requires id in env.table && k in FlatOf(env, id) && FlatOf(env, id)[k].Attribute?
    requires OwnAttrs(env, id, attrs)
    ensures
      var ty := FlatOf(env, id)[k];
      OwnAttrs(env, id, SetPair(attrs, AttrName(ty, MemberName(ty.attrs, k)), text))
  {
    if attrs != [] {
      assert OwnAttrs(env, id, attrs[1..]);
      SetPairOwn(env, id, attrs[1..], k, text);
    }
  }

  lemma {:induction false} ItemsKeepAttrs(env: Env, ty: Type, items: seq<Value>, ns: Option<string>,
      name: string, e: Node)
    requires SchemaOk(env) && !ty.Attribute?
    requires forall i | 0 <= i < |items| :: WellTyped(env, ty, items[i])
    ensures PrintItems(env, ty, items, ns, name, e).attrs == e.attrs
    ensures PrintItems(env, ty, items, ns, name, e).tag == e.tag
  {
    if items != [] {
      ItemsKeepAttrs(env, ty, items[..|items| - 1], ns, name, e);
    }
  }

  /** Ancestors and a class itself contribute disjoint parts of the flat type info. */
  lemma {:induction false} FlatParts(env: Env, id: ClassId, level: Level)
    requires Known(env, Class(id)) && LevelOk(env, id, level) && level.Level?
    ensures forall k | k in Flat(level.parent) :: k in Flat(level) && Flat(level)[k] == Flat(level.parent)[k]
    ensures forall k | k in OwnMap(level.own) :: k in Flat(level) && Flat(level)[k] == OwnMap(level.own)[k]
    ensures forall k | k in OwnMap(level.own) :: k !in Flat(level.parent)
    ensures forall k :: k in OwnMap(level.own) <==> exists i :: 0 <= i < |level.own| && level.own[i].name == k
  {
    forall k ensures k in OwnMap(level.own) <==> exists i :: 0 <= i < |level.own| && level.own[i].name == k {
      NameInMap(level.own, k);
    }
  }

  lemma {:induction false} LevelOwnAttrs(env: Env, id: ClassId, level: Level, v: Value, e: Node)
    requires SchemaOk(env) && id in env.table && LevelTyped(env, level, v) && LevelOk(env, id, level)
    requires forall k | k in Flat(level) :: k in FlatOf(env, id) && FlatOf(env, id)[k] == Flat(level)[k]
    requires OwnAttrs(env, id, e.attrs)
    ensures OwnAttrs(env, id, PrintLevel(env, level, v, e).attrs)
    ensures PrintLevel(env, level, v, e).tag == e.tag
    decreases level
  {
    match level
    case Top =>
    case Level(parent, ns, own) =>
      FlatParts(env, id, level);
      LevelOwnAttrs(env, id, parent, v, e);
      assert own[..|own|] == own;
      OwnOwnAttrs(env, id, ns, own, |own|, v, PrintLevel(env, parent, v, e));
  }

  lemma {:induction false} OwnMapAt(own: seq<Field>, i: nat)
    requires i < |own|
    requires forall i, j | 0 <= i < j < |own| :: own[i].name != own[j].name
    ensures own[i].name in OwnMap(own) && OwnMap(own)[own[i].name] == own[i].ty
  {
    if i < |own| - 1 {
      OwnMapAt(own[..|own| - 1], i);
    }
  }

  lemma {:induction false} OwnOwnAttrs(env: Env, id: ClassId, ns: string, own: seq<Field>, n: nat, v: Value, e: Node)
    requires SchemaOk(env) && id in env.table && n <= |own| && OwnTyped(env, own, v)
    requires forall i, j | 0 <= i < j < |own| :: own[i].name != own[j].name
    requires forall k | k in OwnMap(own) :: k in FlatOf(env, id) && FlatOf(env, id)[k] == OwnMap(own)[k]
    requires forall i | 0 <= i < |own| :: FieldOk(env, id, ns, own[i])
    requires OwnAttrs(env, id, e.attrs)
    ensures OwnTyped(env, own[..n], v)
    ensures OwnAttrs(env, id, PrintOwn(env, ns, own[..n], v, e).attrs)
    ensures PrintOwn(env, ns, own[..n], v, e).tag == e.tag
  {
    if n > 0 {
      OwnOwnAttrs(env, id, ns, own, n - 1, v, e);
      assert own[..n][..n - 1] == own[..n - 1];
      OwnMapAt(own, n - 1);
      MemberOwnAttrs(env, id, ns, own[n - 1], v, PrintOwn(env, ns, own[..n - 1], v, e));
    }
  }

  lemma {:induction false} MemberOwnAttrs(env: Env, id: ClassId, ns: string, f: Field, v: Value, e: Node)
    requires SchemaOk(env) && id in env.table && FieldTyped(env, f, v) && FieldOk(env, id, ns, f)
    requires f.name in FlatOf(env, id) && FlatOf(env, id)[f.name] == f.ty
    requires OwnAttrs(env, id, e.attrs)
    ensures OwnAttrs(env, id, PrintMember(env, ns, f, v, e).attrs)
    ensures PrintMember(env, ns, f, v, e).tag == e.tag
  {
    var at := AttrsOf(env, f.ty);
    if at.exc {
    } else if f.ty.Attribute? {
      forall text { SetPairOwn(env, id, e.attrs, f.name, text); }
      if f.name in v.fields { assert MemberTyped(env, f.ty, v.fields[f.name]); }
    } else if f.name in v.fields && v.fields[f.name] != Null {
      assert MemberTyped(env, f.ty, v.fields[f.name]);
      if Many(at) {
        ItemsKeepAttrs(env, f.ty, v.fields[f.name].items, MemberNs(at, ns), MemberName(at, f.name), e);
      }
    }
  }

  /** A child written for a field of class `id` carries no attribute that `id` would take. */
  lemma ChildSilent(env: Env, id: ClassId, ns: string, f: Field, v: Value, subNs: Option<string>, name: string)
    requires SchemaOk(env) && id in env.table && FieldOk(env, id, ns, f)
    requires WellTyped(env, f.ty, v) && Shown(env, f.ty, v)
    ensures
      var c := NodeOf(env, f.ty, v, subNs, name);
      && (forall i | 0 <= i < |c.attrs| :: ResolveAttr(env, id, c.attrs[i].0) == None)
      && c.tag == if v.Obj? then Tag(env.table[Target(env, f.ty.id, v.cls).0].attrs, subNs, name)
                  else if v.List? then Tag(f.ty.attrs, subNs, name) else QName(subNs, name)
  {
    hide FromElement;
    match v
    case Null =>
    case Prim(_) =>
    case List(_) => ListSilent(env, f.ty, v, subNs, name);
    case Obj(_, _) => ObjSilent(env, id, ns, f, v, subNs, name);
  }

  lemma ListSilent(env: Env, ty: Type, v: Value, ns: Option<string>, name: string)
    requires SchemaOk(env) && WellTyped(env, ty, v) && Shown(env, ty, v) && TypeOk(env, ty) && v.List?
    ensures NodeOf(env, ty, v, ns, name).attrs == [] && NodeOf(env, ty, v, ns, name).tag == Tag(ty.attrs, ns, name)
  {
    var elt := Node(Tag(ty.attrs, ns, name), [], "", []);
    var at := AttrsOf(env, ty.item);
    assert NodeOf(env, ty, v, ns, name) == PrintArray(env, ty, v, elt);
    if !at.exc {
      ItemsKeepAttrs(env, ty.item, v.items, MemberNs(at, ty.ns), MemberName(at, ty.member), elt);
    }
  }

  lemma ObjSilent(env: Env, id: ClassId, ns: string, f: Field, v: Value, subNs: Option<string>, name: string)
    requires SchemaOk(env) && id in env.table && FieldOk(env, id, ns, f)
    requires WellTyped(env, f.ty, v) && Shown(env, f.ty, v) && v.Obj?
    ensures
      var c := NodeOf(env, f.ty, v, subNs, name);
      && (forall i | 0 <= i < |c.attrs| :: ResolveAttr(env, id, c.attrs[i].0) == None)
      && c.tag == Tag(env.table[Target(env, f.ty.id, v.cls).0].attrs, subNs, name)
  {
    hide FromElement;
    var (child, addType) := Target(env, f.ty.id, v.cls);
    var d := env.table[child];
    var elt := Node(Tag(d.attrs, subNs, name), if addType then TypeAttr(env, child) else [], "", []);
    LevelOwnAttrs(env, child, d.level, v, elt);
    assert Silent(env, id, child);
    assert NodeOf(env, f.ty, v, subNs, name) == PrintLevel(env, d.level, v, elt);
  }

  lemma {:induction false} ItemsBack(env: Env, ty: Type, items: seq<Value>, ns: Option<string>, name: string, e: Node,
      got: seq<Value>)
    requires SchemaOk(env) && !env.soft && TypeOk(env, ty) && !ty.Attribute? && !AttrsOf(env, ty).exc
    requires forall i | 0 <= i < |items| :: WellTyped(env, ty, items[i])
    requires FromItems(env, ty, e.kids) == Ok(got)
    ensures FromItems(env, ty, PrintItems(env, ty, items, ns, name, e).kids)
            == Ok(got + CanonItems(env, ty, items))
    decreases items, 0
  {
    hide SchemaOk, Canon;
    if items == [] {
      assert got + CanonItems(env, ty, items) == got;
    } else {
      var last := |items| - 1;
      ItemsBack(env, ty, items[..last], ns, name, e, got);
      var before := PrintItems(env, ty, items[..last], ns, name, e);
      Adds(env, ty, items[last], ns, name, before);
      ReadBack(env, ty, items[last], ns, name);
      var c := NodeOf(env, ty, items[last], ns, name);
      assert (before.kids + [c])[..|before.kids|] == before.kids;
      assert got + CanonItems(env, ty, items)
          == got + CanonItems(env, ty, items[..last]) + [Canon(env, ty, items[last])];
    }
  }

  /** What a list member holds once `items` have arrived. */
  function Gathered(env: Env, f: Field, items: seq<Value>, inst: map<string, Value>): map<string, Value>
    requires Known(env, f.ty)
  {
    if items == [] then inst
    else SafeSet(inst, f.name, List(CanonItems(env, f.ty, items)), AttrsOf(env, f.ty))
  }

  lemma GatherOne(env: Env, f: Field, items: seq<Value>, inst: map<string, Value>)
    requires Known(env, f.ty) && Many(AttrsOf(env, f.ty)) && items != []
    requires f.name !in inst || inst[f.name] == Null
    ensures Store(env, Gathered(env, f, items[..|items| - 1], inst), f, Canon(env, f.ty, items[|items| - 1]))
            == Ok(Gathered(env, f, items, inst))
  {
    var front := items[..|items| - 1];
    assert CanonItems(env, f.ty, items) == CanonItems(env, f.ty, front) + [Canon(env, f.ty, items[|items| - 1])];
    if front == [] {
      assert CanonItems(env, f.ty, items) == [Canon(env, f.ty, items[|items| - 1])];
    } else if !AttrsOf(env, f.ty).readOnly {
      var all := List(CanonItems(env, f.ty, items));
      assert inst[f.name := List(CanonItems(env, f.ty, front))][f.name := all] == inst[f.name := all];
    }
  }

  lemma AbsorbSnoc(env: Env, id: ClassId, kids: seq<Node>, c: Node, st: State)
    requires id in env.table
    ensures AbsorbKids(env, id, kids + [c], st)
            == match AbsorbKids(env, id, kids, st)
               case Err(f) => Err(f)
               case Ok(st1) => AbsorbKid(env, id, c, st1)
  {
    assert (kids + [c])[..|kids|] == kids;
  }

  lemma TypeAttrReads(env: Env, id: ClassId, into: ClassId, inst: map<string, Value>)
    requires id in env.table && into in env.table && ResolveAttr(env, into, XSI_TYPE) == None
    ensures
      var attrs := TypeAttr(env, id);
      && GetAttr(attrs, XSI_NIL) == None
      && GetAttr(attrs, XSI_TYPE) == Some(attrs[0].1)
      && AbsorbAttrs(env, into, attrs, inst) == Ok(inst)
  {
    var attrs := TypeAttr(env, id);
    assert |XSI_NIL.local| != |XSI_TYPE.local|;
    assert attrs[1..] == [] && attrs[..0] == [];
    assert GetAttr(attrs, XSI_NIL) == GetAttr(attrs[1..], XSI_NIL);
    assert AbsorbAttrs(env, into, attrs[..0], inst) == Ok(inst);
  }

  /** One more child of class `id` is read. */
  lemma KidBack(env: Env, id: ClassId, ns: string, f: Field, v: Value, st: State)
    requires SchemaOk(env) && !env.soft && Known(env, Class(id)) && FieldOk(env, id, ns, f)
    requires WellTyped(env, f.ty, v) && Shown(env, f.ty, v)
    requires Store(env, st.inst, f, Canon(env, f.ty, v)).Ok?
    requires
      var at := AttrsOf(env, f.ty);
      FromElement(env, f.ty, NodeOf(env, f.ty, v, MemberNs(at, ns), MemberName(at, f.name))) == Ok(Canon(env, f.ty, v))
    ensures
      var at := AttrsOf(env, f.ty);
      var c := NodeOf(env, f.ty, v, MemberNs(at, ns), MemberName(at, f.name));
      && AbsorbKid(env, id, c, st).Ok?
      && AbsorbKid(env, id, c, st).value.inst == Store(env, st.inst, f, Canon(env, f.ty, v)).value
  {
    var at := AttrsOf(env, f.ty);
    var c := NodeOf(env, f.ty, v, MemberNs(at, ns), MemberName(at, f.name));
    ChildSilent(env, id, ns, f, v, MemberNs(at, ns), MemberName(at, f.name));
    assert c.tag == QName(MemberNs(at, ns), MemberName(at, f.name));
    SilentAttrs(env, id, c.attrs, Store(env, st.inst, f, Canon(env, f.ty, v)).value);
  }

  lemma {:induction false} MemberItemsBack(env: Env, id: ClassId, ns: string, f: Field, items: seq<Value>, e: Node,
      st0: State, inst: map<string, Value>)
    requires SchemaOk(env) && !env.soft && Known(env, Class(id)) && FieldOk(env, id, ns, f)
    requires Many(AttrsOf(env, f.ty)) && !f.ty.Attribute? && !AttrsOf(env, f.ty).exc
    requires forall i | 0 <= i < |items| :: WellTyped(env, f.ty, items[i])
    requires AbsorbKids(env, id, e.kids, st0).Ok? && AbsorbKids(env, id, e.kids, st0).value.inst == inst
    requires f.name !in inst || inst[f.name] == Null
    ensures
      var at := AttrsOf(env, f.ty);
      var e1 := PrintItems(env, f.ty, items, MemberNs(at, ns), MemberName(at, f.name), e);
      && AbsorbKids(env, id, e1.kids, st0).Ok?
      && AbsorbKids(env, id, e1.kids, st0).value.inst == Gathered(env, f, items, inst)
    decreases items, 0
  {
    if items != [] {
      var at := AttrsOf(env, f.ty);
      var last := |items| - 1;
      var subNs, name := MemberNs(at, ns), MemberName(at, f.name);
      MemberItemsBack(env, id, ns, f, items[..last], e, st0, inst);
      var before := PrintItems(env, f.ty, items[..last], subNs, name, e);
      var st := AbsorbKids(env, id, before.kids, st0).value;
      Adds(env, f.ty, items[last], subNs, name, before);
      ReadBack(env, f.ty, items[last], subNs, name);
      var c := NodeOf(env, f.ty, items[last], subNs, name);
      GatherOne(env, f, items, inst);
      KidBack(env, id, ns, f, items[last], st);
      AbsorbSnoc(env, id, before.kids, c, st0);
    }
  }

  /** Whether a field concerns the children or the attributes of the element, and what it leaves there. */
  function Updated(env: Env, f: Field, v: Value, attribute: bool, inst: map<string, Value>): map<string, Value>
    requires v.Obj?
  {
    if f.ty.Attribute? == attribute && Sent(env, f, v).Some? then inst[f.name := Sent(env, f, v).value] else inst
  }

  lemma {:induction false} MemberBack(env: Env, id: ClassId, ns: string, f: Field, v: Value, e: Node, keys: set<string>,
      i0: map<string, Value>, i1: map<string, Value>, a0: map<string, Value>, a1: map<string, Value>, xsi: Option<string>)
    requires SchemaOk(env) && !env.soft && Known(env, Class(id)) && FieldOk(env, id, ns, f) && FieldTyped(env, f, v)
    requires Midway(env, id, e, keys, i0, i1, a0, a1, xsi) && f.name !in keys
    requires Unset(env, f, i1)
    ensures Midway(env, id, PrintMember(env, ns, f, v, e), keys + {f.name},
                   i0, Updated(env, f, v, false, i1), a0, Updated(env, f, v, true, a1), xsi)
    decreases v, 0
  {
    hide SchemaOk, Midway;
    var at := AttrsOf(env, f.ty);
    var subNs, name := MemberNs(at, ns), MemberName(at, f.name);
    if at.exc {
      assert PrintMember(env, ns, f, v, e) == e && Sent(env, f, v) == None;
      MidwayMore(env, id, e, keys, f.name, i0, i1, a0, a1, xsi);
    } else if f.name in v.fields && v.fields[f.name] != Null {
      var sub := v.fields[f.name];
      assert MemberTyped(env, f.ty, sub);
      if f.ty.Attribute? {
        AttributeMember(env, id, ns, f, sub.n, v, e, keys, i0, i1, a0, a1, xsi);
      } else if Many(at) {
        ManyMember(env, id, ns, f, sub.items, e, keys, i0, i1, a0, a1, xsi);
        assert Gathered(env, f, sub.items, i1) == Updated(env, f, v, false, i1);
      } else {
        ReadBack(env, f.ty, sub, subNs, name);
        ElementBack(env, id, ns, f, sub, e, keys, i0, i1, a0, a1, xsi);
        assert SafeSet(i1, f.name, Canon(env, f.ty, sub), at) == Updated(env, f, v, false, i1);
      }
    } else {
      UnsetMember(env, id, ns, f, v, e, keys, i0, i1, a0, a1, xsi);
    }
  }

  /** Nothing is written for a field. */
  lemma MidwayMore(env: Env, id: ClassId, e: Node, keys: set<string>, k: string, i0: map<string, Value>,
      i1: map<string, Value>, a0: map<string, Value>, a1: map<string, Value>, xsi: Option<string>)
    requires id in env.table && Midway(env, id, e, keys, i0, i1, a0, a1, xsi)
    ensures Midway(env, id, e, keys + {k}, i0, i1, a0, a1, xsi)
  {
  }

  lemma ManyMember(env: Env, id: ClassId, ns: string, f: Field, items: seq<Value>, e: Node, keys: set<string>,
      i0: map<string, Value>, i1: map<string, Value>, a0: map<string, Value>, a1: map<string, Value>, xsi: Option<string>)
    requires SchemaOk(env) && !env.soft && Known(env, Class(id)) && FieldOk(env, id, ns, f)
    requires !f.ty.Attribute? && Many(AttrsOf(env, f.ty)) && !AttrsOf(env, f.ty).exc && Unset(env, f, i1)
    requires forall i | 0 <= i < |items| :: WellTyped(env, f.ty, items[i])
    requires Midway(env, id, e, keys, i0, i1, a0, a1, xsi)
    ensures
      var at := AttrsOf(env, f.ty);
      Midway(env, id, PrintItems(env, f.ty, items, MemberNs(at, ns), MemberName(at, f.name), e), keys + {f.name},
             i0, Gathered(env, f, items, i1), a0, a1, xsi)
    decreases items, 1
  {
    hide SchemaOk, FieldOk;
    var at := AttrsOf(env, f.ty);
    MemberItemsBack(env, id, ns, f, items, e, State(i0, map[]), i1);
    ItemsKeepAttrs(env, f.ty, items, MemberNs(at, ns), MemberName(at, f.name), e);
  }

  lemma AttributeMember(env: Env, id: ClassId, ns: string, f: Field, n: Native, v: Value, e: Node, keys: set<string>,
      i0: map<string, Value>, i1: map<string, Value>, a0: map<string, Value>, a1: map<string, Value>, xsi: Option<string>)
    requires SchemaOk(env) && Known(env, Class(id)) && FieldOk(env, id, ns, f) && FieldTyped(env, f, v)
    requires f.ty.Attribute? && !f.ty.attrs.exc && f.name in v.fields && v.fields[f.name] == Prim(n)
    requires Midway(env, id, e, keys, i0, i1, a0, a1, xsi) && f.name !in keys
    ensures Midway(env, id, PrintMember(env, ns, f, v, e), keys + {f.name},
                   i0, Updated(env, f, v, false, i1), a0, Updated(env, f, v, true, a1), xsi)
  {
    assert MemberTyped(env, f.ty, v.fields[f.name]);
    AttributeBack(env, id, ns, f, n, e, keys, i0, i1, a0, a1, xsi);
    assert Sent(env, f, v) == if f.ty.attrs.readOnly then None else Some(Canon(env, f.ty, v.fields[f.name]));
    assert Canon(env, f.ty, v.fields[f.name]) == CanonPrim(env, f.ty, n);
  }

  /** A field that is unset, or set to `None`. */
  lemma UnsetMember(env: Env, id: ClassId, ns: string, f: Field, v: Value, e: Node, keys: set<string>,
      i0: map<string, Value>, i1: map<string, Value>, a0: map<string, Value>, a1: map<string, Value>, xsi: Option<string>)
    requires SchemaOk(env) && !env.soft && Known(env, Class(id)) && FieldOk(env, id, ns, f) && FieldTyped(env, f, v)
    requires !AttrsOf(env, f.ty).exc && (f.name !in v.fields || v.fields[f.name] == Null)
    requires Midway(env, id, e, keys, i0, i1, a0, a1, xsi) && f.name !in keys
    requires Unset(env, f, i1)
    ensures Midway(env, id, PrintMember(env, ns, f, v, e), keys + {f.name},
                   i0, Updated(env, f, v, false, i1), a0, Updated(env, f, v, true, a1), xsi)
  {
    hide SchemaOk, Midway, FromElement;
    var at := AttrsOf(env, f.ty);
    var subNs, name := MemberNs(at, ns), MemberName(at, f.name);
    if at.minOccurs == 0 || (f.ty.Attribute? && f.ty.default == None) {
      assert PrintMember(env, ns, f, v, e) == e && Sent(env, f, v) == None;
      MidwayMore(env, id, e, keys, f.name, i0, i1, a0, a1, xsi);
    } else if f.ty.Attribute? {
      AttributeBack(env, id, ns, f, f.ty.default.value, e, keys, i0, i1, a0, a1, xsi);
      assert PrintMember(env, ns, f, v, e) == PrintPrim(env, f.ty, f.ty.default.value, subNs, name, e);
    } else {
      NullBack(env, f.ty, subNs, name);
      ElementBack(env, id, ns, f, Null, e, keys, i0, i1, a0, a1, xsi);
      assert PrintMember(env, ns, f, v, e) == ToParent(env, f.ty, Null, subNs, name, e);
    }
  }

  lemma AttributeBack(env: Env, id: ClassId, ns: string, f: Field, n: Native, e: Node, keys: set<string>,
      i0: map<string, Value>, i1: map<string, Value>, a0: map<string, Value>, a1: map<string, Value>, xsi: Option<string>)
    requires SchemaOk(env) && Known(env, Class(id)) && FieldOk(env, id, ns, f)
    requires f.ty.Attribute? && !f.ty.attrs.exc
    requires env.codec.decode(f.ty.kind, env.codec.encode(f.ty.kind, n)) == Some(n)
    requires Midway(env, id, e, keys, i0, i1, a0, a1, xsi) && f.name !in keys
    ensures Midway(env, id, PrintPrim(env, f.ty, n, MemberNs(f.ty.attrs, ns), MemberName(f.ty.attrs, f.name), e),
                   keys + {f.name}, i0, i1, a0, SafeSet(a1, f.name, CanonPrim(env, f.ty, n), f.ty.attrs), xsi)
  {
    hide SchemaOk, AbsorbAttrs, AbsorbKids, GetAttr, SetPair, ResolveAttr, CanonPrim, Lands;
    var q := AttrName(f.ty, MemberName(f.ty.attrs, f.name));
    var text := env.codec.encode(f.ty.kind, n);
    AttributeNew(env, id, ns, f, e.attrs, keys);
    SetPairAdds(e.attrs, q, text);
    GetAttrAdds(e.attrs, q, text, XSI_NIL);
    GetAttrAdds(e.attrs, q, text, XSI_TYPE);
    AttributeAbsorbed(env, id, e.attrs, f, n, a0, a1);
    LandsMore(env, id, e.attrs, keys, q, text);
  }

  /** The name of the attribute is not there yet. */
  lemma AttributeNew(env: Env, id: ClassId, ns: string, f: Field, attrs: seq<(QName, string)>, keys: set<string>)
    requires SchemaOk(env) && Known(env, Class(id)) && FieldOk(env, id, ns, f) && f.ty.Attribute? && !f.ty.attrs.exc
    requires Lands(env, id, attrs, keys) && f.name !in keys
    ensures
      var q := AttrName(f.ty, MemberName(f.ty.attrs, f.name));
      && ResolveAttr(env, id, q) == Some(f) && q != XSI_NIL && q != XSI_TYPE
      && forall i | 0 <= i < |attrs| :: attrs[i].0 != q
  {
    hide ResolveAttr;
  }

  lemma AttributeAbsorbed(env: Env, id: ClassId, attrs: seq<(QName, string)>, f: Field, n: Native,
      a0: map<string, Value>, a1: map<string, Value>)
    requires id in env.table && f.ty.Attribute? && AbsorbAttrs(env, id, attrs, a0) == Ok(a1)
    requires ResolveAttr(env, id, AttrName(f.ty, MemberName(f.ty.attrs, f.name))) == Some(f)
    requires env.codec.decode(f.ty.kind, env.codec.encode(f.ty.kind, n)) == Some(n)
    ensures
      var pair := (AttrName(f.ty, MemberName(f.ty.attrs, f.name)), env.codec.encode(f.ty.kind, n));
      AbsorbAttrs(env, id, attrs + [pair], a0) == Ok(SafeSet(a1, f.name, CanonPrim(env, f.ty, n), f.ty.attrs))
  {
    hide ResolveAttr, AttrName;
    var pair := (AttrName(f.ty, MemberName(f.ty.attrs, f.name)), env.codec.encode(f.ty.kind, n));
    assert (attrs + [pair])[..|attrs|] == attrs;
  }

  lemma LandsMore(env: Env, id: ClassId, attrs: seq<(QName, string)>, keys: set<string>, q: QName, text: string)
    requires id in env.table && Lands(env, id, attrs, keys) && ResolveAttr(env, id, q).Some?
    ensures Lands(env, id, attrs + [(q, text)], keys + {ResolveAttr(env, id, q).value.name})
  {
    hide ResolveAttr;
  }

  /** A single child element arrives in its field. */
  lemma ElementBack(env: Env, id: ClassId, ns: string, f: Field, v: Value, e: Node, keys: set<string>,
      i0: map<string, Value>, i1: map<string, Value>, a0: map<string, Value>, a1: map<string, Value>, xsi: Option<string>)
    requires SchemaOk(env) && !env.soft && Known(env, Class(id)) && FieldOk(env, id, ns, f)
    requires WellTyped(env, f.ty, v) && Shown(env, f.ty, v)
    requires Midway(env, id, e, keys, i0, i1, a0, a1, xsi)
    requires Many(AttrsOf(env, f.ty)) ==> f.name !in i1 || i1[f.name] == Null
    requires
      var at := AttrsOf(env, f.ty);
      FromElement(env, f.ty, NodeOf(env, f.ty, v, MemberNs(at, ns), MemberName(at, f.name))) == Ok(Canon(env, f.ty, v))
    ensures
      var at := AttrsOf(env, f.ty);
      var w := if Many(at) then List([Canon(env, f.ty, v)]) else Canon(env, f.ty, v);
      Midway(env, id, ToParent(env, f.ty, v, MemberNs(at, ns), MemberName(at, f.name), e), keys + {f.name},
             i0, SafeSet(i1, f.name, w, at), a0, a1, xsi)
  {
    var at := AttrsOf(env, f.ty);
    var subNs, name := MemberNs(at, ns), MemberName(at, f.name);
    var c := NodeOf(env, f.ty, v, subNs, name);
    Adds(env, f.ty, v, subNs, name, e);
    KidBack(env, id, ns, f, v, AbsorbKids(env, id, e.kids, State(i0, map[])).value);
    AbsorbSnoc(env, id, e.kids, c, State(i0, map[]));
  }

  lemma NullBack(env: Env, ty: Type, ns: Option<string>, name: string)
    requires SchemaOk(env) && !env.soft && TypeOk(env, ty) && !ty.Attribute? && !AttrsOf(env, ty).exc
    ensures FromElement(env, ty, NodeOf(env, ty, Null, ns, name)) == Ok(Canon(env, ty, Null))
  {
  }

  function Names(own: seq<Field>): set<string> {
    if own == [] then {} else Names(own[..|own| - 1]) + {own[|own| - 1].name}
  }

  lemma {:induction false} NameOf(own: seq<Field>, k: string)
    ensures k in Names(own) <==> exists i :: 0 <= i < |own| && own[i].name == k
    ensures k in Names(own) <==> k in OwnMap(own)
  {
    if own != [] {
      NameOf(own[..|own| - 1], k);
    }
  }

  lemma {:induction false} OwnUntouched(env: Env, own: seq<Field>, v: Value, inst: map<string, Value>, k: string)
    requires v.Obj? && k !in Names(own)
    ensures
      var after := AfterOwn(env, own, v, false, inst);
      (k in after <==> k in inst) && (k in inst ==> after[k] == inst[k])
  {
    if own != [] {
      OwnUntouched(env, own[..|own| - 1], v, inst, k);
    }
  }

  /** The fields of one class: readable, of distinct names, and not yet met. */
  ghost predicate OwnOk(env: Env, id: ClassId, ns: string, own: seq<Field>, keys: set<string>, inst: map<string, Value>)
    requires id in env.table && OrigOf(env, id) in env.table
  {
    && (forall i | 0 <= i < |own| :: FieldOk(env, id, ns, own[i]))
    && (forall i | 0 <= i < |own| :: own[i].name !in keys)
    && (forall i | 0 <= i < |own| :: Unset(env, own[i], inst))
    && (forall i, j | 0 <= i < j < |own| :: own[i].name != own[j].name)
  }

  lemma {:induction false} OwnBack(env: Env, id: ClassId, ns: string, own: seq<Field>, v: Value, e: Node,
      keys: set<string>, i0: map<string, Value>, i1: map<string, Value>, a0: map<string, Value>, a1: map<string, Value>,
      xsi: Option<string>)
    requires SchemaOk(env) && !env.soft && Known(env, Class(id)) && OwnTyped(env, own, v)
    requires OwnOk(env, id, ns, own, keys, i1)
    requires Midway(env, id, e, keys, i0, i1, a0, a1, xsi)
    ensures Midway(env, id, PrintOwn(env, ns, own, v, e), keys + Names(own),
                   i0, AfterOwn(env, own, v, false, i1), a0, AfterOwn(env, own, v, true, a1), xsi)
    decreases v, 1, |own|
  {
    hide SchemaOk, FieldOk, Sent, FieldTyped, Midway;
    if own == [] {
      assert keys + Names(own) == keys;
    } else {
      var f, front := own[|own| - 1], own[..|own| - 1];
      assert OwnTyped(env, front, v) && OwnOk(env, id, ns, front, keys, i1);
      OwnBack(env, id, ns, front, v, e, keys, i0, i1, a0, a1, xsi);
      NameOf(front, f.name);
      OwnUntouched(env, front, v, i1, f.name);
      OwnStep(env, id, ns, own, v, e, keys, i0, i1, a0, a1, xsi);
    }
  }

  lemma {:induction false} OwnStep(env: Env, id: ClassId, ns: string, own: seq<Field>, v: Value, e: Node,
      keys: set<string>, i0: map<string, Value>, i1: map<string, Value>, a0: map<string, Value>, a1: map<string, Value>,
      xsi: Option<string>)
    requires SchemaOk(env) && !env.soft && Known(env, Class(id)) && OwnTyped(env, own, v) && own != []
    requires OwnTyped(env, own[..|own| - 1], v)
    requires FieldOk(env, id, ns, own[|own| - 1]) && own[|own| - 1].name !in keys + Names(own[..|own| - 1])
    requires Unset(env, own[|own| - 1], AfterOwn(env, own[..|own| - 1], v, false, i1))
    requires
      var front := own[..|own| - 1];
      Midway(env, id, PrintOwn(env, ns, front, v, e), keys + Names(front),
             i0, AfterOwn(env, front, v, false, i1), a0, AfterOwn(env, front, v, true, a1), xsi)
    ensures Midway(env, id, PrintOwn(env, ns, own, v, e), keys + Names(own),
                   i0, AfterOwn(env, own, v, false, i1), a0, AfterOwn(env, own, v, true, a1), xsi)
    decreases v, 1, 0
  {
    hide SchemaOk, FieldOk, Midway, Sent, Unset, FieldTyped;
    var f, front := own[|own| - 1], own[..|own| - 1];
    assert FieldTyped(env, f, v);
    MemberBack(env, id, ns, f, v, PrintOwn(env, ns, front, v, e), keys + Names(front),
               i0, AfterOwn(env, front, v, false, i1), a0, AfterOwn(env, front, v, true, a1), xsi);
    assert keys + Names(front) + {f.name} == keys + Names(own);
    assert Updated(env, f, v, false, AfterOwn(env, front, v, false, i1)) == AfterOwn(env, own, v, false, i1);
    assert Updated(env, f, v, true, AfterOwn(env, front, v, true, a1)) == AfterOwn(env, own, v, true, a1);
  }

  /** The fields of a class have not been met when those of its ancestors have arrived. */
  lemma LevelUnmet(env: Env, id: ClassId, level: Level, v: Value)
    requires Known(env, Class(id)) && LevelOk(env, id, level) && level.Level? && v.Obj?
    ensures
      var i1 := AfterLevel(env, level.parent, v, false, InitFields(env, OrigOf(env, id)));
      OwnOk(env, id, level.ns, level.own, Flat(level.parent).Keys, i1)
    ensures Flat(level.parent).Keys + Names(level.own) == Flat(level).Keys
  {
    var init := InitFields(env, OrigOf(env, id));
    forall i | 0 <= i < |level.own|
      ensures Unset(env, level.own[i], AfterLevel(env, level.parent, v, false, init))
    {
      LevelArrived(env, id, level.parent, v, false, init, level.own[i].name);
    }
    forall k ensures k in Names(level.own) <==> k in OwnMap(level.own) { NameOf(level.own, k); }
  }

  lemma {:induction false} LevelBack(env: Env, id: ClassId, level: Level, v: Value, e: Node,
      i0: map<string, Value>, a0: map<string, Value>, xsi: Option<string>)
    requires SchemaOk(env) && !env.soft && Known(env, Class(id)) && v.Obj? && LevelTyped(env, level, v)
    requires LevelOk(env, id, level)
    requires i0 == InitFields(env, OrigOf(env, id))
    requires Midway(env, id, e, {}, i0, i0, a0, a0, xsi)
    ensures Midway(env, id, PrintLevel(env, level, v, e), Flat(level).Keys,
                   i0, AfterLevel(env, level, v, false, i0), a0, AfterLevel(env, level, v, true, a0), xsi)
    decreases v, 2, level
  {
    match level
    case Top =>
    case Level(parent, ns, own) =>
      LevelBack(env, id, parent, v, e, i0, a0, xsi);
      LevelUnmet(env, id, level, v);
      OwnBack(env, id, ns, own, v, PrintLevel(env, parent, v, e), Flat(parent).Keys,
              i0, AfterLevel(env, parent, v, false, i0), a0, AfterLevel(env, parent, v, true, a0), xsi);
  }

  /** Reading the element that was written for a value gives its canonical form. */
  lemma {:induction false} ReadBack(env: Env, ty: Type, v: Value, ns: Option<string>, name: string)
    requires SchemaOk(env) && !env.soft && TypeOk(env, ty) && WellTyped(env, ty, v) && Shown(env, ty, v)
    ensures FromElement(env, ty, NodeOf(env, ty, v, ns, name)) == Ok(Canon(env, ty, v))
    decreases v, 4
  {
    hide SchemaOk, FromElement, NodeOf, Canon;
    match v
    case Null => NullBack(env, ty, ns, name);
    case Prim(n) => PrimBack(env, ty, n, ns, name);
    case List(items) => ArrayBack(env, ty, v, ns, name);
    case Obj(cls, _) => ObjectBack(env, ty, v, ns, name);
  }

  lemma PrimBack(env: Env, ty: Type, n: Native, ns: Option<string>, name: string)
    requires SchemaOk(env) && !env.soft && WellTyped(env, ty, Prim(n)) && Shown(env, ty, Prim(n))
    ensures FromElement(env, ty, NodeOf(env, ty, Prim(n), ns, name)) == Ok(Canon(env, ty, Prim(n)))
  {
  }

  lemma {:induction false} ArrayBack(env: Env, ty: Type, v: Value, ns: Option<string>, name: string)
    requires SchemaOk(env) && !env.soft && TypeOk(env, ty) && WellTyped(env, ty, v) && Shown(env, ty, v) && v.List?
    ensures FromElement(env, ty, NodeOf(env, ty, v, ns, name)) == Ok(Canon(env, ty, v))
    decreases v, 3
  {
    var at := AttrsOf(env, ty.item);
    var elt := Node(Tag(ty.attrs, ns, name), [], "", []);
    var node := PrintArray(env, ty, v, elt);
    assert NodeOf(env, ty, v, ns, name) == node;
    if !at.exc {
      var subNs, subName := MemberNs(at, ty.ns), MemberName(at, ty.member);
      ItemsKeepAttrs(env, ty.item, v.items, subNs, subName, elt);
      ItemsBack(env, ty.item, v.items, subNs, subName, elt, []);
      assert [] + CanonItems(env, ty.item, v.items) == CanonItems(env, ty.item, v.items);
    } else {
      assert FromItems(env, ty.item, node.kids) == Ok([]);
    }
    assert Handle(env, ty, node) == Ok(Canon(env, ty, v));
  }

  lemma {:induction false} ObjectBack(env: Env, ty: Type, v: Value, ns: Option<string>, name: string)
    requires SchemaOk(env) && !env.soft && TypeOk(env, ty) && WellTyped(env, ty, v) && Shown(env, ty, v) && v.Obj?
    ensures FromElement(env, ty, NodeOf(env, ty, v, ns, name)) == Ok(Canon(env, ty, v))
    decreases v, 3
  {
    var (id, addType) := Target(env, ty.id, v.cls);
    var d := env.table[id];
    var attrs := if addType then TypeAttr(env, id) else [];
    var elt := Node(Tag(d.attrs, ns, name), attrs, "", []);
    var node := PrintLevel(env, d.level, v, elt);
    var init := InitFields(env, OrigOf(env, id));
    var elems := AfterLevel(env, d.level, v, false, init);
    var xsi := if addType then Some(attrs[0].1) else None;
    if addType { ColonSplits(env.prefmap[d.ns], d.typeName); }
    TypeAttrReads(env, id, id, elems);
    assert Midway(env, id, elt, {}, init, init, elems, elems, xsi);
    LevelBack(env, id, d.level, v, elt, init, elems, xsi);
    AllArrived(env, id, v);
    assert XsiClass(env, ty, node) == Ok(Class(id));
    assert FromComplex(env, id, node) == Ok(Obj(OrigOf(env, id), CanonFields(env, id, v)));
    assert Handle(env, Class(id), node) == FromComplex(env, id, node);
    assert NodeOf(env, ty, v, ns, name) == node;
  }
}
