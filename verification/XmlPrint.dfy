/** What `to_parent` writes, as a function from the parent element to the parent element. */
module XmlPrint {
  import opened Wrappers
  import opened XmlSchema

  function Append(e: Node, kid: Node): Node {
    e.(kids := e.kids + [kid])
  }

  /** `element.set(name, text)`: replaces the attribute where it stands, or adds it at the end. */
  function SetPair(attrs: seq<(QName, string)>, name: QName, text: string): seq<(QName, string)> {
    if attrs == [] then [(name, text)]
    else if attrs[0].0 == name then [(name, text)] + attrs[1..]
    else [attrs[0]] + SetPair(attrs[1..], name, text)
  }

  function SetAttr(e: Node, name: QName, text: string): Node {
    e.(attrs := SetPair(e.attrs, name, text))
  }

  /** `get_polymorphic_target` for an instance of class `cls` where class `id` is declared: the class
      whose fields are written, and whether its name goes into `xsi:type`. */
  function Target(env: Env, id: ClassId, cls: ClassId): (ClassId, bool)
    requires id in env.table
  {
    var orig := OrigOf(env, id);
    if !env.polymorphic || cls == orig then (id, false)
    else if cls !in env.table || orig !in env.table[cls].bases then (id, false)
    else if cls in env.table[id].polymap then (env.table[id].polymap[cls], true)
    else (cls, true)
  }

  /** A member that may occur more than once is typed as a list of its type. */
  ghost predicate MemberTyped(env: Env, ty: Type, v: Value)
    decreases v, 4
  {
    && Known(env, ty)
    && if Many(AttrsOf(env, ty)) then
         v == Null || (v.List? && forall i | 0 <= i < |v.items| :: WellTyped(env, ty, v.items[i]))
       else WellTyped(env, ty, v)
  }

  ghost predicate FieldTyped(env: Env, f: Field, v: Value)
    decreases v, 0
  {
    && v.Obj?
    && Known(env, f.ty)
    && (f.name in v.fields ==> MemberTyped(env, f.ty, v.fields[f.name]))
  }

  ghost predicate OwnTyped(env: Env, own: seq<Field>, v: Value)
    decreases v, 1
  {
    v.Obj? && forall i | 0 <= i < |own| :: FieldTyped(env, own[i], v)
  }

  /** Every field that a class or an ancestor declares is absent or typed. */
  ghost predicate LevelTyped(env: Env, level: Level, v: Value)
    decreases v, 2, level
  {
    match level
    case Top => v.Obj?
    case Level(parent, _, own) => LevelTyped(env, parent, v) && OwnTyped(env, own, v)
  }

  /** The native values that belong to a type.  A primitive must survive its own text form. */
  ghost predicate WellTyped(env: Env, ty: Type, v: Value)
    decreases v, 3
  {
    && Known(env, ty)
    && match v
       case Null => true
       case Prim(n) =>
         && (ty.Leaf? || ty.Attribute?)
         && env.codec.decode(ty.kind, env.codec.encode(ty.kind, n)) == Some(n)
       case List(items) =>
         && ty.Array?
         && forall i | 0 <= i < |items| :: WellTyped(env, ty.item, items[i])
       case Obj(cls, _) =>
         && ty.Class?
         && Known(env, Class(Target(env, ty.id, cls).0))
         && LevelTyped(env, env.table[Target(env, ty.id, cls).0].level, v)
  }

  function Tag(at: Attrs, ns: Option<string>, name: string): QName {
    QName(if at.subNs.Some? then at.subNs else ns, if at.subName.Some? then at.subName.value else name)
  }

  /** `cls._ns`, or else `sub_ns`, qualifies the name of an attribute. */
  function AttrName(ty: Type, name: string): QName
    requires ty.Attribute?
  {
    QName(if ty.attrNs.Some? then ty.attrNs else ty.attrs.subNs, name)
  }

  function PrintPrim(env: Env, ty: Type, n: Native, ns: Option<string>, name: string, e: Node): Node
    requires ty.Leaf? || ty.Attribute?
  {
    if ty.Leaf? then Append(e, Node(QName(ns, name), [], env.codec.encode(ty.kind, n), []))
    else SetAttr(e, AttrName(ty, name), env.codec.encode(ty.kind, n))
  }

  /** `to_parent` for `None`: the declared default where there is one, else `null_to_parent`. */
  function PrintNull(env: Env, ty: Type, ns: Option<string>, name: string, e: Node): Node {
    match DefaultOf(ty)
    case Prim(d) => if ty.attrs.exc then e else PrintPrim(env, ty, d, ns, name, e)
    case _ =>
      if ty.Attribute? then e else Append(e, Node(QName(ns, name), [(XSI_NIL, "true")], "", []))
  }

  /** The text of `xsi:type`: prefix, colon and type name. */
  function TypeAttr(env: Env, id: ClassId): seq<(QName, string)>
    requires id in env.table
  {
    var d := env.table[id];
    [(XSI_TYPE, (if d.ns in env.prefmap then env.prefmap[d.ns] else "") + ":" + d.typeName)]
  }

  function MemberNs(at: Attrs, ns: string): Option<string> {
    if at.subNs.Some? then at.subNs else Some(ns)
  }

  function MemberName(at: Attrs, name: string): string {
    if at.subName.Some? then at.subName.value else name
  }

  function ToParent(env: Env, ty: Type, v: Value, ns: Option<string>, name: string, e: Node): Node
    requires WellTyped(env, ty, v)
    decreases v, 3
  {
    match v
    case Null => PrintNull(env, ty, ns, name, e)
    case Prim(n) => if ty.attrs.exc then e else PrintPrim(env, ty, n, ns, name, e)
    case List(items) =>
      if ty.attrs.exc then e
      else Append(e, PrintArray(env, ty, v, Node(Tag(ty.attrs, ns, name), [], "", [])))
    case Obj(cls, _) =>
      var (id, addType) := Target(env, ty.id, cls);
      var d := env.table[id];
      if d.attrs.exc then e else
      var elt := Node(Tag(d.attrs, ns, name), if addType then TypeAttr(env, id) else [], "", []);
      Append(e, PrintLevel(env, d.level, v, elt))
  }

  /** The one member of an `Array` is the list itself. */
  function PrintArray(env: Env, ty: Type, v: Value, e: Node): Node
    requires v.List? && WellTyped(env, ty, v)
    decreases v, 2
  {
    var at := AttrsOf(env, ty.item);
    if at.exc then e
    else PrintItems(env, ty.item, v.items, MemberNs(at, ty.ns), MemberName(at, ty.member), e)
  }

  /** `_get_members_etree`: the members that ancestors declare come first. */
  function PrintLevel(env: Env, level: Level, v: Value, e: Node): Node
    requires LevelTyped(env, level, v)
    decreases v, 2, level
  {
    match level
    case Top => e
    case Level(parent, ns, own) => PrintOwn(env, ns, own, v, PrintLevel(env, parent, v, e))
  }

  function PrintOwn(env: Env, ns: string, own: seq<Field>, v: Value, e: Node): Node
    requires OwnTyped(env, own, v)
    decreases v, 1, |own|
  {
    if own == [] then e
    else
      var last := |own| - 1;
      PrintMember(env, ns, own[last], v, PrintOwn(env, ns, own[..last], v, e))
  }

  function PrintMember(env: Env, ns: string, f: Field, v: Value, e: Node): Node
    requires FieldTyped(env, f, v)
    decreases v, 0
  {
    var at := AttrsOf(env, f.ty);
    var subNs, subName := MemberNs(at, ns), MemberName(at, f.name);
    if at.exc then e
    else if f.name in v.fields && v.fields[f.name] != Null then
      assert MemberTyped(env, f.ty, v.fields[f.name]);
      if Many(at) then PrintItems(env, f.ty, v.fields[f.name].items, subNs, subName, e)
      else ToParent(env, f.ty, v.fields[f.name], subNs, subName, e)
    else if at.minOccurs > 0 then PrintNull(env, f.ty, subNs, subName, e)
    else e
  }

  function PrintItems(env: Env, ty: Type, items: seq<Value>, ns: Option<string>, name: string, e: Node): Node
    requires forall i | 0 <= i < |items| :: WellTyped(env, ty, items[i])
    decreases items, 0
  {
    if items == [] then e
    else
      var last := |items| - 1;
      ToParent(env, ty, items[last], ns, name, PrintItems(env, ty, items[..last], ns, name, e))
  }
}
