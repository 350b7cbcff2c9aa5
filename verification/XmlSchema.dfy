/** The data that the XML protocol works on: classes, native values and element trees.

    A Python class is an identity (`ClassId`) into a table, so type graphs may be cyclic.  Names in
    Clark notation (`{ns}local`) are pairs.  An element without character data has text `""`; lxml
    reads such an element back with text `None`, and `TextOf` says so. */
module XmlSchema {
  import opened Wrappers

  /** Native values of the primitive types.  Their text form is given by the `Codec` of a protocol. */
  type Native(==, !new)

  type ClassId = nat

  datatype QName = QName(ns: Option<string>, local: string)

  const NS_XSI: string := "http://www.w3.org/2001/XMLSchema-instance"
  const XSI_NIL: QName := QName(Some(NS_XSI), "nil")
  const XSI_TYPE: QName := QName(Some(NS_XSI), "type")

  datatype Occurs = Bounded(n: nat) | Unbounded

  predicate AtMost(n: nat, o: Occurs) {
    o.Unbounded? || n <= o.n
  }

  /** The customisable `Attributes` of a type that (de)serialisation looks at. */
  datatype Attrs = Attrs(
    minOccurs: nat,
    maxOccurs: Occurs,
    exc: bool,
    nillable: bool,
    readOnly: bool,
    subName: Option<string>,
    subNs: Option<string>)

  /** A field holds a list of values, each in an element of its own, when more than one may occur. */
  predicate Many(at: Attrs) {
    at.maxOccurs.Unbounded? || at.maxOccurs.n > 1
  }

  /** `kind` selects the text codec.  `Class` and `Array` have no default value here. */
  datatype Type =
    | Leaf(kind: nat, unicode: bool, emptyIsNone: bool, default: Option<Native>, attrs: Attrs)
    | Attribute(kind: nat, emptyIsNone: bool, default: Option<Native>, attrNs: Option<string>, attrs: Attrs)
    | Array(ns: string, member: string, item: Type, attrs: Attrs)
    | Class(id: ClassId)

  datatype Field = Field(name: string, ty: Type)

  /** The `__extends__` chain of a class, each class with its own fields and namespace. */
  datatype Level =
    | Top
    | Level(parent: Level, ns: string, own: seq<Field>)

  /** `bases` holds the uncustomised classes a class derives from, itself included.  `alt` is
      `_type_info_alt`, the lookup by alias. */
  datatype ClassDef = ClassDef(
    typeName: string,
    ns: string,
    level: Level,
    alt: map<QName, Field>,
    orig: Option<ClassId>,
    bases: set<ClassId>,
    polymap: map<ClassId, ClassId>,
    attrs: Attrs)

  datatype Value =
    | Null
    | Prim(n: Native)
    | Obj(cls: ClassId, fields: map<string, Value>)
    | List(items: seq<Value>)

  datatype Node = Node(tag: QName, attrs: seq<(QName, string)>, text: string, kids: seq<Node>)

  /** The text form of native values, and the two validity checks of soft validation. */
  datatype Codec = Codec(
    encode: (nat, Native) -> string,
    decode: (nat, string) -> Option<Native>,
    validString: (nat, Option<string>) -> bool,
    validNative: (nat, Option<Native>) -> bool)

  /** A protocol instance together with the interface it was initialised with. */
  datatype Env = Env(
    table: map<ClassId, ClassDef>,
    codec: Codec,
    classes: map<QName, Type>,
    prefmap: map<string, string>,
    nsmap: map<string, string>,
    polymorphic: bool,
    parseXsiType: bool,
    replaceNull: bool,
    soft: bool)

  function TextOf(e: Node): Option<string> {
    if e.text == "" then None else Some(e.text)
  }

  /** `cls.__orig__ or cls` */
  function OrigOf(env: Env, id: ClassId): ClassId
    requires id in env.table
  {
    match env.table[id].orig
    case None => id
    case Some(o) => o
  }

  predicate Known(env: Env, ty: Type) {
    match ty
    case Class(id) => id in env.table && OrigOf(env, id) in env.table
    case Array(_, _, item, _) => Known(env, item)
    case _ => true
  }

  function AttrsOf(env: Env, ty: Type): Attrs
    requires Known(env, ty)
  {
    match ty
    case Class(id) => env.table[id].attrs
    case _ => ty.attrs
  }

  function DefaultOf(ty: Type): Value {
    match ty
    case Leaf(_, _, _, Some(d), _) => Prim(d)
    case Attribute(_, _, Some(d), _, _) => Prim(d)
    case _ => Null
  }

  function OwnMap(own: seq<Field>): map<string, Type> {
    if own == [] then map[] else OwnMap(own[..|own| - 1])[own[|own| - 1].name := own[|own| - 1].ty]
  }

  /** `_get_flat_type_info`: ancestors first, a later field of the same name replacing the earlier. */
  function Flat(level: Level): map<string, Type> {
    match level
    case Top => map[]
    case Level(parent, _, own) => Flat(parent) + OwnMap(own)
  }

  function FlatOf(env: Env, id: ClassId): map<string, Type>
    requires id in env.table
  {
    Flat(env.table[id].level)
  }

  /** A fresh instance holds the declared default of every field. */
  function InitFields(env: Env, id: ClassId): map<string, Value>
    requires id in env.table
  {
    map k | k in FlatOf(env, id) :: DefaultOf(FlatOf(env, id)[k])
  }

  function GetField(v: Value, k: string): Value
    requires v.Obj?
  {
    if k in v.fields then v.fields[k] else Null
  }

  /** The field of a class that a child element, named by `tag`, is read into. */
  function Resolve(env: Env, id: ClassId, tag: QName): Option<Field>
    requires id in env.table
  {
    var local := QName(None, tag.local);
    if tag.local in FlatOf(env, id) then Some(Field(tag.local, FlatOf(env, id)[tag.local]))
    else if local in env.table[id].alt then Some(env.table[id].alt[local])
    else if tag in env.table[id].alt then Some(env.table[id].alt[tag])
    else None
  }

  /** The field of a class that an XML attribute, named by `name`, is read into. */
  function ResolveAttr(env: Env, id: ClassId, name: QName): Option<Field>
    requires id in env.table
  {
    if name.ns == None && name.local in FlatOf(env, id) then
      Some(Field(name.local, FlatOf(env, id)[name.local]))
    else if name in env.table[id].alt then Some(env.table[id].alt[name])
    else None
  }
}
