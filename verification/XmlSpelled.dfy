/** What is written and read, spelled out on the tags, attributes and texts of elements and on the declared
    attributes of types. */
module XmlSpelled {
  import opened Wrappers
  import opened XmlSchema
  import opened XmlPrint
  import opened XmlMembers
  import Parse = XmlParse
  import RT = XmlRoundTrip

  // ---------- Names of members ----------

  /** `sub_ns` and `sub_name` where a type has them, else the namespace of the class that declares the field
      and the name of the field. */
  function QualifiedName(at: Attrs, ns: string, name: string): QName {
    match (at.subNs, at.subName)
    case (None, None) => QName(Some(ns), name)
    case (Some(s), None) => QName(Some(s), name)
    case (None, Some(l)) => QName(Some(ns), l)
    case (Some(s), Some(l)) => QName(Some(s), l)
  }

  /** A class whose instances are not written at all. */
  predicate Hidden(env: Env, ty: Type, v: Value)
    requires WellTyped(env, ty, v)
  {
    v.Obj? && env.table[Target(env, ty.id, v.cls).0].attrs.exc
  }

  function Visible(env: Env, ty: Type, items: seq<Value>): nat
    requires ItemsTyped(env, ty, items)
  {
    if items == [] then 0
    else
      var last := |items| - 1;
      Visible(env, ty, items[..last]) + if Hidden(env, ty, items[last]) then 0 else 1
  }

  /** How many children a member adds: none for an attribute or an excluded field, one for each item where it
      may occur more than once, one for a required `None`. */
  function Expected(env: Env, f: Field, v: Value): nat
    requires FieldTyped(env, f, v)
  {
    var at := AttrsOf(env, f.ty);
    if at.exc || f.ty.Attribute? then 0
    else if f.name !in v.fields || v.fields[f.name] == Null then (if at.minOccurs == 0 then 0 else 1)
    else
      assert MemberTyped(env, f.ty, v.fields[f.name]);
      if at.maxOccurs != Bounded(0) && at.maxOccurs != Bounded(1) then Visible(env, f.ty, v.fields[f.name].items)
      else if Hidden(env, f.ty, v.fields[f.name]) then 0 else 1
  }

  lemma {:induction false} VisibleCopies(env: Env, ty: Type, items: seq<Value>)
    requires ItemsTyped(env, ty, items) && Known(env, ty) && !AttrsOf(env, ty).exc
    ensures CopiesOf(env, ty, items) == if ty.Attribute? then 0 else Visible(env, ty, items)
  {
    if items != [] {
      assert WellTyped(env, ty, items[|items| - 1]);
      VisibleCopies(env, ty, items[..|items| - 1]);
    }
  }

  lemma ExpectedCopies(env: Env, f: Field, v: Value)
    requires FieldTyped(env, f, v)
    ensures Copies(env, f, v) == Expected(env, f, v)
  {
    if f.name in v.fields && v.fields[f.name] != Null && !AttrsOf(env, f.ty).exc {
      assert MemberTyped(env, f.ty, v.fields[f.name]);
      if Many(AttrsOf(env, f.ty)) { VisibleCopies(env, f.ty, v.fields[f.name].items); }
    }
  }

  function Tags(kids: seq<Node>): seq<QName> {
    if kids == [] then [] else Tags(kids[..|kids| - 1]) + [kids[|kids| - 1].tag]
  }

  function Times(name: QName, n: nat): (r: seq<QName>)
    ensures |r| == n
  {
    if n == 0 then [] else Times(name, n - 1) + [name]
  }

  lemma {:induction false} TagsNamed(before: seq<Node>, after: seq<Node>, name: QName, n: nat)
    requires before <= after && |after| == |before| + n
    requires forall i | |before| <= i < |after| :: after[i].tag == name
    ensures Tags(after) == Tags(before) + Times(name, n)
  {
    if n == 0 {
      assert after == before;
    } else {
      TagsNamed(before, after[..|after| - 1], name, n - 1);
    }
  }

  function OwnTags(env: Env, ns: string, own: seq<Field>, v: Value): seq<QName>
    requires OwnTyped(env, own, v)
  {
    if own == [] then []
    else
      var f := own[|own| - 1];
      assert FieldTyped(env, f, v);
      OwnTags(env, ns, own[..|own| - 1], v) + Times(QualifiedName(AttrsOf(env, f.ty), ns, f.name), Expected(env, f, v))
  }

  /** Ancestors first, each level in its own namespace, the fields in the order of declaration. */
  function LevelTags(env: Env, level: Level, v: Value): seq<QName>
    requires LevelTyped(env, level, v)
    decreases level
  {
    match level
    case Top => []
    case Level(parent, ns, own) => LevelTags(env, parent, v) + OwnTags(env, ns, own, v)
  }

  ghost predicate AllPlain(env: Env, level: Level) {
    level.Level? ==> AllPlain(env, level.parent) && forall i | 0 <= i < |level.own| :: Plain(env, level.own[i].ty)
  }

  /** Every child that a member adds has the qualified name of the field, and there are as many as expected. */
  lemma MemberSpelled(env: Env, ns: string, f: Field, v: Value, e: Node)
    requires Plain(env, f.ty) && FieldTyped(env, f, v)
    ensures
      var name := QualifiedName(AttrsOf(env, f.ty), ns, f.name);
      var after := PrintMember(env, ns, f, v, e);
      && e.kids <= after.kids && |after.kids| == |e.kids| + Expected(env, f, v)
      && (forall i | |e.kids| <= i < |after.kids| :: after.kids[i].tag == name)
      && Tags(after.kids) == Tags(e.kids) + Times(name, Expected(env, f, v))
  {
    hide Plain, PrintMember, Copies;
    MemberNamed(env, ns, f, v, e);
    ExpectedCopies(env, f, v);
    TagsNamed(e.kids, PrintMember(env, ns, f, v, e).kids, QualifiedName(AttrsOf(env, f.ty), ns, f.name),
      Expected(env, f, v));
  }

  lemma {:induction false} OwnSpelled(env: Env, ns: string, own: seq<Field>, v: Value, e: Node)
    requires OwnTyped(env, own, v) && forall i | 0 <= i < |own| :: Plain(env, own[i].ty)
    ensures Tags(PrintOwn(env, ns, own, v, e).kids) == Tags(e.kids) + OwnTags(env, ns, own, v)
  {
    hide Plain, PrintMember, Expected, FieldTyped, QualifiedName, Times;
    if own != [] {
      var last := |own| - 1;
      assert FieldTyped(env, own[last], v);
      OwnSpelled(env, ns, own[..last], v, e);
      MemberSpelled(env, ns, own[last], v, PrintOwn(env, ns, own[..last], v, e));
    }
  }

  /** The names of all children of an object's element, in order, inherited ones included. */
  lemma {:induction false} LevelSpelled(env: Env, level: Level, v: Value, e: Node)
    requires LevelTyped(env, level, v) && AllPlain(env, level)
    ensures Tags(PrintLevel(env, level, v, e).kids) == Tags(e.kids) + LevelTags(env, level, v)
    decreases level
  {
    hide PrintOwn, OwnTags, OwnTyped, Plain;
    match level
    case Top =>
    case Level(parent, ns, own) =>
      LevelSpelled(env, parent, v, e);
      OwnSpelled(env, ns, own, v, PrintLevel(env, parent, v, e));
  }

  /** The items of an array are named after its member, in the namespace of the array. */
  lemma ArraySpelled(env: Env, ty: Type, v: Value, e: Node)
    requires v.List? && WellTyped(env, ty, v) && Plain(env, ty.item) && !ty.item.Attribute?
    ensures
      Tags(PrintArray(env, ty, v, e).kids) == Tags(e.kids) +
        if AttrsOf(env, ty.item).exc then []
        else Times(QualifiedName(AttrsOf(env, ty.item), ty.ns, ty.member), Visible(env, ty.item, v.items))
  {
    hide Plain, PrintItems;
    var at := AttrsOf(env, ty.item);
    if !at.exc {
      ItemsNamed(env, ty.item, v.items, MemberNs(at, ty.ns), MemberName(at, ty.member), e);
      VisibleCopies(env, ty.item, v.items);
      TagsNamed(e.kids, PrintArray(env, ty, v, e).kids, QualifiedName(at, ty.ns, ty.member),
        Visible(env, ty.item, v.items));
    }
  }

  /** The element of an object: its own name is that of the class written, or else the one it is given, and
      its children are those of the levels of that class. */
  lemma ObjectSpelled(env: Env, ty: Type, v: Value, ns: string, name: string, e: Node)
    requires WellTyped(env, ty, v) && v.Obj? && !Hidden(env, ty, v)
    requires AllPlain(env, env.table[Target(env, ty.id, v.cls).0].level)
    ensures
      var d := env.table[Target(env, ty.id, v.cls).0];
      var after := ToParent(env, ty, v, Some(ns), name, e);
      && |after.kids| == |e.kids| + 1 && after.kids[..|e.kids|] == e.kids
      && var elt := after.kids[|e.kids|];
         elt.tag == QualifiedName(d.attrs, ns, name) && Tags(elt.kids) == LevelTags(env, d.level, v)
  {
    hide PrintLevel, AllPlain, LevelTags;
    var (id, addType) := Target(env, ty.id, v.cls);
    var d := env.table[id];
    var elt := Node(Tag(d.attrs, Some(ns), name), if addType then TypeAttr(env, id) else [], "", []);
    LevelTag(env, d.level, v, elt);
    LevelSpelled(env, d.level, v, elt);
  }

  // ---------- Null, texts and attributes ----------

  predicate Declares(ty: Type, d: Option<Native>) {
    (ty.Leaf? || ty.Attribute?) && ty.default == d
  }

  /** A `None` with a declared default is written as that default; without one it is an element with
      `xsi:nil`, and for an attribute nothing. */
  lemma NullSpelled(env: Env, ty: Type, ns: Option<string>, name: string, e: Node)
    requires WellTyped(env, ty, Null)
    ensures forall d: Native | Declares(ty, Some(d)) && WellTyped(env, ty, Prim(d)) ::
      ToParent(env, ty, Null, ns, name, e) == ToParent(env, ty, Prim(d), ns, name, e)
    ensures ty.Attribute? && Declares(ty, None) ==> ToParent(env, ty, Null, ns, name, e) == e
    ensures ty.Array? || ty.Class? || (ty.Leaf? && ty.default == None) ==>
      var after := ToParent(env, ty, Null, ns, name, e);
      && after.attrs == e.attrs && after.kids == e.kids + [Node(QName(ns, name), [(XSI_NIL, "true")], "", [])]
      && XSI_NIL.local == "nil" && XSI_NIL.ns == Some(NS_XSI)
  {
  }

  /** A primitive is the text of an element, or an attribute in the attribute's namespace, or else `sub_ns`. */
  lemma PrimSpelled(env: Env, ty: Type, n: Native, ns: Option<string>, name: string, e: Node)
    requires WellTyped(env, ty, Prim(n)) && !ty.attrs.exc
    ensures
      var after := ToParent(env, ty, Prim(n), ns, name, e);
      var text := env.codec.encode(ty.kind, n);
      && (ty.Leaf? ==> after.attrs == e.attrs && after.kids == e.kids + [Node(QName(ns, name), [], text, [])])
      && (ty.Attribute? ==>
            && after.kids == e.kids
            && forall q ::
                 Parse.GetAttr(after.attrs, q) ==
                   if q.local == name && ((ty.attrNs.Some? && q.ns == ty.attrNs)
                                          || (ty.attrNs.None? && q.ns == ty.attrs.subNs))
                   then Some(text) else Parse.GetAttr(e.attrs, q))
  {
    if ty.Attribute? {
      forall q { SetThenGet(e.attrs, AttrName(ty, name), env.codec.encode(ty.kind, n), q); }
    }
  }

  lemma {:induction false} SetThenGet(attrs: seq<(QName, string)>, name: QName, text: string, q: QName)
    ensures Parse.GetAttr(SetPair(attrs, name, text), q) == if q == name then Some(text) else Parse.GetAttr(attrs, q)
  {
    if attrs != [] {
      SetThenGet(attrs[1..], name, text, q);
      var rest := SetPair(attrs[1..], name, text);
      assert SetPair(attrs, name, text)[1..] == if attrs[0].0 == name then attrs[1..] else rest;
    }
  }

  /** The attribute of that name that stands first. */
  lemma {:induction false} FirstAttr(attrs: seq<(QName, string)>, i: nat)
    requires i < |attrs| && forall j | 0 <= j < i :: attrs[j].0 != attrs[i].0
    ensures Parse.GetAttr(attrs, attrs[i].0) == Some(attrs[i].1)
  {
    if i > 0 { FirstAttr(attrs[1..], i - 1); }
  }

  lemma {:induction false} NoAttr(attrs: seq<(QName, string)>, q: QName)
    requires forall j | 0 <= j < |attrs| :: attrs[j].0 != q
    ensures Parse.GetAttr(attrs, q) == None
  {
    if attrs != [] { NoAttr(attrs[1..], q); }
  }

  // ---------- What is read ----------

  predicate Nillable(env: Env, ty: Type)
    requires Known(env, ty)
  {
    match ty
    case Class(id) => env.table[id].attrs.nillable
    case Leaf(_, _, _, _, at) => at.nillable
    case Attribute(_, _, _, _, at) => at.nillable
    case Array(_, _, _, at) => at.nillable
  }

  /** An element whose `xsi:nil` has any text is null: the declared default under `replace_null_with_default`
      where the type has one, and `None` in every other case; soft validation refuses it unless nillable. */
  lemma NilRead(env: Env, ty: Type, e: Node, i: nat)
    requires Known(env, ty) && i < |e.attrs| && e.attrs[i].0 == QName(Some(NS_XSI), "nil") && e.attrs[i].1 != ""
    requires forall j | 0 <= j < i :: e.attrs[j].0 != QName(Some(NS_XSI), "nil")
    ensures env.soft && !Nillable(env, ty) ==> Parse.FromElement(env, ty, e) == Err(Parse.ValidationError)
    ensures !(env.soft && !Nillable(env, ty)) ==>
      && (forall d: Native | env.replaceNull && Declares(ty, Some(d)) :: Parse.FromElement(env, ty, e) == Ok(Prim(d)))
      && (!env.replaceNull || ty.Array? || ty.Class? || Declares(ty, None) ==>
            Parse.FromElement(env, ty, e) == Ok(Null))
  {
    FirstAttr(e.attrs, i);
  }

  /** An element without a text for `xsi:nil` is read by its type, or the class that `xsi:type` names. */
  ghost predicate NotNil(e: Node) {
    || (forall j | 0 <= j < |e.attrs| :: e.attrs[j].0 != QName(Some(NS_XSI), "nil"))
    || exists i | 0 <= i < |e.attrs| ::
         && e.attrs[i] == (QName(Some(NS_XSI), "nil"), "")
         && forall j | 0 <= j < i :: e.attrs[j].0 != QName(Some(NS_XSI), "nil")
  }

  lemma NotNilRead(e: Node)
    requires NotNil(e)
    ensures !Parse.IsNil(e)
  {
    if forall j | 0 <= j < |e.attrs| :: e.attrs[j].0 != QName(Some(NS_XSI), "nil") {
      NoAttr(e.attrs, XSI_NIL);
    } else {
      var i :| 0 <= i < |e.attrs| && e.attrs[i] == (QName(Some(NS_XSI), "nil"), "")
        && forall j | 0 <= j < i :: e.attrs[j].0 != QName(Some(NS_XSI), "nil");
      FirstAttr(e.attrs, i);
    }
  }

  /** A primitive: an empty text is `None` unless the type is a string that keeps it; any other text is
      decoded, or an error; soft validation adds its two checks. */
  lemma LeafRead(env: Env, ty: Type, e: Node)
    requires ty.Leaf? && NotNil(e) && (!env.parseXsiType || Parse.GetAttr(e.attrs, XSI_TYPE) == None)
    ensures
      var read := Parse.FromElement(env, ty, e);
      var lost := e.text == "" && (!ty.unicode || ty.emptyIsNone);
      var n := if lost then None else env.codec.decode(ty.kind, e.text);
      var refused := env.soft && (!env.codec.validString(ty.kind, if e.text == "" then None else Some(e.text))
                                  || ((lost || n.Some?) && !env.codec.validNative(ty.kind, n)));
      && (read == Err(Parse.ValidationError) <==> refused)
      && (!refused && lost ==> read == Ok(Null))
      && (!refused && !lost ==> if n.Some? then read == Ok(Prim(n.value)) else read == Err(Parse.BadText))
  {
    NotNilRead(e);
  }

  /** With `xsi:type` the element is read as the class that the name denotes in the interface, whatever was
      declared; an unknown prefix, no prefix, or an unknown class is refused. */
  lemma TypeRead(env: Env, ty: Type, e: Node, prefix: string, local: string)
    requires NotNil(e) && env.parseXsiType && ':' !in prefix
    requires Parse.GetAttr(e.attrs, XSI_TYPE) == Some(prefix + ":" + local)
    ensures
      var read := Parse.FromElement(env, ty, e);
      if prefix in env.nsmap && QName(Some(env.nsmap[prefix]), local) in env.classes
        && Known(env, env.classes[QName(Some(env.nsmap[prefix]), local)])
      then read == Parse.Handle(env, env.classes[QName(Some(env.nsmap[prefix]), local)], e)
      else read == Err(Parse.ValidationError)
  {
    NotNilRead(e);
    RT.ColonSplits(prefix, local);
  }

  lemma TypeWithoutPrefix(env: Env, ty: Type, e: Node, text: string)
    requires NotNil(e) && env.parseXsiType && ':' !in text && Parse.GetAttr(e.attrs, XSI_TYPE) == Some(text)
    ensures Parse.FromElement(env, ty, e) == Err(Parse.ValidationError)
  {
    NotNilRead(e);
  }

  // ---------- Objects ----------

  /** The nearest class that declares a name has the say, and within a class the last declaration. */
  lemma FlatNearest(level: Level, k: string, i: nat)
    requires level.Level? && i < |level.own| && level.own[i].name == k
    requires forall j | i < j < |level.own| :: level.own[j].name != k
    ensures k in Flat(level) && Flat(level)[k] == level.own[i].ty
  {
    LastOwn(level.own, k, i);
  }

  lemma {:induction false} LastOwn(own: seq<Field>, k: string, i: nat)
    requires i < |own| && own[i].name == k && forall j | i < j < |own| :: own[j].name != k
    ensures k in OwnMap(own) && OwnMap(own)[k] == own[i].ty
  {
    if i < |own| - 1 { LastOwn(own[..|own| - 1], k, i); }
  }

  /** A name that a class does not declare is the one that its ancestors declare, if any. */
  lemma FlatInherited(level: Level, k: string)
    requires level.Level? && forall j | 0 <= j < |level.own| :: level.own[j].name != k
    ensures k in Flat(level) <==> k in Flat(level.parent)
    ensures k in Flat(level) ==> Flat(level)[k] == Flat(level.parent)[k]
  {
    NotOwn(level.own, k);
  }

  lemma {:induction false} NotOwn(own: seq<Field>, k: string)
    requires forall j | 0 <= j < |own| :: own[j].name != k
    ensures k !in OwnMap(own)
  {
    if own != [] { NotOwn(own[..|own| - 1], k); }
  }

  /** An element with neither children nor attributes is a fresh instance of the original class: every field
      has its declared default, or `None`. */
  lemma EmptyRead(env: Env, id: ClassId, e: Node)
    requires Known(env, Class(id)) && e.kids == [] && e.attrs == [] && !env.soft
    ensures
      var read := Parse.FromElement(env, Class(id), e);
      var orig := match env.table[id].orig case Some(o) => o case None => id;
      && orig in env.table && read.Ok? && read.value.Obj? && read.value.cls == orig
      && read.value.fields.Keys == Flat(env.table[orig].level).Keys
      && forall k | k in read.value.fields ::
           var ty := Flat(env.table[orig].level)[k];
           && (forall d: Native | Declares(ty, Some(d)) :: read.value.fields[k] == Prim(d))
           && (ty.Array? || ty.Class? || Declares(ty, None) ==> read.value.fields[k] == Null)
  {
    NoAttr(e.attrs, XSI_NIL);
    NoAttr(e.attrs, XSI_TYPE);
    var st := Parse.State(InitFields(env, OrigOf(env, id)), map[]);
    assert Parse.AbsorbKids(env, id, e.kids, st) == Ok(st);
    assert Parse.AbsorbAttrs(env, id, e.attrs, st.inst) == Ok(st.inst);
    assert Parse.FromComplex(env, id, e) == Ok(Obj(OrigOf(env, id), st.inst));
    assert Parse.FromElement(env, Class(id), e) == Parse.Handle(env, Class(id), e);
  }

  /** Which field a child is for: its local name counts, in whatever namespace; then it is taken for an alias
      by local name, and last for one by qualified name. */
  lemma FieldFound(env: Env, id: ClassId, tag: QName)
    requires id in env.table
    ensures
      var flat, alt := Flat(env.table[id].level), env.table[id].alt;
      var f := Resolve(env, id, tag);
      && (tag.local in flat ==> f == Some(Field(tag.local, flat[tag.local])))
      && (tag.local !in flat ==>
            forall local | local in alt && local.ns == None && local.local == tag.local :: f == Some(alt[local]))
      && (tag.local !in flat && (forall local | local in alt && local.local == tag.local :: local.ns != None) ==>
            f == if tag in alt then Some(alt[tag]) else None)
  {
  }

  /** Which field an XML attribute is for: one without a namespace is for the field of its name; any other, and
      one of no such name, is taken for an alias by its full name. */
  lemma AttributeFound(env: Env, id: ClassId, name: QName)
    requires id in env.table
    ensures
      var flat, alt := Flat(env.table[id].level), env.table[id].alt;
      var f := ResolveAttr(env, id, name);
      && (name.ns == None && name.local in flat ==> f == Some(Field(name.local, flat[name.local])))
      && (name.ns != None || name.local !in flat ==> f == if name in alt then Some(alt[name]) else None)
  {
  }

  /** What the attributes of a child do to the fields of the parent: the value replaces a plain member, and is
      added to the end of a repeated one; a member that is no attribute is an error. */
  lemma ChildAttributeRead(env: Env, id: ClassId, name: QName, text: string, inst: map<string, Value>, held: seq<Value>)
    requires id in env.table
    requires
      var f := ResolveAttr(env, id, name);
      f.Some? ==>
        if f.value.name in inst && inst[f.value.name] != Null then inst[f.value.name] == List(held) else held == []
    ensures
      var read := Parse.AbsorbChildAttrs(env, id, [(name, text)], inst);
      match ResolveAttr(env, id, name)
      case None => read == Ok(inst)
      case Some(f) =>
        if !f.ty.Attribute? then read == Err(Parse.BadMember)
        else
          var lost := text == "" && f.ty.emptyIsNone;
          var n := env.codec.decode(f.ty.kind, text);
          var at := f.ty.attrs;
          if !lost && n == None then read == Err(Parse.BadText)
          else
            var v := if lost then Null else Prim(n.value);
            read == Ok(if at.readOnly then inst
                       else if at.maxOccurs == Bounded(0) || at.maxOccurs == Bounded(1) then inst[f.name := v]
                       else inst[f.name := List(held + [v])])
  {
    assert [(name, text)][..0] == [] && Parse.AbsorbChildAttrs(env, id, [], inst) == Ok(inst);
    assert forall v: Value :: [] + [v] == [v];
  }

  /** The attributes of a child are offered once its value is stored. */
  lemma KidAttributes(env: Env, id: ClassId, c: Node, st: Parse.State)
    requires id in env.table
    ensures
      var plain := Parse.AbsorbKid(env, id, c.(attrs := []), st);
      var f := Resolve(env, id, c.tag);
      f.Some? && Known(env, f.value.ty)
      && Parse.FromElement(env, f.value.ty, c) == Parse.FromElement(env, f.value.ty, c.(attrs := [])) && plain.Ok? ==>
        match Parse.AbsorbChildAttrs(env, id, c.attrs, plain.value.inst)
        case Err(x) => Parse.AbsorbKid(env, id, c, st) == Err(x)
        case Ok(inst) => Parse.AbsorbKid(env, id, c, st) == Ok(Parse.State(inst, plain.value.freq))
  {
    hide Parse.FromElement;
    assert forall inst :: Parse.AbsorbChildAttrs(env, id, [], inst) == Ok(inst);
  }

  /** What a child without attributes does: the value that it is read as replaces a plain member, and is added
      to the end of a repeated one; a read-only member stays; an error passes on. */
  lemma KidRead(env: Env, id: ClassId, c: Node, st: Parse.State, f: Field, held: seq<Value>)
    requires id in env.table && Resolve(env, id, c.tag) == Some(f) && Known(env, f.ty) && c.attrs == []
    requires f.name in st.inst ==> st.inst[f.name] == Null || st.inst[f.name] == List(held)
    requires f.name !in st.inst || st.inst[f.name] == Null ==> held == []
    ensures
      var at := AttrsOf(env, f.ty);
      match Parse.FromElement(env, f.ty, c)
      case Err(x) => Parse.AbsorbKid(env, id, c, st) == Err(x)
      case Ok(v) =>
        var after := Parse.AbsorbKid(env, id, c, st);
        && after.Ok?
        && after.value.inst ==
             (if at.readOnly then st.inst
              else if at.maxOccurs == Bounded(0) || at.maxOccurs == Bounded(1) then st.inst[f.name := v]
              else st.inst[f.name := List(held + [v])])
        && after.value.freq ==
             st.freq[c.tag.local := if c.tag.local in st.freq then st.freq[c.tag.local] + 1 else 1]
  {
    hide Parse.FromElement;
    var read := Parse.FromElement(env, f.ty, c);
    if read.Ok? {
      assert held == [] ==> held + [read.value] == [read.value];
      assert forall inst :: Parse.AbsorbChildAttrs(env, id, c.attrs, inst) == Ok(inst);
    }
  }

  /** An attribute of an element is read into the attribute field that it names, and into nothing else. */
  lemma AttributeRead(env: Env, id: ClassId, name: QName, text: string, inst: map<string, Value>)
    requires id in env.table
    ensures
      var read := Parse.AbsorbAttrs(env, id, [(name, text)], inst);
      match ResolveAttr(env, id, name)
      case None => read == Ok(inst)
      case Some(f) =>
        if !f.ty.Attribute? then read == Ok(inst)
        else if text == "" && f.ty.emptyIsNone then
          read == Ok(if f.ty.attrs.readOnly then inst else inst[f.name := Null])
        else match env.codec.decode(f.ty.kind, text)
          case None => read == Err(Parse.BadText)
          case Some(n) => read == Ok(if f.ty.attrs.readOnly then inst else inst[f.name := Prim(n)])
  {
    assert [(name, text)][..0] == [] && Parse.AbsorbAttrs(env, id, [], inst) == Ok(inst);
  }
}
