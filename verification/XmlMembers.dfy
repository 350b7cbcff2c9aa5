/** What one member adds to the element of its object, and what one child adds to the object that is read. */
module XmlMembers {
  import opened Wrappers
  import opened XmlSchema
  import opened XmlPrint
  import Parse = XmlParse
  import RT = XmlRoundTrip

  ghost predicate ItemsTyped(env: Env, ty: Type, items: seq<Value>) {
    forall i | 0 <= i < |items| :: WellTyped(env, ty, items[i])
  }

  /** Whether `to_parent` writes a child element for a value. */
  predicate Writes(env: Env, ty: Type, v: Value)
    requires WellTyped(env, ty, v)
  {
    && !ty.Attribute?
    && match v
       case Null => DefaultOf(ty) != Null ==> !ty.attrs.exc
       case Obj(cls, _) => !env.table[Target(env, ty.id, cls).0].attrs.exc
       case _ => !ty.attrs.exc
  }

  /** Whether a member writes no child element. */
  predicate Quiet(env: Env, f: Field, v: Value)
    requires FieldTyped(env, f, v)
  {
    var at := AttrsOf(env, f.ty);
    var sub := GetField(v, f.name);
    || at.exc
    || (if sub == Null then at.minOccurs == 0 || !Writes(env, f.ty, Null)
        else
          assert MemberTyped(env, f.ty, sub);
          if Many(at) then forall i | 0 <= i < |sub.items| :: !Writes(env, f.ty, sub.items[i])
          else !Writes(env, f.ty, sub))
  }

  ghost predicate AllQuiet(env: Env, own: seq<Field>, v: Value)
    requires OwnTyped(env, own, v)
  {
    forall i | 0 <= i < |own| :: assert FieldTyped(env, own[i], v); Quiet(env, own[i], v)
  }

  lemma ValueGrows(env: Env, ty: Type, v: Value, ns: Option<string>, name: string, e: Node)
    requires WellTyped(env, ty, v)
    ensures e.kids <= ToParent(env, ty, v, ns, name, e).kids
    ensures ToParent(env, ty, v, ns, name, e).kids == e.kids <==> !Writes(env, ty, v)
  {
    hide PrintLevel, PrintArray;
  }

  lemma {:induction false} ItemsGrow(env: Env, ty: Type, items: seq<Value>, ns: Option<string>, name: string, e: Node)
    requires ItemsTyped(env, ty, items)
    ensures e.kids <= PrintItems(env, ty, items, ns, name, e).kids
    ensures PrintItems(env, ty, items, ns, name, e).kids == e.kids
       <==> forall i | 0 <= i < |items| :: !Writes(env, ty, items[i])
  {
    hide WellTyped, ToParent, Writes;
    if items != [] {
      var last := |items| - 1;
      var before := PrintItems(env, ty, items[..last], ns, name, e);
      ItemsGrow(env, ty, items[..last], ns, name, e);
      ValueGrows(env, ty, items[last], ns, name, before);
      assert forall i | 0 <= i < last :: items[..last][i] == items[i];
    }
  }

  lemma MemberGrows(env: Env, ns: string, f: Field, v: Value, e: Node)
    requires FieldTyped(env, f, v)
    ensures e.kids <= PrintMember(env, ns, f, v, e).kids
    ensures PrintMember(env, ns, f, v, e).kids == e.kids <==> Quiet(env, f, v)
  {
    hide Writes;
    var at := AttrsOf(env, f.ty);
    var subNs, name := MemberNs(at, ns), MemberName(at, f.name);
    var sub := GetField(v, f.name);
    if at.exc {
    } else if sub == Null {
      ValueGrows(env, f.ty, Null, subNs, name, e);
    } else {
      assert MemberTyped(env, f.ty, sub);
      if Many(at) {
        ItemsGrow(env, f.ty, sub.items, subNs, name, e);
      } else {
        ValueGrows(env, f.ty, sub, subNs, name, e);
      }
    }
  }

  lemma {:induction false} OwnGrows(env: Env, ns: string, own: seq<Field>, v: Value, e: Node)
    requires OwnTyped(env, own, v)
    ensures e.kids <= PrintOwn(env, ns, own, v, e).kids
    ensures PrintOwn(env, ns, own, v, e).kids == e.kids <==> AllQuiet(env, own, v)
  {
    hide FieldTyped, PrintMember, Quiet;
    if own != [] {
      var last := |own| - 1;
      assert FieldTyped(env, own[last], v);
      OwnGrows(env, ns, own[..last], v, e);
      MemberGrows(env, ns, own[last], v, PrintOwn(env, ns, own[..last], v, e));
      if AllQuiet(env, own[..last], v) && Quiet(env, own[last], v) {
        forall i | 0 <= i < |own| ensures FieldTyped(env, own[i], v) && Quiet(env, own[i], v) {
          if i < last { assert own[..last][i] == own[i]; }
        }
      }
      if AllQuiet(env, own, v) {
        forall i | 0 <= i < last ensures FieldTyped(env, own[..last][i], v) && Quiet(env, own[..last][i], v) {
          assert own[..last][i] == own[i];
        }
        assert AllQuiet(env, own[..last], v);
      }
    }
  }

  // ---------- Children do not depend on the element ----------

  /** What is added to one element's children is added to the other's. */
  ghost predicate SameAdded(a: Node, b: Node, a1: Node, b1: Node) {
    exists added: seq<Node> :: a1.kids == a.kids + added && b1.kids == b.kids + added
  }

  lemma SameThen(a: Node, b: Node, a1: Node, b1: Node, a2: Node, b2: Node)
    requires SameAdded(a, b, a1, b1) && SameAdded(a1, b1, a2, b2)
    ensures SameAdded(a, b, a2, b2)
  {
    var x :| a1.kids == a.kids + x && b1.kids == b.kids + x;
    var y :| a2.kids == a1.kids + y && b2.kids == b1.kids + y;
    assert a2.kids == a.kids + (x + y) && b2.kids == b.kids + (x + y);
  }

  lemma SameCancels(a: Node, b: Node, a1: Node, b1: Node)
    requires SameAdded(a, b, a1, b1)
    ensures a1.kids == b1.kids <==> a.kids == b.kids
  {
    var x :| a1.kids == a.kids + x && b1.kids == b.kids + x;
    if a1.kids == b1.kids {
      assert a.kids == a1.kids[..|a.kids|] && b.kids == b1.kids[..|b.kids|];
    }
  }

  lemma NothingAdded(a: Node, b: Node)
    ensures SameAdded(a, b, a, b)
  {
    assert a.kids == a.kids + [] && b.kids == b.kids + [];
  }

  lemma OneAdded(a: Node, b: Node, kid: Node)
    ensures SameAdded(a, b, Append(a, kid), Append(b, kid))
  {
  }

  lemma ValueAdds(env: Env, ty: Type, v: Value, ns: Option<string>, name: string, a: Node, b: Node)
    requires WellTyped(env, ty, v)
    ensures SameAdded(a, b, ToParent(env, ty, v, ns, name, a), ToParent(env, ty, v, ns, name, b))
  {
    hide PrintLevel, PrintArray, SameAdded;
    forall x: Node, y: Node | x.kids == a.kids && y.kids == b.kids ensures SameAdded(a, b, x, y) {
      UnchangedKids(a, b, x, y);
    }
    forall kid { OneAdded(a, b, kid); }
  }

  lemma UnchangedKids(a: Node, b: Node, x: Node, y: Node)
    requires x.kids == a.kids && y.kids == b.kids
    ensures SameAdded(a, b, x, y)
  {
    assert x.kids == a.kids + [] && y.kids == b.kids + [];
  }

  lemma {:induction false} ItemsAdd(env: Env, ty: Type, items: seq<Value>, ns: Option<string>, name: string,
      a: Node, b: Node)
    requires ItemsTyped(env, ty, items)
    ensures SameAdded(a, b, PrintItems(env, ty, items, ns, name, a), PrintItems(env, ty, items, ns, name, b))
  {
    hide WellTyped, ToParent, SameAdded;
    if items == [] {
      NothingAdded(a, b);
    } else {
      var front, last := items[..|items| - 1], items[|items| - 1];
      var x, y := PrintItems(env, ty, front, ns, name, a), PrintItems(env, ty, front, ns, name, b);
      ItemsAdd(env, ty, front, ns, name, a, b);
      ValueAdds(env, ty, last, ns, name, x, y);
      SameThen(a, b, x, y, ToParent(env, ty, last, ns, name, x), ToParent(env, ty, last, ns, name, y));
    }
  }

  lemma MemberAdds(env: Env, ns: string, f: Field, v: Value, a: Node, b: Node)
    requires FieldTyped(env, f, v)
    ensures SameAdded(a, b, PrintMember(env, ns, f, v, a), PrintMember(env, ns, f, v, b))
  {
    hide SameAdded;
    NothingAdded(a, b);
    var at := AttrsOf(env, f.ty);
    var subNs, name := MemberNs(at, ns), MemberName(at, f.name);
    var sub := GetField(v, f.name);
    ValueAdds(env, f.ty, Null, subNs, name, a, b);
    if sub != Null {
      assert MemberTyped(env, f.ty, sub);
      if Many(at) {
        ItemsAdd(env, f.ty, sub.items, subNs, name, a, b);
      } else {
        ValueAdds(env, f.ty, sub, subNs, name, a, b);
      }
    }
  }

  lemma {:induction false} OwnAdds(env: Env, ns: string, own: seq<Field>, v: Value, a: Node, b: Node)
    requires OwnTyped(env, own, v)
    ensures SameAdded(a, b, PrintOwn(env, ns, own, v, a), PrintOwn(env, ns, own, v, b))
  {
    hide FieldTyped, PrintMember, SameAdded;
    if own == [] {
      NothingAdded(a, b);
    } else {
      var front, last := own[..|own| - 1], own[|own| - 1];
      assert FieldTyped(env, last, v);
      var x, y := PrintOwn(env, ns, front, v, a), PrintOwn(env, ns, front, v, b);
      OwnAdds(env, ns, front, v, a, b);
      MemberAdds(env, ns, last, v, x, y);
      SameThen(a, b, x, y, PrintMember(env, ns, last, v, x), PrintMember(env, ns, last, v, y));
    }
  }

  // ---------- Which children ----------

  /** The children that a member writes. */
  function Copies(env: Env, f: Field, v: Value): nat
    requires FieldTyped(env, f, v)
  {
    var at := AttrsOf(env, f.ty);
    var sub := GetField(v, f.name);
    if at.exc then 0
    else if sub == Null then (if at.minOccurs > 0 && Writes(env, f.ty, Null) then 1 else 0)
    else
      assert MemberTyped(env, f.ty, sub);
      if Many(at) then CopiesOf(env, f.ty, sub.items) else if Writes(env, f.ty, sub) then 1 else 0
  }

  function CopiesOf(env: Env, ty: Type, items: seq<Value>): nat
    requires ItemsTyped(env, ty, items)
  {
    if items == [] then 0
    else
      var last := |items| - 1;
      CopiesOf(env, ty, items[..last]) + if Writes(env, ty, items[last]) then 1 else 0
  }

  /** `n` children of the same name are added. */
  ghost predicate Named(before: Node, after: Node, name: QName, n: nat) {
    && before.kids <= after.kids && |after.kids| == |before.kids| + n
    && forall i | |before.kids| <= i < |after.kids| :: after.kids[i].tag == name
  }

  lemma {:induction false} ItemsTag(env: Env, ty: Type, items: seq<Value>, ns: Option<string>, name: string, e: Node)
    requires ItemsTyped(env, ty, items)
    ensures PrintItems(env, ty, items, ns, name, e).tag == e.tag
  {
    hide WellTyped;
    if items != [] { ItemsTag(env, ty, items[..|items| - 1], ns, name, e); }
  }

  lemma MemberTag(env: Env, ns: string, f: Field, v: Value, e: Node)
    requires FieldTyped(env, f, v)
    ensures PrintMember(env, ns, f, v, e).tag == e.tag
  {
    var at := AttrsOf(env, f.ty);
    if f.name in v.fields {
      assert MemberTyped(env, f.ty, v.fields[f.name]);
      if Many(at) && v.fields[f.name].List? {
        ItemsTag(env, f.ty, v.fields[f.name].items, MemberNs(at, ns), MemberName(at, f.name), e);
      }
    }
  }

  lemma ArrayTag(env: Env, ty: Type, v: Value, e: Node)
    requires v.List? && WellTyped(env, ty, v)
    ensures PrintArray(env, ty, v, e).tag == e.tag
  {
    var at := AttrsOf(env, ty.item);
    ItemsTag(env, ty.item, v.items, MemberNs(at, ty.ns), MemberName(at, ty.member), e);
  }

  lemma {:induction false} OwnTag(env: Env, ns: string, own: seq<Field>, v: Value, e: Node)
    requires OwnTyped(env, own, v)
    ensures PrintOwn(env, ns, own, v, e).tag == e.tag
  {
    hide FieldTyped, PrintMember;
    if own != [] {
      var last := |own| - 1;
      assert FieldTyped(env, own[last], v);
      OwnTag(env, ns, own[..last], v, e);
      MemberTag(env, ns, own[last], v, PrintOwn(env, ns, own[..last], v, e));
    }
  }

  lemma {:induction false} LevelTag(env: Env, level: Level, v: Value, e: Node)
    requires LevelTyped(env, level, v)
    ensures PrintLevel(env, level, v, e).tag == e.tag
    decreases level
  {
    match level
    case Top =>
    case Level(parent, ns, own) =>
      LevelTag(env, parent, v, e);
      OwnTag(env, ns, own, v, PrintLevel(env, parent, v, e));
  }

  /** A class that is written in place of a declared one has no other element name. */
  ghost predicate Plain(env: Env, ty: Type) {
    ty.Class? && ty.id in env.table ==>
      forall cls: ClassId | Target(env, ty.id, cls).1 && Target(env, ty.id, cls).0 in env.table ::
        var d := env.table[Target(env, ty.id, cls).0];
        d.attrs.subName == None && d.attrs.subNs == None
  }

  /** As every schema that can be read back has it. */
  lemma SchemaPlain(env: Env, ty: Type)
    requires RT.SchemaOk(env)
    ensures Plain(env, ty)
  {
    if ty.Class? && ty.id in env.table {
      forall cls: ClassId | Target(env, ty.id, cls).1 ensures RT.Registered(env, Target(env, ty.id, cls).0) {}
    }
  }

  lemma ValueNamed(env: Env, ty: Type, v: Value, ns: Option<string>, name: string, e: Node)
    requires Plain(env, ty) && WellTyped(env, ty, v) && Tag(AttrsOf(env, ty), ns, name) == QName(ns, name)
    ensures Named(e, ToParent(env, ty, v, ns, name, e), QName(ns, name), if Writes(env, ty, v) then 1 else 0)
  {
    hide PrintLevel, PrintArray, Named, LevelTyped;
    forall kid: Node ensures Named(e, Append(e, kid), kid.tag, 1) { AppendNamed(e, kid); }
    forall x: Node | x.kids == e.kids ensures Named(e, x, QName(ns, name), 0) { NotNamed(e, x, QName(ns, name)); }
    match v
    case Null =>
    case Prim(_) =>
    case List(_) =>
      var elt := Node(Tag(ty.attrs, ns, name), [], "", []);
      ArrayTag(env, ty, v, elt);
    case Obj(cls, _) =>
      var (id, addType) := Target(env, ty.id, cls);
      var elt := Node(Tag(env.table[id].attrs, ns, name), if addType then TypeAttr(env, id) else [], "", []);
      LevelTag(env, env.table[id].level, v, elt);
  }

  lemma NotNamed(e: Node, x: Node, name: QName)
    requires x.kids == e.kids
    ensures Named(e, x, name, 0)
  {
  }

  lemma AppendNamed(e: Node, kid: Node)
    ensures Named(e, Append(e, kid), kid.tag, 1)
  {
  }

  lemma {:induction false} ItemsNamed(env: Env, ty: Type, items: seq<Value>, ns: Option<string>, name: string, e: Node)
    requires Plain(env, ty) && Known(env, ty) && ItemsTyped(env, ty, items)
    requires Tag(AttrsOf(env, ty), ns, name) == QName(ns, name)
    ensures Named(e, PrintItems(env, ty, items, ns, name, e), QName(ns, name), CopiesOf(env, ty, items))
  {
    hide Plain, WellTyped, ToParent, Writes;
    if items != [] {
      var last := |items| - 1;
      ItemsNamed(env, ty, items[..last], ns, name, e);
      ValueNamed(env, ty, items[last], ns, name, PrintItems(env, ty, items[..last], ns, name, e));
    }
  }

  /** A member adds as many children as it has values that are written, after those that are there, and all
      of them under the member's own name in the member's own namespace. */
  lemma MemberNamed(env: Env, ns: string, f: Field, v: Value, e: Node)
    requires Plain(env, f.ty) && FieldTyped(env, f, v)
    ensures
      var at := AttrsOf(env, f.ty);
      Named(e, PrintMember(env, ns, f, v, e), QName(MemberNs(at, ns), MemberName(at, f.name)), Copies(env, f, v))
  {
    hide Plain, Writes;
    var at := AttrsOf(env, f.ty);
    var subNs, name := MemberNs(at, ns), MemberName(at, f.name);
    var sub := GetField(v, f.name);
    ValueNamed(env, f.ty, Null, subNs, name, e);
    if sub != Null {
      assert MemberTyped(env, f.ty, sub);
      if Many(at) {
        ItemsNamed(env, f.ty, sub.items, subNs, name, e);
      } else {
        ValueNamed(env, f.ty, sub, subNs, name, e);
      }
    }
  }

  // ---------- Substitution ----------

  /** `xsi:type` is written exactly for an instance of another class that derives from the declared one,
      under a polymorphic protocol; then the class is registered, and the attribute is read as that class. */
  lemma SubstitutedExactly(env: Env, id: ClassId, cls: ClassId, e: Node)
    requires RT.SchemaOk(env) && id in env.table
    requires e.attrs == (if Target(env, id, cls).1 then TypeAttr(env, Target(env, id, cls).0) else [])
    ensures Target(env, id, cls).1 <==>
      env.polymorphic && cls in env.table && OrigOf(env, id) in env.table[cls].bases && cls != OrigOf(env, id)
    ensures Target(env, id, cls).1 ==> RT.Registered(env, Target(env, id, cls).0)
    ensures Parse.XsiClass(env, Class(id), e) == Ok(Class(Target(env, id, cls).0))
  {
    var (target, addType) := Target(env, id, cls);
    if addType {
      assert RT.Registered(env, target);
      var d := env.table[target];
      RT.ColonSplits(env.prefmap[d.ns], d.typeName);
      assert e.attrs[0] == TypeAttr(env, target)[0];
    }
  }

  // ---------- Reading one child ----------

  predicate SameAt(a: map<string, Value>, b: map<string, Value>, k: string) {
    (k in a <==> k in b) && (k in a ==> a[k] == b[k])
  }

  /** Some attribute of the child is taken for field `k`. */
  predicate Offered(env: Env, id: ClassId, attrs: seq<(QName, string)>, k: string)
    requires id in env.table
  {
    exists i | 0 <= i < |attrs| ::
      ResolveAttr(env, id, attrs[i].0).Some? && ResolveAttr(env, id, attrs[i].0).value.name == k
  }

  lemma OfferedFront(env: Env, id: ClassId, attrs: seq<(QName, string)>, k: string)
    requires id in env.table && attrs != []
    ensures Offered(env, id, attrs[..|attrs| - 1], k) ==> Offered(env, id, attrs, k)
  {
    var front := attrs[..|attrs| - 1];
    if Offered(env, id, front, k) {
      var i :| 0 <= i < |front| && ResolveAttr(env, id, front[i].0).Some?
               && ResolveAttr(env, id, front[i].0).value.name == k;
      assert attrs[i] == front[i];
    }
  }

  lemma {:induction false} OfferedOnly(env: Env, id: ClassId, attrs: seq<(QName, string)>, inst: map<string, Value>, k: string)
    requires id in env.table && Parse.AbsorbChildAttrs(env, id, attrs, inst).Ok? && !Offered(env, id, attrs, k)
    ensures SameAt(inst, Parse.AbsorbChildAttrs(env, id, attrs, inst).value, k)
  {
    if attrs != [] {
      OfferedFront(env, id, attrs, k);
      OfferedOnly(env, id, attrs[..|attrs| - 1], inst, k);
      assert ResolveAttr(env, id, attrs[|attrs| - 1].0).Some? ==> ResolveAttr(env, id, attrs[|attrs| - 1].0).value.name != k;
    }
  }

  /** A child is counted under its local name and touches the field it resolves to, and those that its
      attributes are taken for; an unknown child is counted and changes nothing. */
  lemma ChildTouches(env: Env, id: ClassId, c: Node, st: Parse.State, k: string)
    requires id in env.table && Parse.AbsorbKid(env, id, c, st).Ok?
    ensures
      var after := Parse.AbsorbKid(env, id, c, st).value;
      var f := Resolve(env, id, c.tag);
      && Parse.Count(after.freq, k) == Parse.Count(st.freq, k) + (if k == c.tag.local then 1 else 0)
      && (f.None? ==> after.inst == st.inst)
      && (f.Some? && k != f.value.name && !Offered(env, id, c.attrs, k) ==> SameAt(st.inst, after.inst, k))
  {
    hide Parse.FromElement, Resolve;
    var f := Resolve(env, id, c.tag);
    if f.Some? && k != f.value.name && !Offered(env, id, c.attrs, k) {
      var v := Parse.FromElement(env, f.value.ty, c).value;
      var inst := Parse.Store(env, st.inst, f.value, v).value;
      OfferedOnly(env, id, c.attrs, inst, k);
    }
  }
}
