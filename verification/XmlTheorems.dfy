/** What a client and a server may rely on. */
module XmlTheorems {
  import opened Wrappers
  import opened XmlSchema
  import opened XmlPrint
  import opened XmlParse
  import opened XmlRoundTrip

  /** The round trip: writing adds one element, and reading that element gives the canonical form. */
  lemma RoundTrip(env: Env, ty: Type, v: Value, ns: Option<string>, name: string, parent: Node)
    requires SchemaOk(env) && !env.soft && TypeOk(env, ty) && WellTyped(env, ty, v) && Shown(env, ty, v)
    ensures
      var written := ToParent(env, ty, v, ns, name, parent);
      && |written.kids| == |parent.kids| + 1
      && written == Append(parent, written.kids[|parent.kids|])
      && FromElement(env, ty, written.kids[|parent.kids|]) == Ok(Canon(env, ty, v))
  {
    Adds(env, ty, v, ns, name, parent);
    ReadBack(env, ty, v, ns, name);
  }

  /** The class of an object survives exactly when it is the declared one, or when the protocol is
      polymorphic, the class derives from the declared one and `polymap` does not replace it. */
  lemma ClassSurvives(env: Env, ty: Type, v: Value, ns: Option<string>, name: string)
    requires SchemaOk(env) && !env.soft && TypeOk(env, ty) && WellTyped(env, ty, v) && Shown(env, ty, v)
    requires v.Obj? && v.cls in env.table && env.table[v.cls].orig == None
    ensures
      var read := FromElement(env, ty, NodeOf(env, ty, v, ns, name));
      var declared := OrigOf(env, ty.id);
      && read.Ok? && read.value.Obj?
      && (read.value.cls == v.cls <==>
            || v.cls == declared
            || (env.polymorphic && declared in env.table[v.cls].bases
                && (v.cls in env.table[ty.id].polymap ==>
                      OrigOf(env, env.table[ty.id].polymap[v.cls]) == v.cls)))
  {
    ReadBack(env, ty, v, ns, name);
  }

  // ---------- Which values come back unchanged ----------

  /** A text that reads back as `None`. */
  predicate TextLost(env: Env, ty: Type, n: Native) {
    && (ty.Leaf? || ty.Attribute?)
    && env.codec.encode(ty.kind, n) == ""
    && (ty.emptyIsNone || (ty.Leaf? && !ty.unicode))
  }

  /** Whether anything is written for a member that holds `sub`, and taken when read. */
  predicate Carried(env: Env, ty: Type, sub: Value)
    requires Known(env, ty)
  {
    var at := AttrsOf(env, ty);
    && !at.exc && !at.readOnly
    && if sub == Null then at.minOccurs > 0 && !(ty.Attribute? && ty.default == None)
       else !(Many(at) && sub == List([]))
  }

  predicate FieldKept(env: Env, id: ClassId, v: Value, k: string)
    requires v.Obj? && Known(env, Class(id))
    decreases v, 0
  {
    var init := InitFields(env, OrigOf(env, id));
    var flat := FlatOf(env, id);
    var sub := GetField(v, k);
    if k in flat && Known(env, flat[k]) && Carried(env, flat[k], sub) then
      && k in v.fields
      && if Many(AttrsOf(env, flat[k])) then
           sub.List? && forall i | 0 <= i < |sub.items| :: Kept(env, flat[k], sub.items[i])
         else if sub == Null then KeptNull(env, flat[k]) else Kept(env, flat[k], sub)
    else
      (k in v.fields <==> k in init) && (k in init ==> v.fields[k] == init[k])
  }

  predicate KeptNull(env: Env, ty: Type) {
    match DefaultOf(ty)
    case Prim(d) => TextLost(env, ty, d)
    case _ => true
  }

  /** Nothing in the value is defaulted, dropped, sliced off or confused with `None`. */
  predicate Kept(env: Env, ty: Type, v: Value)
    decreases v, 1
  {
    match v
    case Null => KeptNull(env, ty)
    case Prim(n) => !TextLost(env, ty, n)
    case List(items) =>
      && ty.Array? && Known(env, ty)
      && (AttrsOf(env, ty.item).exc ==> items == [])
      && (forall i | 0 <= i < |items| :: Kept(env, ty.item, items[i]))
    case Obj(cls, fields) =>
      && ty.Class? && Known(env, ty) && Known(env, Class(Target(env, ty.id, cls).0))
      && var id := Target(env, ty.id, cls).0;
         && OrigOf(env, id) == cls
         && forall k | k in InitFields(env, OrigOf(env, id)).Keys + FlatOf(env, id).Keys + fields.Keys ::
              FieldKept(env, id, v, k)
  }

  lemma {:induction false} CanonItemsAt(env: Env, ty: Type, items: seq<Value>)
    ensures |CanonItems(env, ty, items)| == |items|
    ensures forall i | 0 <= i < |items| :: CanonItems(env, ty, items)[i] == Canon(env, ty, items[i])
  {
    if items != [] {
      CanonItemsAt(env, ty, items[..|items| - 1]);
    }
  }

  lemma {:induction false} OwnFlatTyped(env: Env, own: seq<Field>, v: Value, k: string)
    requires OwnTyped(env, own, v) && k in OwnMap(own)
    ensures FieldTyped(env, Field(k, OwnMap(own)[k]), v)
  {
    var last := own[|own| - 1];
    if last.name == k {
      assert FieldTyped(env, last, v) && last == Field(k, OwnMap(own)[k]);
    } else {
      assert OwnTyped(env, own[..|own| - 1], v);
      OwnFlatTyped(env, own[..|own| - 1], v, k);
    }
  }

  lemma {:induction false} FlatTyped(env: Env, level: Level, v: Value, k: string)
    requires v.Obj? && LevelTyped(env, level, v) && k in Flat(level)
    ensures FieldTyped(env, Field(k, Flat(level)[k]), v)
    decreases level
  {
    match level
    case Level(parent, _, own) =>
      if k in OwnMap(own) {
        OwnFlatTyped(env, own, v, k);
      } else {
        FlatTyped(env, parent, v, k);
      }
  }

  lemma {:induction false} ItemsKept(env: Env, ty: Type, items: seq<Value>)
    requires forall i | 0 <= i < |items| :: WellTyped(env, ty, items[i])
    ensures CanonItems(env, ty, items) == items <==> forall i | 0 <= i < |items| :: Kept(env, ty, items[i])
    decreases items, 0
  {
    CanonItemsAt(env, ty, items);
    forall i | 0 <= i < |items| { CanonIsKept(env, ty, items[i]); }
  }

  predicate AgreeAt(a: map<string, Value>, b: map<string, Value>, k: string) {
    (k in a <==> k in b) && (k in a ==> a[k] == b[k])
  }

  lemma SameMap(a: map<string, Value>, b: map<string, Value>)
    requires forall k: string :: AgreeAt(a, b, k)
    ensures a == b
  {
    forall k: string ensures k in a <==> k in b { assert AgreeAt(a, b, k); }
    forall k | k in a ensures a[k] == b[k] { assert AgreeAt(a, b, k); }
  }

  /** The canonical fields agree with the value's own on field `k` exactly when that field is kept. */
  lemma {:induction false} FieldIsKept(env: Env, id: ClassId, v: Value, k: string)
    requires v.Obj? && Known(env, Class(id)) && LevelTyped(env, env.table[id].level, v)
    ensures FieldKept(env, id, v, k) <==> AgreeAt(CanonFields(env, id, v), v.fields, k)
    decreases v, 0
  {
    hide Canon, Kept, WellTyped, CanonItems;
    var flat := FlatOf(env, id);
    if k in flat {
      FlatTyped(env, env.table[id].level, v, k);
      var at := AttrsOf(env, flat[k]);
      if k in v.fields && v.fields[k] != Null {
        var sub := v.fields[k];
        assert MemberTyped(env, flat[k], sub);
        if Many(at) {
          ItemsKept(env, flat[k], sub.items);
        } else {
          CanonIsKept(env, flat[k], sub);
        }
      }
    }
  }

  lemma {:induction false} CanonIsKept(env: Env, ty: Type, v: Value)
    requires WellTyped(env, ty, v)
    ensures Canon(env, ty, v) == v <==> Kept(env, ty, v)
    decreases v, 1
  {
    match v
    case Null =>
    case Prim(_) =>
    case List(items) => ItemsKept(env, ty.item, items);
    case Obj(cls, fields) =>
      var id := Target(env, ty.id, cls).0;
      forall k: string { FieldIsKept(env, id, v, k); }
      FieldsAgree(env, id, v);
  }

  lemma FieldsAgree(env: Env, id: ClassId, v: Value)
    requires v.Obj? && Known(env, Class(id))
    requires forall k: string ::
      FieldKept(env, id, v, k) <==> AgreeAt(CanonFields(env, id, v), v.fields, k)
    ensures CanonFields(env, id, v) == v.fields <==>
      forall k | k in InitFields(env, OrigOf(env, id)).Keys + FlatOf(env, id).Keys + v.fields.Keys ::
        FieldKept(env, id, v, k)
  {
    var canon := CanonFields(env, id, v);
    var all := InitFields(env, OrigOf(env, id)).Keys + FlatOf(env, id).Keys + v.fields.Keys;
    if forall k | k in all :: FieldKept(env, id, v, k) {
      forall k: string ensures AgreeAt(canon, v.fields, k) {
        if k in all { assert FieldKept(env, id, v, k); }
      }
      SameMap(canon, v.fields);
    }
  }

  /** A value comes back unchanged exactly when it is `Kept`. */
  lemma LosslessExactly(env: Env, ty: Type, v: Value, ns: Option<string>, name: string)
    requires SchemaOk(env) && !env.soft && TypeOk(env, ty) && WellTyped(env, ty, v) && Shown(env, ty, v)
    ensures FromElement(env, ty, NodeOf(env, ty, v, ns, name)) == Ok(v) <==> Kept(env, ty, v)
  {
    ReadBack(env, ty, v, ns, name);
    CanonIsKept(env, ty, v);
  }
}
