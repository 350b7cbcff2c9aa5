/** Soft validation: what it checks, and that it changes nothing else. */
module XmlSoft {
  import opened Wrappers
  import opened XmlSchema
  import opened XmlPrint
  import opened XmlParse
  import opened XmlRoundTrip

  /** The number of children whose tag has the local part `k`. */
  function CountTag(kids: seq<Node>, k: string): nat {
    if kids == [] then 0
    else CountTag(kids[..|kids| - 1], k) + if kids[|kids| - 1].tag.local == k then 1 else 0
  }

  lemma {:induction false} FrequenciesCount(env: Env, id: ClassId, kids: seq<Node>, st: State, k: string)
    requires id in env.table && AbsorbKids(env, id, kids, st).Ok?
    ensures Count(AbsorbKids(env, id, kids, st).value.freq, k) == Count(st.freq, k) + CountTag(kids, k)
  {
    if kids != [] {
      FrequenciesCount(env, id, kids[..|kids| - 1], st, k);
    }
  }

  /** Provided that no single member is refused, an object is accepted exactly when every field occurs,
      counted by elements with the field's own name, as often as its type allows. */
  lemma SoftValidationExact(env: Env, id: ClassId, e: Node)
    requires env.soft && Known(env, Class(id))
    requires forall k | k in FlatOf(env, id) :: Known(env, FlatOf(env, id)[k])
    requires
      var kids := AbsorbKids(env, id, e.kids, State(InitFields(env, OrigOf(env, id)), map[]));
      kids.Ok? && AbsorbAttrs(env, id, e.attrs, kids.value.inst).Ok?
    ensures FromComplex(env, id, e).Ok? <==>
      forall k | k in FlatOf(env, id) ::
        var at := AttrsOf(env, FlatOf(env, id)[k]);
        && at.minOccurs <= CountTag(e.kids, k)
        && (at.maxOccurs.Bounded? ==> CountTag(e.kids, k) <= at.maxOccurs.n)
    ensures FromComplex(env, id, e).Err? ==> FromComplex(env, id, e).error == FrequencyError
  {
    var st0 := State(InitFields(env, OrigOf(env, id)), map[]);
    forall k { FrequenciesCount(env, id, e.kids, st0, k); }
  }

  /** A required field that is written under another name, or as an attribute, is counted as missing:
      such an object is never accepted. */
  lemma RequiredAliasRefused(env: Env, id: ClassId, e: Node, k: string)
    requires env.soft && Known(env, Class(id))
    requires k in FlatOf(env, id) && Known(env, FlatOf(env, id)[k])
    requires AttrsOf(env, FlatOf(env, id)[k]).minOccurs > 0
    requires forall i | 0 <= i < |e.kids| :: e.kids[i].tag.local != k
    ensures FromComplex(env, id, e).Err?
  {
    var st := AbsorbKids(env, id, e.kids, State(InitFields(env, OrigOf(env, id)), map[]));
    if st.Ok? {
      FrequenciesCount(env, id, e.kids, State(InitFields(env, OrigOf(env, id)), map[]), k);
      NoneCounted(e.kids, k);
    }
  }

  lemma {:induction false} NoneCounted(kids: seq<Node>, k: string)
    requires forall i | 0 <= i < |kids| :: kids[i].tag.local != k
    ensures CountTag(kids, k) == 0
  {
    if kids != [] {
      NoneCounted(kids[..|kids| - 1], k);
    }
  }

  // ---------- Soft validation only refuses ----------

  function Lax(env: Env): Env {
    env.(soft := false)
  }

  lemma {:induction false} LaxTypes(env: Env, ty: Type)
    ensures Known(Lax(env), ty) == Known(env, ty)
    ensures Known(env, ty) ==> AttrsOf(Lax(env), ty) == AttrsOf(env, ty)
  {
    if ty.Array? { LaxTypes(env, ty.item); }
  }

  lemma LaxLookups(env: Env, id: ClassId)
    requires id in env.table
    ensures FlatOf(Lax(env), id) == FlatOf(env, id)
    ensures OrigOf(Lax(env), id) == OrigOf(env, id)
    ensures forall tag: QName :: Resolve(Lax(env), id, tag) == Resolve(env, id, tag)
    ensures forall name: QName :: ResolveAttr(Lax(env), id, name) == ResolveAttr(env, id, name)
  {
  }

  lemma {:induction false} LaxAttrs(env: Env, id: ClassId, attrs: seq<(QName, string)>, inst: map<string, Value>)
    requires id in env.table
    ensures AbsorbAttrs(Lax(env), id, attrs, inst) == AbsorbAttrs(env, id, attrs, inst)
    ensures AbsorbChildAttrs(Lax(env), id, attrs, inst) == AbsorbChildAttrs(env, id, attrs, inst)
  {
    hide Resolve, ResolveAttr, Flat;
    LaxLookups(env, id);
    if attrs != [] {
      LaxAttrs(env, id, attrs[..|attrs| - 1], inst);
    }
  }

  lemma {:induction false} LaxKids(env: Env, id: ClassId, kids: seq<Node>, st: State)
    requires id in env.table && AbsorbKids(env, id, kids, st).Ok?
    ensures AbsorbKids(Lax(env), id, kids, st) == AbsorbKids(env, id, kids, st)
    decreases kids, 1
  {
    if kids != [] {
      var last := |kids| - 1;
      LaxKids(env, id, kids[..last], st);
      var st1 := AbsorbKids(env, id, kids[..last], st).value;
      LaxLookups(env, id);
      match Resolve(env, id, kids[last].tag)
      case None =>
      case Some(f) =>
        LaxTypes(env, f.ty);
        SoftOnlyRefuses(env, f.ty, kids[last]);
        var v := FromElement(env, f.ty, kids[last]).value;
        LaxAttrs(env, id, kids[last].attrs, Store(env, st1.inst, f, v).value);
        assert Store(Lax(env), st1.inst, f, v) == Store(env, st1.inst, f, v);
    }
  }

  lemma {:induction false} LaxItems(env: Env, ty: Type, kids: seq<Node>)
    requires FromItems(env, ty, kids).Ok?
    ensures FromItems(Lax(env), ty, kids) == FromItems(env, ty, kids)
    decreases kids, 0
  {
    if kids != [] {
      LaxItems(env, ty, kids[..|kids| - 1]);
      SoftOnlyRefuses(env, ty, kids[|kids| - 1]);
    }
  }

  /** Whatever soft validation accepts is what would have been read without it. */
  lemma {:induction false} SoftOnlyRefuses(env: Env, ty: Type, e: Node)
    requires FromElement(env, ty, e).Ok?
    ensures FromElement(Lax(env), ty, e) == FromElement(env, ty, e)
    decreases e, 4
  {
    if !IsNil(e) {
      assert XsiClass(Lax(env), ty, e) == XsiClass(env, ty, e);
      var target := XsiClass(env, ty, e).value;
      LaxTypes(env, target);
      match target
      case Leaf(_, _, _, _, _) =>
      case Attribute(_, _, _, _, _) =>
      case Array(_, _, item, _) => LaxItems(env, item, e.kids);
      case Class(id) =>
        LaxLookups(env, id);
        assert Handle(env, target, e) == FromComplex(env, id, e);
        assert Handle(Lax(env), target, e) == FromComplex(Lax(env), id, e);
        var st0 := State(InitFields(env, OrigOf(env, id)), map[]);
        assert InitFields(Lax(env), OrigOf(env, id)) == InitFields(env, OrigOf(env, id));
        LaxKids(env, id, e.kids, st0);
        LaxAttrs(env, id, e.attrs, AbsorbKids(env, id, e.kids, st0).value.inst);
    }
  }

  // ---------- What soft validation accepts ----------

  /** Nil only where it is allowed, texts and values that their validators take, and of every field of an
      object as many elements as its type allows, all of them fine. */
  predicate Fine(env: Env, ty: Type, e: Node)
    decreases e, 4
  {
    if IsNil(e) then Known(env, ty) ==> AttrsOf(env, ty).nillable
    else match XsiClass(env, ty, e)
      case Err(_) => false
      case Ok(target) => Known(env, target) && FineAs(env, target, e)
  }

  predicate FineAs(env: Env, ty: Type, e: Node)
    requires Known(env, ty)
    decreases e, 3
  {
    match ty
    case Array(_, _, item, _) => forall i | 0 <= i < |e.kids| :: Fine(env, item, e.kids[i])
    case Class(id) =>
      && (forall i | 0 <= i < |e.kids| :: FineKid(env, id, e.kids[i]))
      && (forall k | k in FlatOf(env, id) && Known(env, FlatOf(env, id)[k]) ::
            var at := AttrsOf(env, FlatOf(env, id)[k]);
            at.minOccurs <= CountTag(e.kids, k) && AtMost(CountTag(e.kids, k), at.maxOccurs))
    case _ => FineLeaf(env, ty, e)
  }

  predicate FineKid(env: Env, id: ClassId, e: Node)
    requires id in env.table
    decreases e, 5
  {
    match Resolve(env, id, e.tag)
    case None => true
    case Some(f) => Fine(env, f.ty, e)
  }

  predicate FineLeaf(env: Env, ty: Type, e: Node)
    requires ty.Leaf? || ty.Attribute?
  {
    var read := LeafFromElement(Lax(env), ty, e);
    && env.codec.validString(ty.kind, TextOf(e))
    && (read.Ok? ==> env.codec.validNative(ty.kind, if read.value.Prim? then Some(read.value.n) else None))
  }

  lemma KidAccepted(env: Env, id: ClassId, c: Node, st: State)
    requires env.soft && id in env.table && AbsorbKid(Lax(env), id, c, st).Ok?
    ensures AbsorbKid(env, id, c, st).Ok? <==> FineKid(env, id, c)
    decreases c, 5
  {
    hide Resolve, ResolveAttr, Flat;
    LaxLookups(env, id);
    match Resolve(env, id, c.tag)
    case None =>
    case Some(f) =>
      LaxTypes(env, f.ty);
      SoftAcceptsExactly(env, f.ty, c);
      if FromElement(env, f.ty, c).Ok? {
        SoftOnlyRefuses(env, f.ty, c);
        var v := FromElement(env, f.ty, c).value;
        assert Store(Lax(env), st.inst, f, v) == Store(env, st.inst, f, v);
        LaxAttrs(env, id, c.attrs, Store(env, st.inst, f, v).value);
      }
  }

  lemma {:induction false} KidsAccepted(env: Env, id: ClassId, kids: seq<Node>, st: State)
    requires env.soft && id in env.table && AbsorbKids(Lax(env), id, kids, st).Ok?
    ensures AbsorbKids(env, id, kids, st).Ok? <==> forall i | 0 <= i < |kids| :: FineKid(env, id, kids[i])
    decreases kids, 1
  {
    hide AbsorbKid, FineKid;
    if kids != [] {
      var last := |kids| - 1;
      KidsAccepted(env, id, kids[..last], st);
      if AbsorbKids(env, id, kids[..last], st).Ok? {
        LaxKids(env, id, kids[..last], st);
        KidAccepted(env, id, kids[last], AbsorbKids(env, id, kids[..last], st).value);
        assert forall i | 0 <= i < last :: kids[..last][i] == kids[i];
      } else {
        var i :| 0 <= i < last && !FineKid(env, id, kids[..last][i]);
        assert !FineKid(env, id, kids[i]);
      }
    }
  }

  lemma {:induction false} ItemsAccepted(env: Env, ty: Type, kids: seq<Node>)
    requires env.soft && FromItems(Lax(env), ty, kids).Ok?
    ensures FromItems(env, ty, kids).Ok? <==> forall i | 0 <= i < |kids| :: Fine(env, ty, kids[i])
    decreases kids, 0
  {
    hide FromElement, Fine;
    if kids != [] {
      var last := |kids| - 1;
      ItemsAccepted(env, ty, kids[..last]);
      SoftAcceptsExactly(env, ty, kids[last]);
      if FromItems(env, ty, kids[..last]).Ok? {
        assert forall i | 0 <= i < last :: kids[..last][i] == kids[i];
      } else {
        var i :| 0 <= i < last && !Fine(env, ty, kids[..last][i]);
        assert !Fine(env, ty, kids[i]);
      }
    }
  }

  lemma ObjectAccepted(env: Env, id: ClassId, e: Node)
    requires env.soft && Known(env, Class(id)) && FromComplex(Lax(env), id, e).Ok?
    ensures FromComplex(env, id, e).Ok? <==> FineAs(env, Class(id), e)
    decreases e, 2
  {
    hide AbsorbKid, Flat, Resolve;
    LaxLookups(env, id);
    var st0 := State(InitFields(env, OrigOf(env, id)), map[]);
    assert InitFields(Lax(env), OrigOf(env, id)) == InitFields(env, OrigOf(env, id));
    KidsAccepted(env, id, e.kids, st0);
    if AbsorbKids(env, id, e.kids, st0).Ok? {
      LaxKids(env, id, e.kids, st0);
      LaxAttrs(env, id, e.attrs, AbsorbKids(env, id, e.kids, st0).value.inst);
      forall k { FrequenciesCount(env, id, e.kids, st0, k); }
    }
  }

  /** Of the elements that can be read at all, soft validation accepts the fine ones. */
  lemma {:induction false} SoftAcceptsExactly(env: Env, ty: Type, e: Node)
    requires env.soft && FromElement(Lax(env), ty, e).Ok?
    ensures FromElement(env, ty, e).Ok? <==> Fine(env, ty, e)
    decreases e, 4
  {
    LaxTypes(env, ty);
    if !IsNil(e) {
      assert XsiClass(Lax(env), ty, e) == XsiClass(env, ty, e);
      var target := XsiClass(env, ty, e).value;
      LaxTypes(env, target);
      match target
      case Array(_, _, item, _) => ItemsAccepted(env, item, e.kids);
      case Class(id) =>
        assert Handle(env, target, e) == FromComplex(env, id, e);
        assert Handle(Lax(env), target, e) == FromComplex(Lax(env), id, e);
        ObjectAccepted(env, id, e);
      case _ =>
    }
  }

  /** Under soft validation a written value comes back in canonical form when the element that was written
      is fine, and is refused otherwise. */
  lemma SoftRoundTrip(env: Env, ty: Type, v: Value, ns: Option<string>, name: string)
    requires env.soft
    requires SchemaOk(Lax(env)) && TypeOk(Lax(env), ty) && WellTyped(Lax(env), ty, v) && Shown(Lax(env), ty, v)
    ensures
      var node := NodeOf(Lax(env), ty, v, ns, name);
      var read := FromElement(env, ty, node);
      if Fine(env, ty, node) then read == Ok(Canon(Lax(env), ty, v)) else read.Err?
  {
    var node := NodeOf(Lax(env), ty, v, ns, name);
    ReadBack(Lax(env), ty, v, ns, name);
    SoftAcceptsExactly(env, ty, node);
    if FromElement(env, ty, node).Ok? {
      SoftOnlyRefuses(env, ty, node);
    }
  }
}
