/** The protocol as it runs: serialisers that change the parent element in place, and deserialisers
    that loop over children and attributes. */
module XmlDocument {
  import opened Wrappers
  import opened XmlSchema
  import P = XmlPrint
  import opened XmlParse

  /** An element under construction.  Children are attached once they are complete. */
  class Element {
    const tag: QName
    var attrib: seq<(QName, string)>
    var text: string
    var kids: seq<Node>

    constructor (tag: QName, attrib: seq<(QName, string)>)
      ensures Tree() == Node(tag, attrib, "", [])
    {
      this.tag := tag;
      this.attrib := attrib;
      this.text := "";
      this.kids := [];
    }

    function Tree(): Node
      reads this
    {
      Node(tag, attrib, text, kids)
    }

    method Append(kid: Node)
      modifies this`kids
      ensures Tree() == P.Append(old(Tree()), kid)
    {
      kids := kids + [kid];
    }

    method Set(name: QName, value: string)
      modifies this`attrib
      ensures Tree() == P.SetAttr(old(Tree()), name, value)
    {
      var i := 0;
      while i < |attrib| && attrib[i].0 != name
        invariant 0 <= i <= |attrib| && attrib == old(attrib)
        invariant P.SetPair(attrib, name, value) == attrib[..i] + P.SetPair(attrib[i..], name, value)
      {
        assert attrib[i..][1..] == attrib[i + 1..];
        assert attrib[..i + 1] == attrib[..i] + [attrib[i]];
        i := i + 1;
      }
      if i < |attrib| {
        assert attrib[i..][1..] == attrib[i + 1..];
        attrib := attrib[..i] + [(name, value)] + attrib[i + 1..];
      } else {
        attrib := attrib + [(name, value)];
      }
    }
  }

  class Protocol {
    const env: Env

    constructor (env: Env)
      ensures this.env == env
    {
      this.env := env;
    }

    // ---------- Serialisation ----------

    method GetPolymorphicTarget(id: ClassId, cls: ClassId) returns (target: ClassId, addType: bool)
      requires id in env.table
      ensures (target, addType) == P.Target(env, id, cls)
    {
      var orig := OrigOf(env, id);
      if !env.polymorphic {
        return id, false;
      }
      if cls == orig {
        return id, false;
      }
      if cls !in env.table || orig !in env.table[cls].bases {
        return id, false;
      }
      if cls in env.table[id].polymap {
        return env.table[id].polymap[cls], true;
      }
      return cls, true;
    }

    method PrimToParent(ty: Type, n: Native, parent: Element, ns: Option<string>, name: string)
      requires ty.Leaf? || ty.Attribute?
      modifies parent
      ensures parent.Tree() == P.PrintPrim(env, ty, n, ns, name, old(parent.Tree()))
    {
      var text := env.codec.encode(ty.kind, n);
      if ty.Leaf? {
        parent.Append(Node(QName(ns, name), [], text, []));
      } else {
        parent.Set(P.AttrName(ty, name), text);
      }
    }

    method NullToParent(ty: Type, parent: Element, ns: Option<string>, name: string)
      modifies parent
      ensures parent.Tree() == P.PrintNull(env, ty, ns, name, old(parent.Tree()))
    {
      var default := DefaultOf(ty);
      if default.Prim? {
        if !ty.attrs.exc {
          PrimToParent(ty, default.n, parent, ns, name);
        }
      } else if !ty.Attribute? {
        parent.Append(Node(QName(ns, name), [(XSI_NIL, "true")], "", []));
      }
    }

    method ToParent(ty: Type, v: Value, parent: Element, ns: Option<string>, name: string)
      requires P.WellTyped(env, ty, v)
      modifies parent
      ensures parent.Tree() == P.ToParent(env, ty, v, ns, name, old(parent.Tree()))
      decreases v, 3
    {
      match v
      case Null =>
        NullToParent(ty, parent, ns, name);
      case Prim(n) =>
        if !ty.attrs.exc {
          PrimToParent(ty, n, parent, ns, name);
        }
      case List(items) =>
        if !ty.attrs.exc {
          var elt := new Element(P.Tag(ty.attrs, ns, name), []);
          var at := AttrsOf(env, ty.item);
          if !at.exc {
            ItemsToParent(ty.item, items, elt, P.MemberNs(at, ty.ns), P.MemberName(at, ty.member));
          }
          parent.Append(elt.Tree());
        }
      case Obj(cls, _) =>
        var id, addType := GetPolymorphicTarget(ty.id, cls);
        var d := env.table[id];
        if !d.attrs.exc {
          var elt := new Element(P.Tag(d.attrs, ns, name), if addType then P.TypeAttr(env, id) else []);
          GetMembersEtree(d.level, v, elt);
          parent.Append(elt.Tree());
        }
    }

    method ItemsToParent(ty: Type, items: seq<Value>, parent: Element, ns: Option<string>, name: string)
      requires forall i | 0 <= i < |items| :: P.WellTyped(env, ty, items[i])
      modifies parent
      ensures parent.Tree() == P.PrintItems(env, ty, items, ns, name, old(parent.Tree()))
      decreases items, 0
    {
      for i := 0 to |items|
        invariant parent.Tree() == P.PrintItems(env, ty, items[..i], ns, name, old(parent.Tree()))
      {
        ToParent(ty, items[i], parent, ns, name);
        assert items[..i + 1][..i] == items[..i];
      }
      assert items[..|items|] == items;
    }

    /** Members of the ancestors, and then one member after the other. */
    method GetMembersEtree(level: Level, v: Value, parent: Element)
      requires v.Obj? && P.LevelTyped(env, level, v)
      modifies parent
      ensures parent.Tree() == P.PrintLevel(env, level, v, old(parent.Tree()))
      decreases v, 2, level
    {
      match level
      case Top =>
      case Level(ancestors, ns, own) =>
        GetMembersEtree(ancestors, v, parent);
        ghost var before := parent.Tree();
        assert own[..0] == [];
        for i := 0 to |own|
          invariant P.OwnTyped(env, own[..i], v)
          invariant parent.Tree() == P.PrintOwn(env, ns, own[..i], v, before)
        {
          assert P.FieldTyped(env, own[i], v);
          MemberToParent(ns, own[i], v, parent);
          assert own[..i + 1][..i] == own[..i];
        }
        assert own[..|own|] == own;
    }

    method MemberToParent(ns: string, f: Field, v: Value, parent: Element)
      requires P.FieldTyped(env, f, v)
      modifies parent
      ensures parent.Tree() == P.PrintMember(env, ns, f, v, old(parent.Tree()))
      decreases v, 0
    {
      var at := AttrsOf(env, f.ty);
      if at.exc {
        return;
      }
      var subNs, name := P.MemberNs(at, ns), P.MemberName(at, f.name);
      if f.name in v.fields && v.fields[f.name] != Null {
        var sub := v.fields[f.name];
        assert P.MemberTyped(env, f.ty, sub);
        if Many(at) {
          ItemsToParent(f.ty, sub.items, parent, subNs, name);
        } else {
          ToParent(f.ty, sub, parent, subNs, name);
        }
      } else if at.minOccurs > 0 {
        NullToParent(f.ty, parent, subNs, name);
      }
    }

    // ---------- Deserialisation ----------

    method FromElement(ty: Type, e: Node) returns (r: Parsed)
      ensures r == XmlParse.FromElement(env, ty, e)
      decreases e, 4
    {
      if IsNil(e) {
        if env.soft && Known(env, ty) && !AttrsOf(env, ty).nillable {
          return Err(ValidationError);
        }
        return Ok(if env.replaceNull then DefaultOf(ty) else Null);
      }
      var target := XsiClass(env, ty, e);
      if target.Err? {
        return Err(target.error);
      }
      if !Known(env, target.value) {
        return Err(ValidationError);
      }
      match target.value
      case Array(_, _, item, _) =>
        r := ArrayFromElement(item, e);
      case Class(id) =>
        r := ComplexFromElement(id, e);
      case _ =>
        r := LeafFromElement(env, target.value, e);
    }

    method ArrayFromElement(item: Type, e: Node) returns (r: Parsed)
      ensures r == match FromItems(env, item, e.kids) case Ok(items) => Ok(List(items)) case Err(f) => Err(f)
      decreases e, 2
    {
      var retval: seq<Value> := [];
      for i := 0 to |e.kids|
        invariant FromItems(env, item, e.kids[..i]) == Ok(retval)
      {
        assert e.kids[..i + 1][..i] == e.kids[..i];
        var v := FromElement(item, e.kids[i]);
        if v.Err? {
          ItemErrorStays(env, item, e.kids, i + 1);
          return Err(v.error);
        }
        retval := retval + [v.value];
      }
      assert e.kids[..|e.kids|] == e.kids;
      return Ok(List(retval));
    }

    method ComplexFromElement(id: ClassId, e: Node) returns (r: Parsed)
      requires Known(env, Class(id))
      ensures r == FromComplex(env, id, e)
      decreases e, 2
    {
      var st := State(InitFields(env, OrigOf(env, id)), map[]);
      ghost var st0 := st;
      for i := 0 to |e.kids|
        invariant AbsorbKids(env, id, e.kids[..i], st0) == Ok(st)
      {
        assert e.kids[..i + 1][..i] == e.kids[..i];
        var step := ChildToMember(id, e.kids[i], st);
        if step.Err? {
          KidErrorStays(env, id, e.kids, i + 1, st0);
          return Err(step.error);
        }
        st := step.value;
      }
      assert e.kids[..|e.kids|] == e.kids;

      var filled := ReadAttributes(id, e.attrs, st.inst);
      if filled.Err? {
        return Err(filled.error);
      }
      if env.soft {
        var fine := CheckFrequencies(id, st.freq);
        if !fine {
          return Err(FrequencyError);
        }
      }
      return Ok(Obj(OrigOf(env, id), filled.value));
    }

    /** One child: counted under its local tag, looked up, read, stored; then its own attributes. */
    method ChildToMember(id: ClassId, c: Node, st: State) returns (r: Result<State, Fault>)
      requires id in env.table
      ensures r == AbsorbKid(env, id, c, st)
      decreases c, 5
    {
      var freq := st.freq[c.tag.local := Count(st.freq, c.tag.local) + 1];
      var member := Resolve(env, id, c.tag);
      if member.None? {
        return Ok(State(st.inst, freq));
      }
      if !Known(env, member.value.ty) {
        return Err(BadMember);
      }
      var v := FromElement(member.value.ty, c);
      if v.Err? {
        return Err(v.error);
      }
      var stored := Store(env, st.inst, member.value, v.value);
      if stored.Err? {
        return Err(stored.error);
      }
      var offered := OfferAttributes(id, c.attrs, stored.value);
      if offered.Err? {
        return Err(offered.error);
      }
      return Ok(State(offered.value, freq));
    }

    /** Attributes of the element itself fill attribute members only. */
    method ReadAttributes(id: ClassId, attrs: seq<(QName, string)>, inst0: map<string, Value>)
      returns (r: Result<map<string, Value>, Fault>)
      requires id in env.table
      ensures r == AbsorbAttrs(env, id, attrs, inst0)
    {
      var inst := inst0;
      for i := 0 to |attrs|
        invariant AbsorbAttrs(env, id, attrs[..i], inst0) == Ok(inst)
      {
        assert attrs[..i + 1][..i] == attrs[..i];
        var member := ResolveAttr(env, id, attrs[i].0);
        if member.Some? && member.value.ty.Attribute? {
          var ty := member.value.ty;
          var v := FromUnicode(env, ty.kind, ty.emptyIsNone, attrs[i].1);
          if v.Err? {
            AttrErrorStays(env, id, attrs, i + 1, inst0);
            return Err(v.error);
          }
          inst := SafeSet(inst, member.value.name, v.value, ty.attrs);
        }
      }
      assert attrs[..|attrs|] == attrs;
      return Ok(inst);
    }

    /** The attributes of a child are looked up among the members of the parent. */
    method OfferAttributes(id: ClassId, attrs: seq<(QName, string)>, inst0: map<string, Value>)
      returns (r: Result<map<string, Value>, Fault>)
      requires id in env.table
      ensures r == AbsorbChildAttrs(env, id, attrs, inst0)
    {
      var inst := inst0;
      for i := 0 to |attrs|
        invariant AbsorbChildAttrs(env, id, attrs[..i], inst0) == Ok(inst)
      {
        assert attrs[..i + 1][..i] == attrs[..i];
        var member := ResolveAttr(env, id, attrs[i].0);
        if member.Some? {
          var ty := member.value.ty;
          if !ty.Attribute? {
            ChildAttrErrorStays(env, id, attrs, i + 1, inst0);
            return Err(BadMember);
          }
          var v := FromUnicode(env, ty.kind, ty.emptyIsNone, attrs[i].1);
          if v.Err? {
            ChildAttrErrorStays(env, id, attrs, i + 1, inst0);
            return Err(v.error);
          }
          var stored := Store(env, inst, member.value, v.value);
          if stored.Err? {
            ChildAttrErrorStays(env, id, attrs, i + 1, inst0);
            return Err(stored.error);
          }
          inst := stored.value;
        }
      }
      assert attrs[..|attrs|] == attrs;
      return Ok(inst);
    }

    method CheckFrequencies(id: ClassId, freq: map<string, nat>) returns (fine: bool)
      requires id in env.table
      ensures fine == FreqOk(env, id, freq)
    {
      var flat := FlatOf(env, id);
      var todo := flat.Keys;
      while todo != {}
        invariant todo <= flat.Keys
        invariant forall k | k in flat.Keys - todo :: Known(env, flat[k]) ==>
          AttrsOf(env, flat[k]).minOccurs <= Count(freq, k) && AtMost(Count(freq, k), AttrsOf(env, flat[k]).maxOccurs)
        decreases todo
      {
        var k :| k in todo;
        if Known(env, flat[k]) {
          var at := AttrsOf(env, flat[k]);
          if Count(freq, k) < at.minOccurs || !AtMost(Count(freq, k), at.maxOccurs) {
            return false;
          }
        }
        todo := todo - {k};
      }
      return true;
    }
  }

  // ---------- The first error is the result ----------

  lemma {:induction false} KidErrorStays(env: Env, id: ClassId, kids: seq<Node>, n: nat, st: State)
    requires id in env.table && n <= |kids| && AbsorbKids(env, id, kids[..n], st).Err?
    ensures AbsorbKids(env, id, kids, st) == AbsorbKids(env, id, kids[..n], st)
    decreases |kids| - n
  {
    if n == |kids| {
      assert kids[..n] == kids;
    } else {
      assert kids[..n + 1][..n] == kids[..n];
      KidErrorStays(env, id, kids, n + 1, st);
    }
  }

  lemma {:induction false} ItemErrorStays(env: Env, ty: Type, kids: seq<Node>, n: nat)
    requires n <= |kids| && FromItems(env, ty, kids[..n]).Err?
    ensures FromItems(env, ty, kids) == FromItems(env, ty, kids[..n])
    decreases |kids| - n
  {
    if n == |kids| {
      assert kids[..n] == kids;
    } else {
      assert kids[..n + 1][..n] == kids[..n];
      ItemErrorStays(env, ty, kids, n + 1);
    }
  }

  lemma {:induction false} AttrErrorStays(env: Env, id: ClassId, attrs: seq<(QName, string)>, n: nat,
      inst: map<string, Value>)
    requires id in env.table && n <= |attrs| && AbsorbAttrs(env, id, attrs[..n], inst).Err?
    ensures AbsorbAttrs(env, id, attrs, inst) == AbsorbAttrs(env, id, attrs[..n], inst)
    decreases |attrs| - n
  {
    if n == |attrs| {
      assert attrs[..n] == attrs;
    } else {
      assert attrs[..n + 1][..n] == attrs[..n];
      AttrErrorStays(env, id, attrs, n + 1, inst);
    }
  }

  lemma {:induction false} ChildAttrErrorStays(env: Env, id: ClassId, attrs: seq<(QName, string)>, n: nat,
      inst: map<string, Value>)
    requires id in env.table && n <= |attrs| && AbsorbChildAttrs(env, id, attrs[..n], inst).Err?
    ensures AbsorbChildAttrs(env, id, attrs, inst) == AbsorbChildAttrs(env, id, attrs[..n], inst)
    decreases |attrs| - n
  {
    if n == |attrs| {
      assert attrs[..n] == attrs;
    } else {
      assert attrs[..n + 1][..n] == attrs[..n];
      ChildAttrErrorStays(env, id, attrs, n + 1, inst);
    }
  }
}
