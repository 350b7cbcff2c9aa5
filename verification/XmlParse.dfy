/** What `from_element` reads, as a function of the element. */
module XmlParse {
  import opened Wrappers
  import opened XmlSchema

  /** `BadMember` stands for the `AttributeError` of reading `.type` off a plain member, or of
      appending to a value that is not a list. */
  datatype Fault = ValidationError | FrequencyError | BadText | BadMember

  type Parsed = Result<Value, Fault>

  datatype State = State(inst: map<string, Value>, freq: map<string, nat>)

  /** `element.get(XSI('nil'))` and the like: the first attribute of that name. */
  function GetAttr(attrs: seq<(QName, string)>, name: QName): Option<string> {
    if attrs == [] then None
    else if attrs[0].0 == name then Some(attrs[0].1)
    else GetAttr(attrs[1..], name)
  }

  /** `from_unicode` of the protocol, for a present text. */
  function FromUnicode(env: Env, kind: nat, emptyIsNone: bool, text: string): Parsed {
    if text == "" && emptyIsNone then Ok(Null)
    else match env.codec.decode(kind, text)
      case Some(n) => Ok(Prim(n))
      case None => Err(BadText)
  }

  /** `unicode_from_element` and `base_from_element`. */
  function LeafFromElement(env: Env, ty: Type, e: Node): Parsed
    requires ty.Leaf? || ty.Attribute?
  {
    if env.soft && !env.codec.validString(ty.kind, TextOf(e)) then Err(ValidationError) else
    var r := if TextOf(e) == None && !(ty.Leaf? && ty.unicode) then Ok(Null)
             else FromUnicode(env, ty.kind, ty.emptyIsNone, e.text);
    if r.Ok? && env.soft && !env.codec.validNative(ty.kind, if r.value.Prim? then Some(r.value.n) else None)
    then Err(ValidationError)
    else r
  }

  /** Splits at the first colon; without one there is no prefix. */
  function SplitColon(s: string): (Option<string>, string) {
    if ':' !in s then (None, s)
    else if s[0] == ':' then (Some(""), s[1..])
    else
      var (p, rest) := SplitColon(s[1..]);
      (Some(s[..1] + if p.Some? then p.value else ""), rest)
  }

  /** The class that `xsi:type` substitutes for the declared one. */
  function XsiClass(env: Env, ty: Type, e: Node): Result<Type, Fault> {
    if !env.parseXsiType then Ok(ty) else
    match GetAttr(e.attrs, XSI_TYPE)
    case None => Ok(ty)
    case Some(text) =>
      var (prefix, name) := SplitColon(text);
      if prefix == None || prefix.value !in env.nsmap then Err(ValidationError) else
      var key := QName(Some(env.nsmap[prefix.value]), name);
      if key in env.classes then Ok(env.classes[key]) else Err(ValidationError)
  }

  function IsNil(e: Node): bool {
    match GetAttr(e.attrs, XSI_NIL)
    case None => false
    case Some(text) => text != ""
  }

  function FromElement(env: Env, ty: Type, e: Node): Parsed
    decreases e, 4
  {
    if IsNil(e) then
      if env.soft && Known(env, ty) && !AttrsOf(env, ty).nillable then Err(ValidationError)
      else Ok(if env.replaceNull then DefaultOf(ty) else Null)
    else match XsiClass(env, ty, e)
      case Err(f) => Err(f)
      case Ok(target) => if Known(env, target) then Handle(env, target, e) else Err(ValidationError)
  }

  function Handle(env: Env, ty: Type, e: Node): Parsed
    requires Known(env, ty)
    decreases e, 3
  {
    match ty
    case Leaf(_, _, _, _, _) => LeafFromElement(env, ty, e)
    case Attribute(_, _, _, _, _) => LeafFromElement(env, ty, e)
    case Array(_, _, item, _) =>
      (match FromItems(env, item, e.kids)
       case Ok(items) => Ok(List(items))
       case Err(f) => Err(f))
    case Class(id) => FromComplex(env, id, e)
  }

  function FromItems(env: Env, ty: Type, kids: seq<Node>): Result<seq<Value>, Fault>
    decreases kids, 0
  {
    if kids == [] then Ok([])
    else
      var last := |kids| - 1;
      match FromItems(env, ty, kids[..last])
      case Err(f) => Err(f)
      case Ok(items) =>
        match FromElement(env, ty, kids[last])
        case Err(f) => Err(f)
        case Ok(v) => Ok(items + [v])
  }

  /** `_safe_set` */
  function SafeSet(inst: map<string, Value>, k: string, v: Value, at: Attrs): map<string, Value> {
    if at.readOnly then inst else inst[k := v]
  }

  /** The value that a member takes when `v` arrives for it: a list member collects. */
  function Collect(inst: map<string, Value>, k: string, v: Value, at: Attrs): Parsed {
    if !Many(at) then Ok(v)
    else if k !in inst || inst[k] == Null then Ok(List([v]))
    else if inst[k].List? then Ok(List(inst[k].items + [v]))
    else Err(BadMember)
  }

  function Store(env: Env, inst: map<string, Value>, f: Field, v: Value): Result<map<string, Value>, Fault>
    requires Known(env, f.ty)
  {
    match Collect(inst, f.name, v, AttrsOf(env, f.ty))
    case Err(x) => Err(x)
    case Ok(w) => Ok(SafeSet(inst, f.name, w, AttrsOf(env, f.ty)))
  }

  /** The attributes of a child element are offered to the fields of the parent. */
  function AbsorbChildAttrs(env: Env, id: ClassId, attrs: seq<(QName, string)>, inst: map<string, Value>)
      : Result<map<string, Value>, Fault>
    requires id in env.table
  {
    if attrs == [] then Ok(inst)
    else
      var last := |attrs| - 1;
      match AbsorbChildAttrs(env, id, attrs[..last], inst)
      case Err(f) => Err(f)
      case Ok(inst1) =>
        match ResolveAttr(env, id, attrs[last].0)
        case None => Ok(inst1)
        case Some(f) =>
          if !f.ty.Attribute? then Err(BadMember)
          else match FromUnicode(env, f.ty.kind, f.ty.emptyIsNone, attrs[last].1)
            case Err(x) => Err(x)
            case Ok(v) => Store(env, inst1, f, v)
  }

  /** The element's own attributes fill the attribute fields and nothing else. */
  function AbsorbAttrs(env: Env, id: ClassId, attrs: seq<(QName, string)>, inst: map<string, Value>)
      : Result<map<string, Value>, Fault>
    requires id in env.table
  {
    if attrs == [] then Ok(inst)
    else
      var last := |attrs| - 1;
      match AbsorbAttrs(env, id, attrs[..last], inst)
      case Err(f) => Err(f)
      case Ok(inst1) =>
        match ResolveAttr(env, id, attrs[last].0)
        case None => Ok(inst1)
        case Some(f) =>
          if !f.ty.Attribute? then Ok(inst1)
          else match FromUnicode(env, f.ty.kind, f.ty.emptyIsNone, attrs[last].1)
            case Err(x) => Err(x)
            case Ok(v) => Ok(SafeSet(inst1, f.name, v, f.ty.attrs))
  }

  function Count(freq: map<string, nat>, k: string): nat {
    if k in freq then freq[k] else 0
  }

  function AbsorbKid(env: Env, id: ClassId, c: Node, st: State): Result<State, Fault>
    requires id in env.table
    decreases c, 5
  {
    var freq := st.freq[c.tag.local := Count(st.freq, c.tag.local) + 1];
    match Resolve(env, id, c.tag)
    case None => Ok(State(st.inst, freq))
    case Some(f) =>
      if !Known(env, f.ty) then Err(BadMember)
      else match FromElement(env, f.ty, c)
        case Err(x) => Err(x)
        case Ok(v) =>
          match Store(env, st.inst, f, v)
          case Err(x) => Err(x)
          case Ok(inst1) =>
            match AbsorbChildAttrs(env, id, c.attrs, inst1)
            case Err(x) => Err(x)
            case Ok(inst2) => Ok(State(inst2, freq))
  }

  function AbsorbKids(env: Env, id: ClassId, kids: seq<Node>, st: State): Result<State, Fault>
    requires id in env.table
    decreases kids, 1
  {
    if kids == [] then Ok(st)
    else
      var last := |kids| - 1;
      match AbsorbKids(env, id, kids[..last], st)
      case Err(f) => Err(f)
      case Ok(st1) => AbsorbKid(env, id, kids[last], st1)
  }

  /** Every field occurs, by its own name, as often as its type allows. */
  predicate FreqOk(env: Env, id: ClassId, freq: map<string, nat>)
    requires id in env.table
  {
    forall k | k in FlatOf(env, id) ::
      var ty := FlatOf(env, id)[k];
      Known(env, ty) ==>
        AttrsOf(env, ty).minOccurs <= Count(freq, k) && AtMost(Count(freq, k), AttrsOf(env, ty).maxOccurs)
  }

  function FromComplex(env: Env, id: ClassId, e: Node): Parsed
    requires Known(env, Class(id))
    decreases e, 2
  {
    var orig := OrigOf(env, id);
    match AbsorbKids(env, id, e.kids, State(InitFields(env, orig), map[]))
    case Err(f) => Err(f)
    case Ok(st) =>
      match AbsorbAttrs(env, id, e.attrs, st.inst)
      case Err(f) => Err(f)
      case Ok(inst) =>
        if env.soft && !FreqOk(env, id, st.freq) then Err(FrequencyError)
        else Ok(Obj(orig, inst))
  }
}
