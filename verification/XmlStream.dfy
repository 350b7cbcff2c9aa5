/** Serialisation of a list whose items are pushed one at a time, while the serialiser is suspended. */
module XmlStream {
  import opened Wrappers
  import opened XmlSchema
  import opened XmlPrint
  import opened XmlMembers
  import D = XmlDocument

  // ---------- What the two halves of the serialiser write ----------

  function IndexOf(own: seq<Field>, k: string): (i: nat)
    ensures i <= |own| && (i < |own| ==> own[i].name == k) && forall j | 0 <= j < i :: own[j].name != k
  {
    if own == [] || own[0].name == k then 0 else 1 + IndexOf(own[1..], k)
  }

  predicate Names(own: seq<Field>, k: string) {
    IndexOf(own, k) < |own|
  }

  predicate Declares(level: Level, k: string) {
    match level
    case Top => false
    case Level(parent, _, own) => Declares(parent, k) || Names(own, k)
  }

  /** The declaration of field `k`, with the namespace of the class that makes it. */
  function Holder(level: Level, k: string): (string, Field)
    requires Declares(level, k)
  {
    if Declares(level.parent, k) then Holder(level.parent, k) else (level.ns, level.own[IndexOf(level.own, k)])
  }

  /** No class of the chain declares `k` again. */
  predicate Once(level: Level, k: string)
    requires Declares(level, k)
  {
    if Declares(level.parent, k) then !Names(level.own, k) && Once(level.parent, k)
    else !Names(level.own[IndexOf(level.own, k) + 1..], k)
  }

  /** A list in elements of its own, or an array in an element that wraps it; neither is excluded. */
  ghost predicate Pushable(env: Env, f: Field) {
    && Known(env, f.ty)
    && !AttrsOf(env, f.ty).exc
    && (!Many(AttrsOf(env, f.ty)) ==> f.ty.Array? && !AttrsOf(env, f.ty.item).exc)
  }

  function ItemType(env: Env, f: Field): Type
    requires Pushable(env, f)
  {
    if Many(AttrsOf(env, f.ty)) then f.ty else f.ty.item
  }

  function Wrapper(env: Env, ns: string, f: Field): Node
    requires Known(env, f.ty) && f.ty.Array?
  {
    var at := AttrsOf(env, f.ty);
    Node(Tag(at, MemberNs(at, ns), MemberName(at, f.name)), [], "", [])
  }

  /** The member `f` with all of its items. */
  function Filled(env: Env, ns: string, f: Field, items: seq<Value>, e: Node): Node
    requires Pushable(env, f) && ItemsTyped(env, ItemType(env, f), items)
  {
    var at := AttrsOf(env, f.ty);
    if Many(at) then PrintItems(env, f.ty, items, MemberNs(at, ns), MemberName(at, f.name), e)
    else Append(e, Wrapped(env, ns, f, items))
  }

  function Wrapped(env: Env, ns: string, f: Field, items: seq<Value>): Node
    requires Pushable(env, f) && !Many(AttrsOf(env, f.ty)) && ItemsTyped(env, f.ty.item, items)
  {
    var at := AttrsOf(env, f.ty.item);
    PrintItems(env, f.ty.item, items, MemberNs(at, f.ty.ns), MemberName(at, f.ty.member), Wrapper(env, ns, f))
  }

  ghost predicate Ready(env: Env, level: Level, v: Value, k: string) {
    && v.Obj? && k !in v.fields && LevelTyped(env, level, v)
    && Declares(level, k) && Once(level, k) && Pushable(env, Holder(level, k).1)
  }

  lemma PartTyped(env: Env, own: seq<Field>, v: Value, i: nat, j: nat)
    requires OwnTyped(env, own, v) && i <= j <= |own|
    ensures OwnTyped(env, own[i..j], v)
    ensures i == 0 ==> own[i..j] == own[..j]
    ensures j == |own| ==> own[i..j] == own[i..]
  {
    hide FieldTyped;
    forall n | 0 <= n < j - i ensures FieldTyped(env, own[i..j][n], v) {
      assert own[i..j][n] == own[i + n];
    }
  }

  /** Everything in front of the pushed member. */
  function Opened(env: Env, level: Level, v: Value, k: string, e: Node): Node
    requires LevelTyped(env, level, v) && Declares(level, k)
    decreases level
  {
    assert OwnTyped(env, level.own, v);
    if Declares(level.parent, k) then Opened(env, level.parent, v, k, e)
    else
      PartTyped(env, level.own, v, 0, IndexOf(level.own, k));
      PrintOwn(env, level.ns, level.own[..IndexOf(level.own, k)], v, PrintLevel(env, level.parent, v, e))
  }

  /** What `Break` leaves to be written: it ends the loop over the members of the declaring class when
      the list is unwrapped, and only the inner loop when the list is wrapped. */
  function Resumed(env: Env, level: Level, v: Value, k: string, e: Node): Node
    requires LevelTyped(env, level, v) && Declares(level, k) && Pushable(env, Holder(level, k).1)
    decreases level
  {
    assert OwnTyped(env, level.own, v);
    if Declares(level.parent, k) then PrintOwn(env, level.ns, level.own, v, Resumed(env, level.parent, v, k, e))
    else if Many(AttrsOf(env, Holder(level, k).1.ty)) then e
    else
      PartTyped(env, level.own, v, IndexOf(level.own, k) + 1, |level.own|);
      PrintOwn(env, level.ns, level.own[IndexOf(level.own, k) + 1..], v, e)
  }

  function Streamed(env: Env, level: Level, v: Value, k: string, items: seq<Value>, e: Node): Node
    requires Ready(env, level, v, k) && ItemsTyped(env, ItemType(env, Holder(level, k).1), items)
  {
    var (ns, f) := Holder(level, k);
    Resumed(env, level, v, k, Filled(env, ns, f, items, Opened(env, level, v, k, e)))
  }

  // ---------- Against the serialiser that has the whole list ----------

  function Full(v: Value, k: string, items: seq<Value>): Value
    requires v.Obj?
  {
    Obj(v.cls, v.fields[k := List(items)])
  }

  lemma {:induction false} OthersAlike(env: Env, ns: string, own: seq<Field>, v: Value, k: string,
      items: seq<Value>, e: Node)
    requires OwnTyped(env, own, v) && !Names(own, k)
    ensures OwnTyped(env, own, Full(v, k, items))
    ensures PrintOwn(env, ns, own, v, e) == PrintOwn(env, ns, own, Full(v, k, items), e)
  {
    hide WellTyped, PrintItems, ToParent;
    forall i | 0 <= i < |own| ensures FieldTyped(env, own[i], Full(v, k, items)) && own[i].name != k {
      assert FieldTyped(env, own[i], v);
    }
    if own != [] {
      var last := |own| - 1;
      assert !Names(own[..last], k);
      OthersAlike(env, ns, own[..last], v, k, items, e);
    }
  }

  lemma {:induction false} AncestorsAlike(env: Env, level: Level, v: Value, k: string, items: seq<Value>, e: Node)
    requires v.Obj? && LevelTyped(env, level, v) && !Declares(level, k)
    ensures LevelTyped(env, level, Full(v, k, items))
    ensures PrintLevel(env, level, v, e) == PrintLevel(env, level, Full(v, k, items), e)
    decreases level
  {
    match level
    case Top =>
    case Level(parent, ns, own) =>
      AncestorsAlike(env, parent, v, k, items, e);
      OthersAlike(env, ns, own, v, k, items, PrintLevel(env, parent, v, e));
  }

  lemma FilledIsMember(env: Env, ns: string, f: Field, v: Value, items: seq<Value>, e: Node)
    requires v.Obj? && Pushable(env, f) && ItemsTyped(env, ItemType(env, f), items)
    ensures FieldTyped(env, f, Full(v, f.name, items))
    ensures PrintMember(env, ns, f, Full(v, f.name, items), e) == Filled(env, ns, f, items, e)
  {
    var full := Full(v, f.name, items);
    assert full.fields[f.name] == List(items);
    assert MemberTyped(env, f.ty, List(items));
    var at := AttrsOf(env, f.ty);
    var subNs, name := MemberNs(at, ns), MemberName(at, f.name);
    if !Many(at) {
      assert PrintMember(env, ns, f, full, e) == ToParent(env, f.ty, List(items), subNs, name, e);
      assert ToParent(env, f.ty, List(items), subNs, name, e)
          == Append(e, PrintArray(env, f.ty, List(items), Wrapper(env, ns, f)));
    }
  }

  lemma {:induction false} OwnSplit(env: Env, ns: string, own: seq<Field>, j: nat, v: Value, e: Node)
    requires OwnTyped(env, own, v) && j < |own|
    ensures OwnTyped(env, own[..j], v) && FieldTyped(env, own[j], v) && OwnTyped(env, own[j + 1..], v)
    ensures PrintOwn(env, ns, own, v, e)
         == PrintOwn(env, ns, own[j + 1..], v, PrintMember(env, ns, own[j], v, PrintOwn(env, ns, own[..j], v, e)))
  {
    hide FieldTyped, PrintMember;
    var last := |own| - 1;
    if j == last {
      assert own[j + 1..] == [];
    } else {
      OwnSplit(env, ns, own[..last], j, v, e);
      assert own[..last][..j] == own[..j];
      assert own[..last][j + 1..] == own[j + 1..][..last - j - 1];
    }
  }

  /** A class whose own fields include the pushed one: the pulled form is the streamed form with the rest
      of the fields added. */
  lemma PulledOwn(env: Env, level: Level, v: Value, k: string, items: seq<Value>, e: Node)
    requires Ready(env, level, v, k) && ItemsTyped(env, ItemType(env, Holder(level, k).1), items)
    requires !Declares(level.parent, k)
    ensures
      var (ns, f) := Holder(level, k);
      var rest := level.own[IndexOf(level.own, k) + 1..];
      && LevelTyped(env, level, Full(v, k, items)) && OwnTyped(env, rest, v)
      && PrintLevel(env, level, Full(v, k, items), e)
         == PrintOwn(env, level.ns, rest, v, Filled(env, ns, f, items, Opened(env, level, v, k, e)))
  {
    hide PrintOwn, PrintMember, FieldTyped, PrintItems;
    var own, j, full := level.own, IndexOf(level.own, k), Full(v, k, items);
    AncestorsAlike(env, level.parent, v, k, items, e);
    var before := PrintLevel(env, level.parent, v, e);
    OwnSplit(env, level.ns, own, j, v, before);
    assert !Names(own[..j], k);
    OthersAlike(env, level.ns, own[..j], v, k, items, before);
    var front := PrintOwn(env, level.ns, own[..j], v, before);
    FilledIsMember(env, level.ns, own[j], v, items, front);
    OthersAlike(env, level.ns, own[j + 1..], v, k, items, Filled(env, level.ns, own[j], items, front));
    forall i | 0 <= i < |own| ensures FieldTyped(env, own[i], full) {
      if i < j { assert own[i] == own[..j][i]; } else if i > j { assert own[i] == own[j + 1..][i - j - 1]; }
    }
    OwnSplit(env, level.ns, own, j, full, before);
  }

  /** A wrapped array streams exactly what it would pull, wherever it stands among the fields. */
  lemma {:induction false} WrappedIsPulled(env: Env, level: Level, v: Value, k: string, items: seq<Value>, e: Node)
    requires Ready(env, level, v, k) && ItemsTyped(env, ItemType(env, Holder(level, k).1), items)
    requires !Many(AttrsOf(env, Holder(level, k).1.ty))
    ensures LevelTyped(env, level, Full(v, k, items))
    ensures Streamed(env, level, v, k, items, e) == PrintLevel(env, level, Full(v, k, items), e)
    decreases level
  {
    hide PrintOwn, Filled, FieldTyped;
    if Declares(level.parent, k) {
      WrappedIsPulled(env, level.parent, v, k, items, e);
      OthersAlike(env, level.ns, level.own, v, k, items, Streamed(env, level.parent, v, k, items, e));
    } else {
      PulledOwn(env, level, v, k, items, e);
    }
  }

  /** The fields that are declared after the pushed one, in the class that declares it. */
  function Later(level: Level, k: string): seq<Field>
    requires Declares(level, k)
  {
    if Declares(level.parent, k) then Later(level.parent, k) else level.own[IndexOf(level.own, k) + 1..]
  }

  /** An unwrapped list streams the child elements that it would pull exactly when the fields that are
      declared after it, in the class that declares it, have no child elements to write.  Classes that
      derive from that one make no difference. */
  lemma {:induction false} UnwrappedIsPulled(env: Env, level: Level, v: Value, k: string, items: seq<Value>, e: Node)
    requires Ready(env, level, v, k) && ItemsTyped(env, ItemType(env, Holder(level, k).1), items)
    requires Many(AttrsOf(env, Holder(level, k).1.ty))
    ensures OwnTyped(env, Later(level, k), v) && LevelTyped(env, level, Full(v, k, items))
    ensures Streamed(env, level, v, k, items, e).kids == PrintLevel(env, level, Full(v, k, items), e).kids
       <==> AllQuiet(env, Later(level, k), v)
    decreases level
  {
    hide PrintOwn, Filled, AllQuiet, FieldTyped;
    if Declares(level.parent, k) {
      UnwrappedIsPulled(env, level.parent, v, k, items, e);
      var s, p := Streamed(env, level.parent, v, k, items, e), PrintLevel(env, level.parent, Full(v, k, items), e);
      OthersAlike(env, level.ns, level.own, v, k, items, p);
      OwnAdds(env, level.ns, level.own, v, s, p);
      SameCancels(s, p, PrintOwn(env, level.ns, level.own, v, s), PrintOwn(env, level.ns, level.own, v, p));
    } else {
      PulledOwn(env, level, v, k, items, e);
      OwnGrows(env, level.ns, Later(level, k), v, Streamed(env, level, v, k, items, e));
    }
  }

  // ---------- The suspended serialiser and its pusher ----------

  /** The coroutine over the members of one instance. */
  class Members {
    const prot: D.Protocol
    const level: Level
    const v: Value
    const k: string
    const elt: D.Element
    var list: D.Element?
    var waiting: bool
    ghost var start: Node
    ghost var sent: seq<Value>

    ghost predicate Fits()
    {
      Ready(prot.env, level, v, k)
    }

    ghost predicate Valid()
      reads this, elt, list
    {
      && Fits()
      && ItemsTyped(prot.env, ItemType(prot.env, Holder(level, k).1), sent)
      && (list == null <==> Many(AttrsOf(prot.env, Holder(level, k).1.ty)))
      && list != elt
      && if waiting then Suspended() else elt.Tree() == Streamed(prot.env, level, v, k, sent, start)
    }

    /** In front of the pushed member everything is written, and of the member the items sent so far. */
    ghost predicate Suspended()
      requires Fits()
      requires ItemsTyped(prot.env, ItemType(prot.env, Holder(level, k).1), sent)
      requires list == null <==> Many(AttrsOf(prot.env, Holder(level, k).1.ty))
      reads this, elt, list
    {
      var (ns, f) := Holder(level, k);
      var front := Opened(prot.env, level, v, k, start);
      if list == null then elt.Tree() == Filled(prot.env, ns, f, sent, front)
      else elt.Tree() == front && list.Tree() == Wrapped(prot.env, ns, f, sent)
    }

    /** Runs up to the pushed member. */
    constructor (prot: D.Protocol, level: Level, v: Value, k: string, elt: D.Element)
      requires Ready(prot.env, level, v, k)
      modifies elt
      ensures Valid() && waiting && sent == [] && start == old(elt.Tree())
      ensures this.prot == prot && this.level == level && this.v == v && this.k == k && this.elt == elt
      ensures list != null ==> fresh(list)
    {
      this.prot, this.level, this.v, this.k, this.elt := prot, level, v, k, elt;
      this.list := null;
      this.waiting, this.start, this.sent := true, elt.Tree(), [];
      new;
      Open(level);
      var (ns, f) := Holder(level, k);
      var at := AttrsOf(prot.env, f.ty);
      if !Many(at) {
        list := new D.Element(Tag(at, MemberNs(at, ns), MemberName(at, f.name)), []);
      }
    }

    method Open(level: Level)
      requires LevelTyped(prot.env, level, v) && Declares(level, k)
      modifies elt
      ensures elt.Tree() == Opened(prot.env, level, v, k, old(elt.Tree()))
      decreases level
    {
      if Declares(level.parent, k) {
        Open(level.parent);
      } else {
        prot.GetMembersEtree(level.parent, v, elt);
        OwnMembers(level.ns, level.own[..IndexOf(level.own, k)]);
      }
    }

    method OwnMembers(ns: string, own: seq<Field>)
      requires OwnTyped(prot.env, own, v)
      modifies elt
      ensures elt.Tree() == PrintOwn(prot.env, ns, own, v, old(elt.Tree()))
    {
      ghost var before := elt.Tree();
      assert own[..0] == [];
      for i := 0 to |own|
        invariant OwnTyped(prot.env, own[..i], v)
        invariant elt.Tree() == PrintOwn(prot.env, ns, own[..i], v, before)
      {
        assert FieldTyped(prot.env, own[i], v);
        prot.MemberToParent(ns, own[i], v, elt);
        assert own[..i + 1][..i] == own[..i];
      }
      assert own[..|own|] == own;
    }

    /** `send`: writes one more item, or fails when the coroutine has ended. */
    method Send(item: Value) returns (ok: bool)
      requires Valid() && WellTyped(prot.env, ItemType(prot.env, Holder(level, k).1), item)
      modifies this`sent, elt, list
      ensures Valid() && ok == waiting
      ensures sent == if waiting then old(sent) + [item] else old(sent)
      ensures !waiting ==> elt.Tree() == old(elt.Tree())
    {
      if !waiting {
        return false;
      }
      var (ns, f) := Holder(level, k);
      var at := AttrsOf(prot.env, ItemType(prot.env, f));
      if list == null {
        prot.ToParent(f.ty, item, elt, MemberNs(at, ns), MemberName(at, f.name));
      } else {
        prot.ToParent(f.ty.item, item, list, MemberNs(at, f.ty.ns), MemberName(at, f.ty.member));
      }
      sent := sent + [item];
      assert sent[..|sent| - 1] == old(sent);
      return true;
    }

    /** `throw(Break())` */
    method Throw()
      requires Valid()
      modifies this`waiting, elt
      ensures Valid() && !waiting && sent == old(sent)
    {
      if waiting {
        if list != null {
          elt.Append(list.Tree());
        }
        Resume(level);
        waiting := false;
      }
    }

    method Resume(level: Level)
      requires LevelTyped(prot.env, level, v) && Declares(level, k) && Pushable(prot.env, Holder(level, k).1)
      modifies elt
      ensures elt.Tree() == Resumed(prot.env, level, v, k, old(elt.Tree()))
      decreases level
    {
      if Declares(level.parent, k) {
        Resume(level.parent);
        OwnMembers(level.ns, level.own);
      } else if !Many(AttrsOf(prot.env, Holder(level, k).1.ty)) {
        OwnMembers(level.ns, level.own[IndexOf(level.own, k) + 1..]);
      }
    }
  }

  /** `PushBase`; `finished` counts the calls of `_cb_finish`. */
  class Pusher {
    const gen: Members
    var length: nat
    var finished: nat

    ghost predicate Valid()
      reads this, gen, gen.elt, gen.list
    {
      gen.Valid() && length == |gen.sent|
    }

    constructor (gen: Members)
      requires gen.Valid() && gen.sent == []
      ensures Valid() && this.gen == gen && finished == 0
    {
      this.gen, this.length, this.finished := gen, 0, 0;
    }

    method Append(item: Value) returns (ok: bool)
      requires Valid() && WellTyped(gen.prot.env, ItemType(gen.prot.env, Holder(gen.level, gen.k).1), item)
      modifies this`length, gen`sent, gen.elt, gen.list
      ensures Valid() && ok == gen.waiting
      ensures gen.sent == if ok then old(gen.sent) + [item] else old(gen.sent)
    {
      ok := gen.Send(item);
      if ok {
        length := length + 1;
      }
    }

    method Extend(items: seq<Value>) returns (ok: bool)
      requires Valid() && ItemsTyped(gen.prot.env, ItemType(gen.prot.env, Holder(gen.level, gen.k).1), items)
      modifies this`length, gen`sent, gen.elt, gen.list
      ensures Valid() && (items != [] ==> ok == gen.waiting)
      ensures gen.sent == if ok then old(gen.sent) + items else old(gen.sent)
    {
      for i := 0 to |items|
        invariant Valid() && gen.sent == old(gen.sent) + items[..i] && (i > 0 ==> gen.waiting)
      {
        ok := Append(items[i]);
        if !ok {
          assert items[..i] == [];
          return false;
        }
        assert items[..i + 1] == items[..i] + [items[i]];
      }
      assert items[..|items|] == items;
      return true;
    }

    /** After `close`, the element is what a pusher of exactly these items writes, and `len` is their number. */
    method Close()
      requires Valid()
      modifies this`finished, gen`waiting, gen.elt
      ensures Valid() && !gen.waiting && gen.sent == old(gen.sent) && finished == old(finished) + 1
      ensures gen.elt.Tree() == Streamed(gen.prot.env, gen.level, gen.v, gen.k, gen.sent, gen.start)
      ensures length == |gen.sent|
    {
      gen.Throw();
      finished := finished + 1;
    }
  }
}
