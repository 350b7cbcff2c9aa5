/** The primitives of a class and of everything inside it, found by a worklist on a graph of types that
    may be cyclic. */
module Flatten {
  import opened Wrappers

  type TypeId = nat

  /** `fields` is the flat type info; an array has one field.  `maxOccurs` is `None` when unbounded. */
  datatype TypeDef = TypeDef(
    complex: bool,
    isArray: bool,
    maxOccurs: Option<nat>,
    subName: Option<string>,
    fields: seq<(string, TypeId)>)

  type Graph = map<TypeId, TypeDef>

  datatype Entry = Entry(path: seq<string>, parent: TypeId, ty: TypeId, isArray: seq<bool>, canBeEmpty: bool)

  datatype Item = Item(keys: seq<string>, ty: TypeId, prefix: seq<string>, isArray: seq<bool>, parent: TypeId)

  datatype Conflict = Conflict(path: seq<string>)

  ghost predicate GraphOk(g: Graph) {
    forall t | t in g ::
      && (forall i | 0 <= i < |g[t].fields| :: g[t].fields[i].1 in g)
      && (forall i, j | 0 <= i < j < |g[t].fields| :: g[t].fields[i].0 != g[t].fields[j].0)
      && (g[t].isArray ==> g[t].complex && |g[t].fields| == 1)
  }

  predicate IsArray(g: Graph, t: TypeId)
    requires t in g
  {
    g[t].isArray || g[t].maxOccurs == None || g[t].maxOccurs.value > 1
  }

  /** An array that occurs once stands for its items. */
  function Unwrap(g: Graph, t: TypeId): TypeId
    requires GraphOk(g) && t in g
    ensures Unwrap(g, t) in g
  {
    if g[t].isArray && g[t].maxOccurs == Some(1) then g[t].fields[0].1 else t
  }

  function IndexOf(fields: seq<(string, TypeId)>, k: string): Option<nat> {
    if fields == [] then None
    else if fields[|fields| - 1].0 == k then Some(|fields| - 1)
    else IndexOf(fields[..|fields| - 1], k)
  }

  lemma {:induction false} IndexFound(fields: seq<(string, TypeId)>, i: nat)
    requires i < |fields|
    requires forall i, j | 0 <= i < j < |fields| :: fields[i].0 != fields[j].0
    ensures IndexOf(fields, fields[i].0) == Some(i)
  {
    if i < |fields| - 1 {
      IndexFound(fields[..|fields| - 1], i);
    }
  }

  lemma {:induction false} IndexIsField(fields: seq<(string, TypeId)>, k: string)
    ensures IndexOf(fields, k).Some? ==> IndexOf(fields, k).value < |fields| && fields[IndexOf(fields, k).value].0 == k
  {
    if fields != [] {
      IndexIsField(fields[..|fields| - 1], k);
    }
  }

  /** The declared type of field `k`. */
  function FieldType(g: Graph, t: TypeId, k: string): Option<TypeId>
    requires GraphOk(g) && t in g
    ensures FieldType(g, t, k).Some? ==> FieldType(g, t, k).value in g
  {
    IndexIsField(g[t].fields, k);
    match IndexOf(g[t].fields, k)
    case None => None
    case Some(i) => Some(g[t].fields[i].1)
  }

  /** Where a path of field names leads, arrays unwrapped at each step; only complex types have fields. */
  function Walk(g: Graph, root: TypeId, path: seq<string>): Option<TypeId>
    requires GraphOk(g) && root in g
    ensures Walk(g, root, path).Some? ==> Walk(g, root, path).value in g
  {
    if path == [] then Some(root)
    else match Walk(g, root, path[..|path| - 1])
      case None => None
      case Some(t) =>
        if !g[t].complex then None
        else match FieldType(g, t, path[|path| - 1])
          case None => None
          case Some(u) => Some(Unwrap(g, u))
  }

  function ShownName(g: Graph, useSubNames: bool, t: TypeId, k: string): string
    requires t in g
  {
    if useSubNames && g[t].subName.Some? then g[t].subName.value else k
  }

  /** The names along a path as they appear in keys. */
  function ShownPath(g: Graph, root: TypeId, path: seq<string>, useSubNames: bool): seq<string>
    requires GraphOk(g) && root in g
  {
    if path == [] then []
    else
      var front, k := path[..|path| - 1], path[|path| - 1];
      ShownPath(g, root, front, useSubNames) +
      match Walk(g, root, front)
      case None => [k]
      case Some(t) =>
        match FieldType(g, t, k)
        case None => [k]
        case Some(u) => [ShownName(g, useSubNames, u, k)]
  }

  /** The flags along a path: that of the first field type, and after it those of the types passed. */
  function Flags(g: Graph, root: TypeId, path: seq<string>): seq<bool>
    requires GraphOk(g) && root in g
  {
    if path == [] then []
    else
      var front, k := path[..|path| - 1], path[|path| - 1];
      Flags(g, root, front) +
      match Walk(g, root, front)
      case None => [false]
      case Some(t) =>
        if front != [] then [IsArray(g, t)]
        else match FieldType(g, t, k)
          case None => [false]
          case Some(u) => [IsArray(g, u)]
  }

  function Join(delim: string, names: seq<string>): string {
    if names == [] then ""
    else if |names| == 1 then names[0]
    else Join(delim, names[..|names| - 1]) + delim + names[|names| - 1]
  }

  function KeyAt(g: Graph, root: TypeId, path: seq<string>, useSubNames: bool, delim: string): string
    requires GraphOk(g) && root in g
  {
    Join(delim, ShownPath(g, root, path, useSubNames))
  }

  lemma {:induction false} FlagPerStep(g: Graph, root: TypeId, path: seq<string>)
    requires GraphOk(g) && root in g
    ensures |Flags(g, root, path)| == |path|
  {
    if path != [] {
      FlagPerStep(g, root, path[..|path| - 1]);
    }
  }

  // ---------- What the worklist keeps ----------

  /** `expanded` holds, for every type whose fields have been queued, the path it was found at. */
  ghost predicate ExpandedOk(g: Graph, root: TypeId, expanded: map<TypeId, seq<string>>)
    requires GraphOk(g) && root in g
  {
    && root in expanded && expanded[root] == []
    && forall t | t in expanded :: t in g && g[t].complex && Walk(g, root, expanded[t]) == Some(t)
  }

  ghost predicate ItemOk(g: Graph, root: TypeId, useSubNames: bool, expanded: map<TypeId, seq<string>>, item: Item)
    requires GraphOk(g) && root in g
  {
    && item.keys != []
    && item.parent in expanded && item.parent in g && g[item.parent].complex
    && item.keys[..|item.keys| - 1] == expanded[item.parent]
    && Walk(g, root, expanded[item.parent]) == Some(item.parent)
    && FieldType(g, item.parent, item.keys[|item.keys| - 1]) == Some(item.ty)
    && item.prefix == ShownPath(g, root, item.keys, useSubNames)
    && item.isArray == Flags(g, root, item.keys)
  }

  /** The queue is ordered by depth, spans two depths at most, and lies below everything expanded. */
  ghost predicate Layered(expanded: map<TypeId, seq<string>>, queue: seq<Item>) {
    && (forall i, j | 0 <= i < j < |queue| :: |queue[i].keys| <= |queue[j].keys| <= |queue[i].keys| + 1)
    && (forall t, i | t in expanded && 0 <= i < |queue| :: |expanded[t]| <= |queue[i].keys|)
  }

  ghost predicate Waiting(queue: seq<Item>, path: seq<string>) {
    exists i :: 0 <= i < |queue| && queue[i].keys == path
  }

  /** Field `k` of an expanded type is still in the queue, or it was taken out: then it has an entry, and
      its type, if complex, has been expanded no deeper than there. */
  ghost predicate Handled(g: Graph, root: TypeId, useSubNames: bool, delim: string,
      expanded: map<TypeId, seq<string>>, queue: seq<Item>, entries: map<string, Entry>, t: TypeId, k: string)
    requires GraphOk(g) && root in g && t in g
  {
    FieldType(g, t, k).Some? && t in expanded ==>
      || Waiting(queue, expanded[t] + [k])
      || (var u := Unwrap(g, FieldType(g, t, k).value);
          && KeyAt(g, root, expanded[t] + [k], useSubNames, delim) in entries
          && (g[u].complex ==> u in expanded && |expanded[u]| <= |expanded[t]| + 1))
  }

  ghost predicate AllHandled(g: Graph, root: TypeId, useSubNames: bool, delim: string,
      expanded: map<TypeId, seq<string>>, queue: seq<Item>, entries: map<string, Entry>)
    requires GraphOk(g) && root in g
  {
    forall t, k: string | t in g :: Handled(g, root, useSubNames, delim, expanded, queue, entries, t, k)
  }

  /** An entry describes a real walk that ends at its type, one step beyond an expanded type. */
  ghost predicate EntryOk(g: Graph, root: TypeId, useSubNames: bool, delim: string,
      expanded: map<TypeId, seq<string>>, key: string, e: Entry)
    requires GraphOk(g) && root in g
  {
    && e.path != []
    && e.parent in expanded && e.path[..|e.path| - 1] == expanded[e.parent]
    && Walk(g, root, e.path) == Some(e.ty)
    && Walk(g, root, e.path[..|e.path| - 1]) == Some(e.parent)
    && |e.isArray| == |e.path| && e.isArray == Flags(g, root, e.path)
    && key == KeyAt(g, root, e.path, useSubNames, delim)
    && e.ty in g && e.canBeEmpty == g[e.ty].complex
  }

  /** Once nothing waits, every walk to a complex type finds it expanded, and no deeper: what is expanded
      is what can be reached, each type at the end of a shortest path. */
  lemma {:induction false} AllFound(g: Graph, root: TypeId, useSubNames: bool, delim: string,
      expanded: map<TypeId, seq<string>>, entries: map<string, Entry>, path: seq<string>)
    requires GraphOk(g) && root in g && ExpandedOk(g, root, expanded)
    requires AllHandled(g, root, useSubNames, delim, expanded, [], entries)
    ensures
      var t := Walk(g, root, path);
      t.Some? && g[t.value].complex ==> t.value in expanded && |expanded[t.value]| <= |path|
  {
    if path != [] && Walk(g, root, path).Some? {
      var front, k := path[..|path| - 1], path[|path| - 1];
      AllFound(g, root, useSubNames, delim, expanded, entries, front);
      var t := Walk(g, root, front).value;
      assert Handled(g, root, useSubNames, delim, expanded, [], entries, t, k);
    }
  }

  /** Child `j` of a type that is being expanded. */
  function ChildItem(g: Graph, item: Item, u: TypeId, j: nat, useSubNames: bool): Item
    requires GraphOk(g) && u in g && j < |g[u].fields|
  {
    var (k, v) := g[u].fields[j];
    Item(item.keys + [k], v, item.prefix + [ShownName(g, useSubNames, v, k)], item.isArray + [IsArray(g, u)], u)
  }

  function RootItem(g: Graph, root: TypeId, j: nat, useSubNames: bool): Item
    requires GraphOk(g) && root in g && j < |g[root].fields|
  {
    var (k, v) := g[root].fields[j];
    Item([k], v, [ShownName(g, useSubNames, v, k)], [IsArray(g, v)], root)
  }

  lemma FieldAt(g: Graph, t: TypeId, j: nat)
    requires GraphOk(g) && t in g && j < |g[t].fields|
    ensures FieldType(g, t, g[t].fields[j].0) == Some(g[t].fields[j].1)
  {
    IndexFound(g[t].fields, j);
  }

  lemma RootItemOk(g: Graph, root: TypeId, j: nat, useSubNames: bool)
    requires GraphOk(g) && root in g && g[root].complex && j < |g[root].fields|
    ensures ItemOk(g, root, useSubNames, map[root := []], RootItem(g, root, j, useSubNames))
  {
    FieldAt(g, root, j);
    var k := g[root].fields[j].0;
    assert [k][..0] == [] && ShownPath(g, root, [], useSubNames) == [] && Flags(g, root, []) == [];
    assert ShownPath(g, root, [k], useSubNames) == [] + [ShownName(g, useSubNames, g[root].fields[j].1, k)];
    assert Flags(g, root, [k]) == [] + [IsArray(g, g[root].fields[j].1)];
  }

  lemma ChildItemOk(g: Graph, root: TypeId, useSubNames: bool, expanded: map<TypeId, seq<string>>, item: Item,
      u: TypeId, j: nat)
    requires GraphOk(g) && root in g && u in g && g[u].complex && j < |g[u].fields|
    requires u in expanded && expanded[u] == item.keys && item.keys != [] && Walk(g, root, item.keys) == Some(u)
    requires item.prefix == ShownPath(g, root, item.keys, useSubNames) && item.isArray == Flags(g, root, item.keys)
    ensures ItemOk(g, root, useSubNames, expanded, ChildItem(g, item, u, j, useSubNames))
  {
    FieldAt(g, u, j);
    var k := g[u].fields[j].0;
    assert (item.keys + [k])[..|item.keys|] == item.keys;
  }

  /** Taking the first item out keeps every other field handled. */
  lemma StillHandled(g: Graph, root: TypeId, useSubNames: bool, delim: string,
      expanded: map<TypeId, seq<string>>, queue: seq<Item>, entries: map<string, Entry>,
      expanded1: map<TypeId, seq<string>>, queue1: seq<Item>, entries1: map<string, Entry>, t: TypeId, k: string)
    requires GraphOk(g) && root in g && t in g && queue != [] && t in expanded && t in expanded1
    requires Handled(g, root, useSubNames, delim, expanded, queue, entries, t, k)
    requires ItemOk(g, root, useSubNames, expanded, queue[0])
    requires ExpandedOk(g, root, expanded) && Layered(expanded, queue)
    requires queue[1..] <= queue1
    requires entries.Keys <= entries1.Keys
    requires KeyAt(g, root, queue[0].keys, useSubNames, delim) in entries1
    requires forall x | x in expanded :: x in expanded1 && expanded1[x] == expanded[x]
    requires
      var u := Unwrap(g, queue[0].ty);
      g[u].complex ==> u in expanded1 && (u !in expanded ==> expanded1[u] == queue[0].keys)
    ensures Handled(g, root, useSubNames, delim, expanded1, queue1, entries1, t, k)
  {
    if FieldType(g, t, k).Some? && Waiting(queue, expanded[t] + [k]) {
      var i :| 0 <= i < |queue| && queue[i].keys == expanded[t] + [k];
      if i > 0 {
        assert queue1[i - 1] == queue[1..][i - 1] == queue[i];
        assert Waiting(queue1, expanded1[t] + [k]);
      } else {
        assert (expanded[t] + [k])[..|expanded[t]|] == expanded[t];
        assert queue[0].parent == t;
      }
    }
  }

  // ---------- The loop ----------

  ghost predicate LoopInv(g: Graph, root: TypeId, useSubNames: bool, delim: string,
      expanded: map<TypeId, seq<string>>, queue: seq<Item>, entries: map<string, Entry>)
    requires GraphOk(g) && root in g
  {
    && ExpandedOk(g, root, expanded)
    && Layered(expanded, queue)
    && (forall i | 0 <= i < |queue| :: ItemOk(g, root, useSubNames, expanded, queue[i]))
    && (forall key | key in entries :: EntryOk(g, root, useSubNames, delim, expanded, key, entries[key]))
    && AllHandled(g, root, useSubNames, delim, expanded, queue, entries)
  }

  ghost predicate PathsOnce(items: seq<Item>) {
    forall i, j | 0 <= i < j < |items| :: items[i].keys != items[j].keys
  }

  lemma StartInv(g: Graph, root: TypeId, useSubNames: bool, delim: string, queue: seq<Item>)
    requires GraphOk(g) && root in g && g[root].complex && |queue| == |g[root].fields|
    requires forall j | 0 <= j < |queue| :: queue[j] == RootItem(g, root, j, useSubNames)
    ensures LoopInv(g, root, useSubNames, delim, map[root := []], queue, map[])
  {
    forall j | 0 <= j < |queue| ensures ItemOk(g, root, useSubNames, map[root := []], queue[j]) {
      RootItemOk(g, root, j, useSubNames);
    }
    forall t, k: string | t in g
      ensures Handled(g, root, useSubNames, delim, map[root := []], queue, map[], t, k)
    {
      if t == root && FieldType(g, t, k).Some? {
        IndexIsField(g[t].fields, k);
        var j := IndexOf(g[t].fields, k).value;
        assert queue[j].keys == [] + [k];
      }
    }
  }

  lemma ItemWalk(g: Graph, root: TypeId, useSubNames: bool, expanded: map<TypeId, seq<string>>, item: Item)
    requires GraphOk(g) && root in g && ItemOk(g, root, useSubNames, expanded, item)
    ensures Walk(g, root, item.keys) == Some(Unwrap(g, item.ty))
  {
  }

  lemma EntryStays(g: Graph, root: TypeId, useSubNames: bool, delim: string, expanded: map<TypeId, seq<string>>,
      expanded1: map<TypeId, seq<string>>, key: string, e: Entry)
    requires GraphOk(g) && root in g && EntryOk(g, root, useSubNames, delim, expanded, key, e)
    requires forall x | x in expanded :: x in expanded1 && expanded1[x] == expanded[x]
    ensures EntryOk(g, root, useSubNames, delim, expanded1, key, e)
  {
  }

  function NewEntry(g: Graph, item: Item): Entry
    requires GraphOk(g) && item.ty in g
  {
    var u := Unwrap(g, item.ty);
    Entry(item.keys, item.parent, u, item.isArray, g[u].complex)
  }

  lemma NewEntryOk(g: Graph, root: TypeId, useSubNames: bool, delim: string, expanded: map<TypeId, seq<string>>,
      item: Item)
    requires GraphOk(g) && root in g && item.ty in g && ItemOk(g, root, useSubNames, expanded, item)
    ensures EntryOk(g, root, useSubNames, delim, expanded, Join(delim, item.prefix), NewEntry(g, item))
  {
    FlagPerStep(g, root, item.keys);
  }

  /** An item whose type is primitive, or was expanded before, adds its entry. */
  lemma PlainStep(g: Graph, root: TypeId, useSubNames: bool, delim: string,
      expanded: map<TypeId, seq<string>>, queue: seq<Item>, entries: map<string, Entry>)
    requires GraphOk(g) && root in g && queue != [] && LoopInv(g, root, useSubNames, delim, expanded, queue, entries)
    requires queue[0].ty in g
    requires g[Unwrap(g, queue[0].ty)].complex ==> Unwrap(g, queue[0].ty) in expanded
    ensures LoopInv(g, root, useSubNames, delim, expanded, queue[1..],
                    entries[Join(delim, queue[0].prefix) := NewEntry(g, queue[0])])
  {
    hide ItemOk, EntryOk, Handled, Layered, ExpandedOk, GraphOk;
    var item := queue[0];
    var entries1 := entries[Join(delim, item.prefix) := NewEntry(g, item)];
    assert ItemOk(g, root, useSubNames, expanded, item);
    NewEntryOk(g, root, useSubNames, delim, expanded, item);
    KeyOfItem(g, root, useSubNames, delim, expanded, item);
    forall t, k: string | t in g
      ensures Handled(g, root, useSubNames, delim, expanded, queue[1..], entries1, t, k)
    {
      if t in expanded {
        StillHandled(g, root, useSubNames, delim, expanded, queue, entries, expanded, queue[1..], entries1, t, k);
      } else {
        Unexpanded(g, root, useSubNames, delim, expanded, queue[1..], entries1, t, k);
      }
    }
    RestLayered(expanded, queue);
    forall i | 0 <= i < |queue[1..]| ensures ItemOk(g, root, useSubNames, expanded, queue[1..][i]) {
      assert ItemOk(g, root, useSubNames, expanded, queue[i + 1]);
    }
  }

  lemma RestLayered(expanded: map<TypeId, seq<string>>, queue: seq<Item>)
    requires queue != [] && Layered(expanded, queue)
    ensures Layered(expanded, queue[1..])
  {
    forall i | 0 <= i < |queue[1..]| ensures queue[1..][i] == queue[i + 1] {}
  }

  lemma KeyOfItem(g: Graph, root: TypeId, useSubNames: bool, delim: string, expanded: map<TypeId, seq<string>>,
      item: Item)
    requires GraphOk(g) && root in g && ItemOk(g, root, useSubNames, expanded, item)
    ensures Join(delim, item.prefix) == KeyAt(g, root, item.keys, useSubNames, delim)
  {
  }

  lemma Unexpanded(g: Graph, root: TypeId, useSubNames: bool, delim: string,
      expanded: map<TypeId, seq<string>>, queue: seq<Item>, entries: map<string, Entry>, t: TypeId, k: string)
    requires GraphOk(g) && root in g && t in g && t !in expanded
    ensures Handled(g, root, useSubNames, delim, expanded, queue, entries, t, k)
  {
  }

  lemma FreshHandled(g: Graph, root: TypeId, useSubNames: bool, delim: string,
      expanded: map<TypeId, seq<string>>, queue: seq<Item>, entries: map<string, Entry>, item: Item, n: nat,
      u: TypeId, k: string)
    requires GraphOk(g) && root in g && u in g && u in expanded && expanded[u] == item.keys
    requires |queue| == n + |g[u].fields|
    requires forall j | 0 <= j < |g[u].fields| :: queue[n + j] == ChildItem(g, item, u, j, useSubNames)
    ensures Handled(g, root, useSubNames, delim, expanded, queue, entries, u, k)
  {
    if FieldType(g, u, k).Some? {
      IndexIsField(g[u].fields, k);
      var j := IndexOf(g[u].fields, k).value;
      assert queue[n + j] == ChildItem(g, item, u, j, useSubNames);
      assert g[u].fields[j].0 == k;
      assert queue[n + j].keys == expanded[u] + [k];
    }
  }

  lemma ItemStays(g: Graph, root: TypeId, useSubNames: bool, expanded: map<TypeId, seq<string>>,
      expanded1: map<TypeId, seq<string>>, item: Item)
    requires GraphOk(g) && root in g && ItemOk(g, root, useSubNames, expanded, item)
    requires forall x | x in expanded :: x in expanded1 && expanded1[x] == expanded[x]
    ensures ItemOk(g, root, useSubNames, expanded1, item)
  {
  }

  /** An item of a new complex type adds its entry and queues the fields of the type. */
  lemma ExpandStep(g: Graph, root: TypeId, useSubNames: bool, delim: string,
      expanded: map<TypeId, seq<string>>, queue: seq<Item>, entries: map<string, Entry>, queue1: seq<Item>)
    requires GraphOk(g) && root in g && queue != [] && LoopInv(g, root, useSubNames, delim, expanded, queue, entries)
    requires queue[0].ty in g
    requires g[Unwrap(g, queue[0].ty)].complex && Unwrap(g, queue[0].ty) !in expanded
    requires
      var u := Unwrap(g, queue[0].ty);
      && queue[1..] <= queue1 && |queue1| == |queue| - 1 + |g[u].fields|
      && forall j | 0 <= j < |g[u].fields| :: queue1[|queue| - 1 + j] == ChildItem(g, queue[0], u, j, useSubNames)
    ensures LoopInv(g, root, useSubNames, delim, expanded[Unwrap(g, queue[0].ty) := queue[0].keys], queue1,
                    entries[Join(delim, queue[0].prefix) := NewEntry(g, queue[0])])
  {
    hide ItemOk, EntryOk, Handled, FieldType, Layered, GraphOk, Walk;
    var item, n := queue[0], |queue| - 1;
    var u := Unwrap(g, item.ty);
    var expanded1 := expanded[u := item.keys];
    var entries1 := entries[Join(delim, item.prefix) := NewEntry(g, item)];
    assert ItemOk(g, root, useSubNames, expanded, item);
    ItemWalk(g, root, useSubNames, expanded, item);
    KeyOfItem(g, root, useSubNames, delim, expanded, item);
    ItemShape(g, root, useSubNames, expanded, item);
    QueueOk(g, root, useSubNames, expanded, queue, queue1, u);
    NewEntryOk(g, root, useSubNames, delim, expanded, item);
    forall key | key in entries1 ensures EntryOk(g, root, useSubNames, delim, expanded1, key, entries1[key]) {
      EntryStays(g, root, useSubNames, delim, expanded, expanded1, key, entries1[key]);
    }
    ExpandHandled(g, root, useSubNames, delim, expanded, queue, entries, queue1, entries1, u);
    StillLayered(g, expanded, queue, queue1, u, useSubNames);
  }

  lemma ExpandHandled(g: Graph, root: TypeId, useSubNames: bool, delim: string, expanded: map<TypeId, seq<string>>,
      queue: seq<Item>, entries: map<string, Entry>, queue1: seq<Item>, entries1: map<string, Entry>, u: TypeId)
    requires GraphOk(g) && root in g && u in g && u !in expanded && queue != []
    requires ItemOk(g, root, useSubNames, expanded, queue[0]) && queue[0].ty in g && Unwrap(g, queue[0].ty) == u
    requires ExpandedOk(g, root, expanded) && Layered(expanded, queue)
    requires AllHandled(g, root, useSubNames, delim, expanded, queue, entries)
    requires entries.Keys <= entries1.Keys
    requires KeyAt(g, root, queue[0].keys, useSubNames, delim) in entries1
    requires queue[1..] <= queue1 && |queue1| == |queue| - 1 + |g[u].fields|
    requires forall j | 0 <= j < |g[u].fields| :: queue1[|queue| - 1 + j] == ChildItem(g, queue[0], u, j, useSubNames)
    ensures AllHandled(g, root, useSubNames, delim, expanded[u := queue[0].keys], queue1, entries1)
  {
    hide ItemOk, Handled, FieldType, Layered, Walk, ExpandedOk, KeyAt;
    var expanded1 := expanded[u := queue[0].keys];
    forall t, k: string | t in g
      ensures Handled(g, root, useSubNames, delim, expanded1, queue1, entries1, t, k)
    {
      if t == u {
        FreshHandled(g, root, useSubNames, delim, expanded1, queue1, entries1, queue[0], |queue| - 1, u, k);
      } else if t in expanded {
        StillHandled(g, root, useSubNames, delim, expanded, queue, entries, expanded1, queue1, entries1, t, k);
      } else {
        Unexpanded(g, root, useSubNames, delim, expanded1, queue1, entries1, t, k);
      }
    }
  }

  function Front(p: seq<string>): seq<string> {
    if p == [] then [] else p[..|p| - 1]
  }

  /** The fields of a type that was just expanded are new paths. */
  lemma NewPathsOnce(g: Graph, item: Item, before: seq<Item>, all: seq<Item>, u: TypeId, useSubNames: bool)
    requires GraphOk(g) && u in g && PathsOnce(before)
    requires forall i | 0 <= i < |before| :: Front(before[i].keys) != item.keys
    requires before <= all && |all| == |before| + |g[u].fields|
    requires forall j | 0 <= j < |g[u].fields| :: all[|before| + j] == ChildItem(g, item, u, j, useSubNames)
    ensures PathsOnce(all)
  {
    var n, base := |before|, item.keys;
    forall i | n <= i < |all|
      ensures Front(all[i].keys) == base && all[i].keys != base
      ensures all[i].keys[|base|..] == [g[u].fields[i - n].0]
    {
      assert all[n + (i - n)] == ChildItem(g, item, u, i - n, useSubNames);
    }
    forall i, j | 0 <= i < j < |all| ensures all[i].keys != all[j].keys {
      if i >= n {
        assert all[i].keys[|base|..] != all[j].keys[|base|..];
      } else if j >= n {
        assert Front(all[i].keys) != Front(all[j].keys);
      }
    }
  }

  lemma QueueOk(g: Graph, root: TypeId, useSubNames: bool, expanded: map<TypeId, seq<string>>, queue: seq<Item>,
      queue1: seq<Item>, u: TypeId)
    requires GraphOk(g) && root in g && u in g && g[u].complex && u !in expanded && queue != []
    requires forall i | 0 <= i < |queue| :: ItemOk(g, root, useSubNames, expanded, queue[i])
    requires Walk(g, root, queue[0].keys) == Some(u)
    requires queue[1..] <= queue1 && |queue1| == |queue| - 1 + |g[u].fields|
    requires forall j | 0 <= j < |g[u].fields| :: queue1[|queue| - 1 + j] == ChildItem(g, queue[0], u, j, useSubNames)
    ensures forall i | 0 <= i < |queue1| :: ItemOk(g, root, useSubNames, expanded[u := queue[0].keys], queue1[i])
  {
    hide ItemOk, GraphOk, Walk;
    var item, n, expanded1 := queue[0], |queue| - 1, expanded[u := queue[0].keys];
    ItemShape(g, root, useSubNames, expanded, item);
    forall i | 0 <= i < |queue1| ensures ItemOk(g, root, useSubNames, expanded1, queue1[i]) {
      if i < n {
        assert queue1[i] == queue[1..][i] == queue[i + 1];
        ItemStays(g, root, useSubNames, expanded, expanded1, queue[i + 1]);
      } else {
        assert queue1[n + (i - n)] == ChildItem(g, item, u, i - n, useSubNames);
        ChildItemOk(g, root, useSubNames, expanded1, item, u, i - n);
      }
    }
  }

  lemma ItemShape(g: Graph, root: TypeId, useSubNames: bool, expanded: map<TypeId, seq<string>>, item: Item)
    requires GraphOk(g) && root in g && ItemOk(g, root, useSubNames, expanded, item)
    ensures item.keys != [] && item.prefix == ShownPath(g, root, item.keys, useSubNames)
    ensures item.isArray == Flags(g, root, item.keys)
  {
  }

  lemma StillLayered(g: Graph, expanded: map<TypeId, seq<string>>, queue: seq<Item>, queue1: seq<Item>, u: TypeId,
      useSubNames: bool)
    requires GraphOk(g) && u in g && queue != [] && Layered(expanded, queue) && queue[1..] <= queue1
    requires |queue1| == |queue| - 1 + |g[u].fields|
    requires forall j | 0 <= j < |g[u].fields| :: queue1[|queue| - 1 + j] == ChildItem(g, queue[0], u, j, useSubNames)
    ensures Layered(expanded[u := queue[0].keys], queue1)
  {
    var n := |queue| - 1;
    forall i | 0 <= i < |queue1|
      ensures |queue[0].keys| <= |queue1[i].keys| <= |queue[0].keys| + 1
      ensures i < n ==> queue1[i] == queue[i + 1]
      ensures i >= n ==> |queue1[i].keys| == |queue[0].keys| + 1
    {
      if i < n {
        assert queue1[i] == queue[1..][i];
      } else {
        assert queue1[n + (i - n)] == ChildItem(g, queue[0], u, i - n, useSubNames);
      }
    }
  }

  /** Two different walks have the same key, and the second one ends at a primitive. */
  ghost predicate Clash(g: Graph, root: TypeId, useSubNames: bool, delim: string, p: seq<string>, q: seq<string>)
    requires GraphOk(g) && root in g
  {
    && p != q
    && Walk(g, root, p).Some? && Walk(g, root, q).Some? && !g[Walk(g, root, q).value].complex
    && KeyAt(g, root, p, useSubNames, delim) == KeyAt(g, root, q, useSubNames, delim)
  }

  // ---------- Whose entry it is ----------

  /** All items that were ever queued, in order: each is a field of an expanded type, no path comes twice,
      and no field is left out. */
  ghost predicate History(g: Graph, root: TypeId, useSubNames: bool, expanded: map<TypeId, seq<string>>, all: seq<Item>)
    requires GraphOk(g) && root in g
  {
    && (forall i | 0 <= i < |all| :: ItemOk(g, root, useSubNames, expanded, all[i]))
    && PathsOnce(all)
    && (forall t, k: string | t in g && t in expanded && FieldType(g, t, k).Some? :: Waiting(all, expanded[t] + [k]))
  }

  lemma StartHistory(g: Graph, root: TypeId, useSubNames: bool, delim: string, queue: seq<Item>)
    requires GraphOk(g) && root in g && g[root].complex && |queue| == |g[root].fields|
    requires forall j | 0 <= j < |queue| :: queue[j] == RootItem(g, root, j, useSubNames)
    ensures History(g, root, useSubNames, map[root := []], queue)
  {
    hide ItemOk, FieldType;
    StartInv(g, root, useSubNames, delim, queue);
    forall i, j | 0 <= i < j < |queue| ensures queue[i].keys != queue[j].keys {
      assert queue[i].keys[0] != queue[j].keys[0];
    }
    var first: map<TypeId, seq<string>> := map[root := []];
    forall t, k: string | t in g && t in first && FieldType(g, t, k).Some? ensures Waiting(queue, first[t] + [k]) {
      assert Handled(g, root, useSubNames, delim, first, queue, map[], t, k);
    }
  }

  lemma ExpandHistory(g: Graph, root: TypeId, useSubNames: bool, expanded: map<TypeId, seq<string>>, all: seq<Item>,
      n: nat, u: TypeId, all1: seq<Item>)
    requires GraphOk(g) && root in g && History(g, root, useSubNames, expanded, all) && n < |all|
    requires all[n].ty in g && Unwrap(g, all[n].ty) == u && u in g && g[u].complex && u !in expanded
    requires all <= all1 && |all1| == |all| + |g[u].fields|
    requires forall j | 0 <= j < |g[u].fields| :: all1[|all| + j] == ChildItem(g, all[n], u, j, useSubNames)
    ensures History(g, root, useSubNames, expanded[u := all[n].keys], all1)
  {
    hide ItemOk, GraphOk, Walk, FieldType, Waiting;
    var item, expanded1 := all[n], expanded[u := all[n].keys];
    assert ItemOk(g, root, useSubNames, expanded, item);
    ItemWalk(g, root, useSubNames, expanded, item);
    ItemShape(g, root, useSubNames, expanded, item);
    forall i | 0 <= i < |all1| ensures ItemOk(g, root, useSubNames, expanded1, all1[i]) {
      if i < |all| {
        ItemStays(g, root, useSubNames, expanded, expanded1, all[i]);
      } else {
        assert all1[|all| + (i - |all|)] == ChildItem(g, item, u, i - |all|, useSubNames);
        ChildItemOk(g, root, useSubNames, expanded1, item, u, i - |all|);
      }
    }
    forall i | 0 <= i < |all| ensures Front(all[i].keys) != item.keys {
      NotBelow(g, root, useSubNames, expanded, all[i], item.keys, u);
    }
    NewPathsOnce(g, item, all, all1, u, useSubNames);
    forall t, k: string | t in g && t in expanded1 && FieldType(g, t, k).Some?
      ensures Waiting(all1, expanded1[t] + [k])
    {
      if t == u { FreshWaits(g, useSubNames, all1, item, |all|, u, k); } else { StillWaits(all, all1, expanded[t] + [k]); }
    }
  }

  lemma NotBelow(g: Graph, root: TypeId, useSubNames: bool, expanded: map<TypeId, seq<string>>, item: Item,
      path: seq<string>, u: TypeId)
    requires GraphOk(g) && root in g && ItemOk(g, root, useSubNames, expanded, item)
    requires Walk(g, root, path) == Some(u) && u !in expanded
    ensures Front(item.keys) != path
  {
  }

  lemma StillWaits(all: seq<Item>, all1: seq<Item>, path: seq<string>)
    requires all <= all1 && Waiting(all, path)
    ensures Waiting(all1, path)
  {
    var i :| 0 <= i < |all| && all[i].keys == path;
    assert all1[i].keys == path;
  }

  lemma FreshWaits(g: Graph, useSubNames: bool, all: seq<Item>, item: Item, n: nat, u: TypeId, k: string)
    requires GraphOk(g) && u in g && |all| == n + |g[u].fields| && FieldType(g, u, k).Some?
    requires forall j | 0 <= j < |g[u].fields| :: all[n + j] == ChildItem(g, item, u, j, useSubNames)
    ensures Waiting(all, item.keys + [k])
  {
    IndexIsField(g[u].fields, k);
    var j := IndexOf(g[u].fields, k).value;
    assert all[n + j] == ChildItem(g, item, u, j, useSubNames);
  }

  /** The entries that the items make one after the other. */
  function EntriesOf(g: Graph, delim: string, items: seq<Item>): map<string, Entry>
    requires GraphOk(g)
  {
    if items == [] then map[]
    else
      var last := items[|items| - 1];
      var before := EntriesOf(g, delim, items[..|items| - 1]);
      if last.ty in g then before[Join(delim, last.prefix) := NewEntry(g, last)] else before
  }

  predicate Typed(g: Graph, item: Item) {
    item.ty in g
  }

  predicate Primitive(g: Graph, item: Item)
    requires GraphOk(g)
  {
    item.ty in g && !g[Unwrap(g, item.ty)].complex
  }

  /** No primitive came after an item of the same key. */
  ghost predicate NoConflict(g: Graph, delim: string, items: seq<Item>)
    requires GraphOk(g)
  {
    forall i, j | 0 <= i < j < |items| && Primitive(g, items[j]) ::
      Join(delim, items[i].prefix) != Join(delim, items[j].prefix)
  }

  lemma {:induction false} LastEntry(g: Graph, delim: string, items: seq<Item>, key: string) returns (i: nat)
    requires GraphOk(g) && forall i | 0 <= i < |items| :: Typed(g, items[i])
    requires exists i :: 0 <= i < |items| && Join(delim, items[i].prefix) == key
    ensures i < |items| && Typed(g, items[i]) && Join(delim, items[i].prefix) == key
    ensures forall j | i < j < |items| :: Join(delim, items[j].prefix) != key
    ensures key in EntriesOf(g, delim, items) && EntriesOf(g, delim, items)[key] == NewEntry(g, items[i])
  {
    hide GraphOk, Join, NewEntry;
    var last := |items| - 1;
    if Join(delim, items[last].prefix) == key {
      i := last;
    } else {
      var front := items[..last];
      var m :| 0 <= m < |items| && Join(delim, items[m].prefix) == key;
      assert front[m] == items[m];
      i := LastEntry(g, delim, front, key);
      assert forall j | 0 <= j < last :: front[j] == items[j];
    }
  }

  /** No other field of an expanded type has the key of field `k` of `t`. */
  ghost predicate OwnKey(g: Graph, root: TypeId, useSubNames: bool, delim: string, expanded: map<TypeId, seq<string>>,
      t: TypeId, k: string)
    requires GraphOk(g) && root in g && t in expanded
  {
    forall t1, k1: string | t1 in g && t1 in expanded && FieldType(g, t1, k1).Some? && (t1, k1) != (t, k) ::
      KeyAt(g, root, expanded[t1] + [k1], useSubNames, delim) != KeyAt(g, root, expanded[t] + [k], useSubNames, delim)
  }

  /** The entry under the key of a primitive field is its own exactly when no other field has that key; a
      complex field of that key comes later and takes the entry away. */
  lemma EntryExactly(g: Graph, root: TypeId, useSubNames: bool, delim: string, expanded: map<TypeId, seq<string>>,
      all: seq<Item>, t: TypeId, k: string)
    requires GraphOk(g) && root in g && ExpandedOk(g, root, expanded) && History(g, root, useSubNames, expanded, all)
    requires NoConflict(g, delim, all)
    requires t in g && t in expanded && FieldType(g, t, k).Some? && !g[Unwrap(g, FieldType(g, t, k).value)].complex
    ensures
      var path := expanded[t] + [k];
      var key := KeyAt(g, root, path, useSubNames, delim);
      && key in EntriesOf(g, delim, all)
      && (EntriesOf(g, delim, all)[key].path == path <==> OwnKey(g, root, useSubNames, delim, expanded, t, k))
  {
    hide GraphOk, ItemOk, ExpandedOk, Walk, FieldType, KeyAt, Join;
    var path := expanded[t] + [k];
    var key := KeyAt(g, root, path, useSubNames, delim);
    var i := ItemOf(g, root, useSubNames, delim, expanded, all, t, k);
    forall n | 0 <= n < |all|
      ensures Typed(g, all[n]) && Join(delim, all[n].prefix) == KeyAt(g, root, all[n].keys, useSubNames, delim)
    {
      ItemInGraph(g, root, useSubNames, expanded, all[n]);
      KeyOfItem(g, root, useSubNames, delim, expanded, all[n]);
    }
    var own := OwnKey(g, root, useSubNames, delim, expanded, t, k);
    if !own {
      var t1, k1: string :| t1 in g && t1 in expanded && FieldType(g, t1, k1).Some? && (t1, k1) != (t, k)
        && KeyAt(g, root, expanded[t1] + [k1], useSubNames, delim) == key;
      var j := ItemOf(g, root, useSubNames, delim, expanded, all, t1, k1);
      SamePathSameField(g, root, expanded, t, k, t1, k1);
      assert j > i && Join(delim, all[j].prefix) == key;
    }
    var m := LastEntry(g, delim, all, key);
    if m != i {
      FieldOfItem(g, root, useSubNames, expanded, all[m]);
      assert all[m].keys != path && !own;
    }
  }

  lemma ItemInGraph(g: Graph, root: TypeId, useSubNames: bool, expanded: map<TypeId, seq<string>>, item: Item)
    requires GraphOk(g) && root in g && ItemOk(g, root, useSubNames, expanded, item)
    ensures Typed(g, item)
  {
  }

  lemma FieldOfItem(g: Graph, root: TypeId, useSubNames: bool, expanded: map<TypeId, seq<string>>, item: Item)
    requires GraphOk(g) && root in g && ItemOk(g, root, useSubNames, expanded, item)
    ensures item.keys != [] && item.parent in expanded && item.parent in g
    ensures item.keys == expanded[item.parent] + [item.keys[|item.keys| - 1]]
    ensures FieldType(g, item.parent, item.keys[|item.keys| - 1]) == Some(item.ty)
  {
  }

  lemma SamePathSameField(g: Graph, root: TypeId, expanded: map<TypeId, seq<string>>, t: TypeId, k: string,
      t1: TypeId, k1: string)
    requires GraphOk(g) && root in g && ExpandedOk(g, root, expanded) && t in expanded && t1 in expanded
    ensures expanded[t] + [k] == expanded[t1] + [k1] ==> (t, k) == (t1, k1)
  {
    if expanded[t] + [k] == expanded[t1] + [k1] {
      var p, q := expanded[t] + [k], expanded[t1] + [k1];
      assert p[..|p| - 1] == expanded[t] && q[..|q| - 1] == expanded[t1];
      assert p[|p| - 1] == k && q[|q| - 1] == k1;
    }
  }

  lemma ItemIsField(g: Graph, root: TypeId, useSubNames: bool, expanded: map<TypeId, seq<string>>, item: Item,
      t: TypeId, k: string)
    requires GraphOk(g) && root in g && ExpandedOk(g, root, expanded) && ItemOk(g, root, useSubNames, expanded, item)
    requires t in g && t in expanded && item.keys == expanded[t] + [k]
    ensures item.parent == t && FieldType(g, t, k) == Some(item.ty)
  {
    hide FieldType;
    FieldOfItem(g, root, useSubNames, expanded, item);
    SamePathSameField(g, root, expanded, t, k, item.parent, item.keys[|item.keys| - 1]);
  }

  /** One more item is taken: a primitive only when its key has no entry. */
  lemma TakeOne(g: Graph, delim: string, all: seq<Item>, n: nat)
    requires GraphOk(g) && n < |all| && all[n].ty in g && NoConflict(g, delim, all[..n])
    requires forall i | 0 <= i < |all| :: Typed(g, all[i])
    requires Primitive(g, all[n]) ==> Join(delim, all[n].prefix) !in EntriesOf(g, delim, all[..n])
    ensures EntriesOf(g, delim, all[..n + 1]) ==
      EntriesOf(g, delim, all[..n])[Join(delim, all[n].prefix) := NewEntry(g, all[n])]
    ensures NoConflict(g, delim, all[..n + 1])
  {
    hide GraphOk, Join;
    var more, front := all[..n + 1], all[..n];
    assert more[..n] == front && more[n] == all[n];
    forall i, j | 0 <= i < j < |more| && Primitive(g, more[j])
      ensures Join(delim, more[i].prefix) != Join(delim, more[j].prefix)
    {
      assert front[i] == more[i];
      if j < n {
        assert front[j] == more[j];
      } else if Join(delim, front[i].prefix) == Join(delim, all[n].prefix) {
        var m := LastEntry(g, delim, front, Join(delim, all[n].prefix));
      }
    }
  }

  /** `all[n..]` is the queue, and the entries are those of the items taken before. */
  ghost predicate Logged(g: Graph, root: TypeId, useSubNames: bool, delim: string, expanded: map<TypeId, seq<string>>,
      queue: seq<Item>, entries: map<string, Entry>, all: seq<Item>, n: nat)
    requires GraphOk(g) && root in g
  {
    && n <= |all| && queue == all[n..] && History(g, root, useSubNames, expanded, all)
    && entries == EntriesOf(g, delim, all[..n]) && NoConflict(g, delim, all[..n])
  }

  lemma ClashFound(g: Graph, root: TypeId, useSubNames: bool, delim: string, expanded: map<TypeId, seq<string>>,
      queue: seq<Item>, entries: map<string, Entry>, all: seq<Item>, n: nat)
    requires GraphOk(g) && root in g && Logged(g, root, useSubNames, delim, expanded, queue, entries, all, n)
    requires queue != [] && Primitive(g, queue[0]) && Join(delim, queue[0].prefix) in entries
    ensures Clash(g, root, useSubNames, delim, entries[Join(delim, queue[0].prefix)].path, queue[0].keys)
  {
    hide GraphOk, ItemOk, Walk, KeyAt, Join;
    var front, key := all[..n], Join(delim, queue[0].prefix);
    forall i | 0 <= i < |all|
      ensures Typed(g, all[i]) && Join(delim, all[i].prefix) == KeyAt(g, root, all[i].keys, useSubNames, delim)
      ensures Walk(g, root, all[i].keys) == Some(Unwrap(g, all[i].ty))
    {
      ItemInGraph(g, root, useSubNames, expanded, all[i]);
      KeyOfItem(g, root, useSubNames, delim, expanded, all[i]);
      ItemWalk(g, root, useSubNames, expanded, all[i]);
    }
    assert queue[0] == all[n];
    EntryHasItem(g, delim, front, key);
    var m := LastEntry(g, delim, front, key);
    assert front[m] == all[m];
  }

  lemma {:induction false} EntryHasItem(g: Graph, delim: string, items: seq<Item>, key: string)
    requires GraphOk(g) && key in EntriesOf(g, delim, items)
    ensures exists i :: 0 <= i < |items| && Join(delim, items[i].prefix) == key
  {
    hide GraphOk, Join, NewEntry;
    var last := items[|items| - 1];
    if last.ty !in g || Join(delim, last.prefix) != key {
      EntryHasItem(g, delim, items[..|items| - 1], key);
      var i :| 0 <= i < |items| - 1 && Join(delim, items[..|items| - 1][i].prefix) == key;
      assert items[i] == items[..|items| - 1][i];
    }
  }

  lemma StartLogged(g: Graph, root: TypeId, useSubNames: bool, delim: string, queue: seq<Item>)
    requires GraphOk(g) && root in g && g[root].complex && |queue| == |g[root].fields|
    requires forall j | 0 <= j < |queue| :: queue[j] == RootItem(g, root, j, useSubNames)
    ensures Logged(g, root, useSubNames, delim, map[root := []], queue, map[], queue, 0)
  {
    hide GraphOk, History;
    StartHistory(g, root, useSubNames, delim, queue);
    assert queue[..0] == [];
  }

  lemma PlainLogged(g: Graph, root: TypeId, useSubNames: bool, delim: string, expanded: map<TypeId, seq<string>>,
      queue: seq<Item>, entries: map<string, Entry>, all: seq<Item>, n: nat)
    requires GraphOk(g) && root in g && Logged(g, root, useSubNames, delim, expanded, queue, entries, all, n)
    requires queue != [] && queue[0].ty in g
    requires Primitive(g, queue[0]) ==> Join(delim, queue[0].prefix) !in entries
    ensures Logged(g, root, useSubNames, delim, expanded, queue[1..],
                   entries[Join(delim, queue[0].prefix) := NewEntry(g, queue[0])], all, n + 1)
  {
    hide GraphOk, ItemOk, NoConflict, EntriesOf, Join, NewEntry;
    forall i | 0 <= i < |all| ensures Typed(g, all[i]) { ItemInGraph(g, root, useSubNames, expanded, all[i]); }
    TakeOne(g, delim, all, n);
  }

  lemma ExpandLogged(g: Graph, root: TypeId, useSubNames: bool, delim: string, expanded: map<TypeId, seq<string>>,
      queue: seq<Item>, entries: map<string, Entry>, all: seq<Item>, n: nat, queue1: seq<Item>) returns (all1: seq<Item>)
    requires GraphOk(g) && root in g && Logged(g, root, useSubNames, delim, expanded, queue, entries, all, n)
    requires queue != [] && queue[0].ty in g
    requires g[Unwrap(g, queue[0].ty)].complex && Unwrap(g, queue[0].ty) !in expanded
    requires
      var u := Unwrap(g, queue[0].ty);
      && queue[1..] <= queue1 && |queue1| == |queue| - 1 + |g[u].fields|
      && forall j | 0 <= j < |g[u].fields| :: queue1[|queue| - 1 + j] == ChildItem(g, queue[0], u, j, useSubNames)
    ensures Logged(g, root, useSubNames, delim, expanded[Unwrap(g, queue[0].ty) := queue[0].keys], queue1,
                   entries[Join(delim, queue[0].prefix) := NewEntry(g, queue[0])], all1, n + 1)
    ensures all <= all1 && n + 1 <= |all1| && all1[n + 1..] == queue1
  {
    hide GraphOk, History, NoConflict, EntriesOf, Join, NewEntry;
    PlainLogged(g, root, useSubNames, delim, expanded, queue, entries, all, n);
    var u, added := Unwrap(g, queue[0].ty), queue1[|queue| - 1..];
    all1 := all + added;
    forall j | 0 <= j < |g[u].fields| ensures all1[|all| + j] == ChildItem(g, all[n], u, j, useSubNames) {
      assert all1[|all| + j] == added[j] == queue1[|queue| - 1 + j];
    }
    ExpandHistory(g, root, useSubNames, expanded, all, n, u, all1);
    assert all1[..n + 1] == all[..n + 1];
    assert all1[n + 1..] == queue[1..] + added == queue1;
  }

  lemma LoggedTaken(g: Graph, root: TypeId, useSubNames: bool, delim: string, expanded: map<TypeId, seq<string>>,
      queue: seq<Item>, entries: map<string, Entry>, all: seq<Item>, n: nat)
    requires GraphOk(g) && root in g && Logged(g, root, useSubNames, delim, expanded, queue, entries, all, n)
    ensures n <= |all| && entries == EntriesOf(g, delim, all[..n]) && NoConflict(g, delim, all[..n])
  {
    hide GraphOk, History, NoConflict, EntriesOf;
  }

  lemma LoggedExactly(g: Graph, root: TypeId, useSubNames: bool, delim: string, expanded: map<TypeId, seq<string>>,
      entries: map<string, Entry>, all: seq<Item>, n: nat)
    requires GraphOk(g) && root in g && ExpandedOk(g, root, expanded)
    requires Logged(g, root, useSubNames, delim, expanded, [], entries, all, n)
    ensures OwnEntries(g, root, useSubNames, delim, expanded, entries)
    ensures PrimitivesApart(g, root, useSubNames, delim, expanded)
  {
    hide GraphOk, History, NoConflict, EntriesOf, KeyAt, FieldType, OwnKey, ExpandedOk, PrimitivesApart;
    assert n == |all| && all[..n] == all;
    ApartKeys(g, root, useSubNames, delim, expanded, all);
    forall t, k: string |
        t in g && t in expanded && FieldType(g, t, k).Some? && !g[Unwrap(g, FieldType(g, t, k).value)].complex
      ensures OwnEntry(g, root, useSubNames, delim, expanded, entries, t, k)
    {
      EntryExactly(g, root, useSubNames, delim, expanded, all, t, k);
    }
  }

  /** The entry under the key of field `k` of `t` is its own exactly when no other field has that key. */
  ghost predicate OwnEntry(g: Graph, root: TypeId, useSubNames: bool, delim: string, expanded: map<TypeId, seq<string>>,
      entries: map<string, Entry>, t: TypeId, k: string)
    requires GraphOk(g) && root in g && t in expanded
  {
    var path := expanded[t] + [k];
    var key := KeyAt(g, root, path, useSubNames, delim);
    key in entries && (entries[key].path == path <==> OwnKey(g, root, useSubNames, delim, expanded, t, k))
  }

  ghost predicate OwnEntries(g: Graph, root: TypeId, useSubNames: bool, delim: string,
      expanded: map<TypeId, seq<string>>, entries: map<string, Entry>)
    requires GraphOk(g) && root in g
  {
    forall t, k: string |
        t in g && t in expanded && FieldType(g, t, k).Some? && !g[Unwrap(g, FieldType(g, t, k).value)].complex ::
      OwnEntry(g, root, useSubNames, delim, expanded, entries, t, k)
  }

  // ---------- The order of the visit ----------

  ghost predicate AllTyped(g: Graph, queue: seq<Item>) {
    forall i | 0 <= i < |queue| :: Typed(g, queue[i])
  }

  ghost function Children(g: Graph, item: Item, u: TypeId, useSubNames: bool): (r: seq<Item>)
    requires GraphOk(g) && u in g
    ensures |r| == |g[u].fields| && AllTyped(g, r)
    ensures forall j | 0 <= j < |r| :: r[j] == ChildItem(g, item, u, j, useSubNames)
  {
    seq(|g[u].fields|, j requires 0 <= j < |g[u].fields| => ChildItem(g, item, u, j, useSubNames))
  }

  /** The fields in the order in which they are taken out of the queue, keys aside. */
  ghost function Visit(g: Graph, useSubNames: bool, queue: seq<Item>, tags: set<TypeId>): seq<Item>
    requires GraphOk(g) && AllTyped(g, queue)
    decreases g.Keys - tags, |queue|
  {
    if queue == [] then []
    else
      var item := queue[0];
      assert Typed(g, item);
      var u := Unwrap(g, item.ty);
      [item] +
      if g[u].complex && u !in tags then
        assert g.Keys - (tags + {u}) < g.Keys - tags by { assert u in g.Keys - tags; }
        Visit(g, useSubNames, queue[1..] + Children(g, item, u, useSubNames), tags + {u})
      else Visit(g, useSubNames, queue[1..], tags)
  }

  /** Breadth first from the fields of the root, each type expanded where it is found first. */
  ghost function Trace(g: Graph, root: TypeId, useSubNames: bool): seq<Item>
    requires GraphOk(g) && root in g
  {
    var queue := seq(|g[root].fields|, j requires 0 <= j < |g[root].fields| => RootItem(g, root, j, useSubNames));
    assert AllTyped(g, queue);
    Visit(g, useSubNames, queue, {root})
  }

  /** What was taken so far is the beginning of the trace, and the queue leads to the rest. */
  ghost predicate OnTrace(g: Graph, root: TypeId, useSubNames: bool, queue: seq<Item>, tags: set<TypeId>,
      all: seq<Item>, n: nat)
    requires GraphOk(g) && root in g
  {
    && n <= |all| && queue == all[n..] && AllTyped(g, all)
    && Trace(g, root, useSubNames) == all[..n] + (assert AllTyped(g, queue); Visit(g, useSubNames, queue, tags))
  }

  lemma StartOnTrace(g: Graph, root: TypeId, useSubNames: bool, queue: seq<Item>)
    requires GraphOk(g) && root in g && |queue| == |g[root].fields|
    requires forall j | 0 <= j < |queue| :: queue[j] == RootItem(g, root, j, useSubNames)
    ensures OnTrace(g, root, useSubNames, queue, {root}, queue, 0)
  {
    assert queue == seq(|g[root].fields|, j requires 0 <= j < |g[root].fields| => RootItem(g, root, j, useSubNames));
    assert queue[0..] == queue && queue[..0] == [];
  }

  lemma PlainOnTrace(g: Graph, root: TypeId, useSubNames: bool, queue: seq<Item>, tags: set<TypeId>, all: seq<Item>,
      n: nat)
    requires GraphOk(g) && root in g && OnTrace(g, root, useSubNames, queue, tags, all, n)
    requires queue != [] && queue[0].ty in g
    requires g[Unwrap(g, queue[0].ty)].complex ==> Unwrap(g, queue[0].ty) in tags
    ensures OnTrace(g, root, useSubNames, queue[1..], tags, all, n + 1)
  {
    hide GraphOk, Trace, Visit, Unwrap;
    VisitPlain(g, useSubNames, queue, tags);
    TakeNext(all, n);
    var later := Visit(g, useSubNames, queue[1..], tags);
    assert all[..n] + ([queue[0]] + later) == (all[..n] + [queue[0]]) + later;
  }

  lemma TakeNext(all: seq<Item>, n: nat)
    requires n < |all|
    ensures all[..n + 1] == all[..n] + [all[n]] && all[n + 1..] == all[n..][1..]
  {
  }

  lemma VisitPlain(g: Graph, useSubNames: bool, queue: seq<Item>, tags: set<TypeId>)
    requires GraphOk(g) && AllTyped(g, queue) && queue != [] && queue[0].ty in g
    requires g[Unwrap(g, queue[0].ty)].complex ==> Unwrap(g, queue[0].ty) in tags
    ensures AllTyped(g, queue[1..])
    ensures Visit(g, useSubNames, queue, tags) == [queue[0]] + Visit(g, useSubNames, queue[1..], tags)
  {
    hide GraphOk;
  }

  lemma VisitExpand(g: Graph, useSubNames: bool, queue: seq<Item>, tags: set<TypeId>)
    requires GraphOk(g) && AllTyped(g, queue) && queue != [] && queue[0].ty in g
    requires g[Unwrap(g, queue[0].ty)].complex && Unwrap(g, queue[0].ty) !in tags
    ensures AllTyped(g, queue[1..])
    ensures
      var u := Unwrap(g, queue[0].ty);
      var more := queue[1..] + Children(g, queue[0], u, useSubNames);
      && AllTyped(g, more)
      && Visit(g, useSubNames, queue, tags) == [queue[0]] + Visit(g, useSubNames, more, tags + {u})
  {
    hide GraphOk;
  }

  lemma ExpandOnTrace(g: Graph, root: TypeId, useSubNames: bool, queue: seq<Item>, tags: set<TypeId>, all: seq<Item>,
      n: nat, queue1: seq<Item>, all1: seq<Item>)
    requires GraphOk(g) && root in g && OnTrace(g, root, useSubNames, queue, tags, all, n)
    requires queue != [] && queue[0].ty in g && g[Unwrap(g, queue[0].ty)].complex && Unwrap(g, queue[0].ty) !in tags
    requires queue[1..] <= queue1 && |queue1| == |queue| - 1 + |g[Unwrap(g, queue[0].ty)].fields|
    requires forall j | 0 <= j < |queue1| - (|queue| - 1) ::
      queue1[|queue| - 1 + j] == ChildItem(g, queue[0], Unwrap(g, queue[0].ty), j, useSubNames)
    requires all <= all1 && n + 1 <= |all1| && all1[n + 1..] == queue1
    ensures OnTrace(g, root, useSubNames, queue1, tags + {Unwrap(g, queue[0].ty)}, all1, n + 1)
  {
    hide GraphOk, Trace, ChildItem, Visit, Unwrap;
    var u := Unwrap(g, queue[0].ty);
    VisitExpand(g, useSubNames, queue, tags);
    assert queue1 == queue[1..] + Children(g, queue[0], u, useSubNames);
    TakeNext(all, n);
    assert all1[..n + 1] == all[..n + 1];
    var later := Visit(g, useSubNames, queue1, tags + {u});
    assert all[..n] + ([queue[0]] + later) == (all[..n] + [queue[0]]) + later;
    TypedJoin(g, all, queue1, all1, n + 1);
  }

  lemma TypedJoin(g: Graph, all: seq<Item>, queue: seq<Item>, all1: seq<Item>, n: nat)
    requires AllTyped(g, all) && AllTyped(g, queue) && n <= |all| && all <= all1 && all1[n..] == queue
    ensures AllTyped(g, all1)
  {
    forall i | 0 <= i < |all1| ensures Typed(g, all1[i]) {
      if i < |all| { assert all1[i] == all[i]; } else { assert all1[i] == queue[i - n]; }
    }
  }

  /** An error comes of the first primitive that repeats a key. */
  lemma ErrorOnTrace(g: Graph, root: TypeId, useSubNames: bool, delim: string, queue: seq<Item>, tags: set<TypeId>,
      entries: map<string, Entry>, all: seq<Item>, n: nat)
    requires GraphOk(g) && root in g && OnTrace(g, root, useSubNames, queue, tags, all, n)
    requires entries == EntriesOf(g, delim, all[..n]) && NoConflict(g, delim, all[..n])
    requires queue != [] && Primitive(g, queue[0]) && Join(delim, queue[0].prefix) in entries
    ensures FirstRepeat(g, delim, Trace(g, root, useSubNames), n, entries[Join(delim, queue[0].prefix)].path)
    ensures !NoConflict(g, delim, Trace(g, root, useSubNames))
  {
    hide GraphOk, Join, Trace, Visit;
    var trace := Trace(g, root, useSubNames);
    VisitFirst(g, useSubNames, queue, tags);
    assert trace[..n] == all[..n] && trace[n] == queue[0];
    EntryHasItem(g, delim, all[..n], Join(delim, queue[0].prefix));
    var i :| 0 <= i < n && Join(delim, all[..n][i].prefix) == Join(delim, queue[0].prefix);
    assert trace[i] == trace[..n][i];
  }

  lemma VisitFirst(g: Graph, useSubNames: bool, queue: seq<Item>, tags: set<TypeId>)
    requires GraphOk(g) && AllTyped(g, queue) && queue != []
    ensures Visit(g, useSubNames, queue, tags) != [] && Visit(g, useSubNames, queue, tags)[0] == queue[0]
  {
  }

  lemma EndOnTrace(g: Graph, root: TypeId, useSubNames: bool, tags: set<TypeId>, all: seq<Item>, n: nat)
    requires GraphOk(g) && root in g && OnTrace(g, root, useSubNames, [], tags, all, n)
    ensures Trace(g, root, useSubNames) == all[..n]
  {
    hide GraphOk, Trace;
  }

  /** Item `n` is the first primitive whose key an item before it has; `path` is that of the last such one. */
  ghost predicate FirstRepeat(g: Graph, delim: string, trace: seq<Item>, n: nat, path: seq<string>)
    requires GraphOk(g)
  {
    && n < |trace| && NoConflict(g, delim, trace[..n]) && Primitive(g, trace[n])
    && var key := Join(delim, trace[n].prefix);
       key in EntriesOf(g, delim, trace[..n]) && path == EntriesOf(g, delim, trace[..n])[key].path
  }

  predicate PrimitiveField(g: Graph, t: TypeId, k: string)
    requires GraphOk(g) && t in g
  {
    FieldType(g, t, k).Some? && !g[Unwrap(g, FieldType(g, t, k).value)].complex
  }

  /** Primitive fields have different keys. */
  ghost predicate PrimitivesApart(g: Graph, root: TypeId, useSubNames: bool, delim: string,
      expanded: map<TypeId, seq<string>>)
    requires GraphOk(g) && root in g
  {
    forall t, k: string, t1, k1: string |
        t in g && t in expanded && PrimitiveField(g, t, k) && t1 in g && t1 in expanded && PrimitiveField(g, t1, k1)
        && (t, k) != (t1, k1) ::
      KeyAt(g, root, expanded[t] + [k], useSubNames, delim) != KeyAt(g, root, expanded[t1] + [k1], useSubNames, delim)
  }

  lemma ApartKeys(g: Graph, root: TypeId, useSubNames: bool, delim: string, expanded: map<TypeId, seq<string>>,
      all: seq<Item>)
    requires GraphOk(g) && root in g && ExpandedOk(g, root, expanded) && History(g, root, useSubNames, expanded, all)
    requires NoConflict(g, delim, all)
    ensures PrimitivesApart(g, root, useSubNames, delim, expanded)
  {
    hide GraphOk, ItemOk, ExpandedOk, Walk, FieldType, KeyAt, Join;
    forall t, k: string, t1, k1: string |
        t in g && t in expanded && PrimitiveField(g, t, k) && t1 in g && t1 in expanded && PrimitiveField(g, t1, k1)
        && (t, k) != (t1, k1)
      ensures KeyAt(g, root, expanded[t] + [k], useSubNames, delim)
        != KeyAt(g, root, expanded[t1] + [k1], useSubNames, delim)
    {
      var i := ItemOf(g, root, useSubNames, delim, expanded, all, t, k);
      var j := ItemOf(g, root, useSubNames, delim, expanded, all, t1, k1);
      SamePathSameField(g, root, expanded, t, k, t1, k1);
      assert i < j || j < i;
    }
  }

  /** The item of a field. */
  lemma ItemOf(g: Graph, root: TypeId, useSubNames: bool, delim: string, expanded: map<TypeId, seq<string>>,
      all: seq<Item>, t: TypeId, k: string) returns (i: nat)
    requires GraphOk(g) && root in g && ExpandedOk(g, root, expanded) && History(g, root, useSubNames, expanded, all)
    requires t in g && t in expanded && FieldType(g, t, k).Some?
    ensures i < |all| && all[i].keys == expanded[t] + [k] && FieldType(g, t, k) == Some(all[i].ty)
    ensures Join(delim, all[i].prefix) == KeyAt(g, root, expanded[t] + [k], useSubNames, delim)
  {
    hide GraphOk, ItemOk, ExpandedOk, Walk, FieldType, KeyAt, Join;
    i :| 0 <= i < |all| && all[i].keys == expanded[t] + [k];
    ItemIsField(g, root, useSubNames, expanded, all[i], t, k);
    KeyOfItem(g, root, useSubNames, delim, expanded, all[i]);
  }

  // ---------- Entries spelled out ----------

  /** Field `k` of `t` is declared with type `d` and leads to `u`: to the items of an array that occurs once,
      and to `d` itself otherwise. */
  predicate LeadsTo(g: Graph, t: TypeId, k: string, d: TypeId, u: TypeId) {
    && t in g && g[t].complex && (k, d) in g[t].fields && d in g
    && if g[d].isArray && g[d].maxOccurs == Some(1) then |g[d].fields| == 1 && u == g[d].fields[0].1 else u == d
  }

  /** The types that a path passes, and the declared types of its fields. */
  ghost predicate Trail(g: Graph, path: seq<string>, types: seq<TypeId>, declared: seq<TypeId>) {
    && |types| == |path| + 1 && |declared| == |path|
    && forall i | 0 <= i < |path| :: LeadsTo(g, types[i], path[i], declared[i], types[i + 1])
  }

  predicate Several(g: Graph, t: TypeId) {
    t in g && (g[t].isArray || (g[t].maxOccurs != Some(0) && g[t].maxOccurs != Some(1)))
  }

  /** The name of field `k` in keys: the `sub_name` of its declared type, where that counts. */
  function NameShown(g: Graph, useSubNames: bool, d: TypeId, k: string): string {
    if d in g && useSubNames then (match g[d].subName case Some(name) => name case None => k) else k
  }

  /** An entry stands at the end of a trail from the root; its first flag is that of the first field, the others
      are those of the types passed; its key joins the names shown. */
  ghost predicate EntrySpelled(g: Graph, root: TypeId, useSubNames: bool, delim: string, key: string, e: Entry) {
    exists types, declared, names: seq<string> ::
      && e.path != [] && Trail(g, e.path, types, declared) && |names| == |e.path| && |e.isArray| == |e.path|
      && types[0] == root && types[|e.path|] == e.ty && types[|e.path| - 1] == e.parent
      && (forall i | 0 <= i < |names| :: names[i] == NameShown(g, useSubNames, declared[i], e.path[i]))
      && (forall i | 0 <= i < |names| :: e.isArray[i] == Several(g, if i == 0 then declared[0] else types[i]))
      && key == Join(delim, names)
      && e.ty in g && e.canBeEmpty == g[e.ty].complex
  }

  lemma JoinSpelled(delim: string, names: seq<string>, name: string)
    ensures Join(delim, [name]) == name
    ensures names != [] ==> Join(delim, names + [name]) == Join(delim, names) + delim + name
  {
    assert (names + [name])[..|names|] == names;
  }

  lemma StepSpelled(g: Graph, t: TypeId, k: string)
    requires GraphOk(g) && t in g && g[t].complex && FieldType(g, t, k).Some?
    ensures LeadsTo(g, t, k, FieldType(g, t, k).value, Unwrap(g, FieldType(g, t, k).value))
  {
    IndexIsField(g[t].fields, k);
    var i := IndexOf(g[t].fields, k).value;
    assert g[t].fields[i] == (k, FieldType(g, t, k).value);
  }

  lemma {:induction false} TrailOf(g: Graph, root: TypeId, path: seq<string>, useSubNames: bool)
      returns (types: seq<TypeId>, declared: seq<TypeId>)
    requires GraphOk(g) && root in g && Walk(g, root, path).Some?
    ensures Trail(g, path, types, declared)
    ensures types[0] == root && types[|path|] == Walk(g, root, path).value
    ensures path != [] ==> Walk(g, root, path[..|path| - 1]) == Some(types[|path| - 1])
    ensures |ShownPath(g, root, path, useSubNames)| == |path| && |Flags(g, root, path)| == |path|
    ensures forall i | 0 <= i < |path| ::
      && ShownPath(g, root, path, useSubNames)[i] == NameShown(g, useSubNames, declared[i], path[i])
      && Flags(g, root, path)[i] == Several(g, if i == 0 then declared[0] else types[i])
  {
    hide GraphOk, FieldType, Unwrap, LeadsTo;
    if path == [] {
      types, declared := [root], [];
    } else {
      var front, k := path[..|path| - 1], path[|path| - 1];
      var types1, declared1 := TrailOf(g, root, front, useSubNames);
      var t := Walk(g, root, front).value;
      var d := FieldType(g, t, k).value;
      StepSpelled(g, t, k);
      types, declared := types1 + [Unwrap(g, d)], declared1 + [d];
      SeveralIsArray(g, t);
      SeveralIsArray(g, d);
      forall i | 0 <= i < |path| ensures LeadsTo(g, types[i], path[i], declared[i], types[i + 1]) {
        if i < |front| { assert LeadsTo(g, types1[i], front[i], declared1[i], types1[i + 1]); }
      }
    }
  }

  /** And every trail is a walk. */
  lemma {:induction false} TrailWalks(g: Graph, root: TypeId, path: seq<string>, types: seq<TypeId>,
      declared: seq<TypeId>)
    requires GraphOk(g) && root in g && Trail(g, path, types, declared) && types[0] == root
    ensures Walk(g, root, path) == Some(types[|path|])
  {
    hide GraphOk, LeadsTo, FieldType, Unwrap;
    if path != [] {
      var n := |path| - 1;
      assert LeadsTo(g, types[n], path[n], declared[n], types[n + 1]);
      forall i | 0 <= i < n ensures LeadsTo(g, types[..n + 1][i], path[..n][i], declared[..n][i], types[..n + 1][i + 1]) {
        assert LeadsTo(g, types[i], path[i], declared[i], types[i + 1]);
      }
      TrailWalks(g, root, path[..n], types[..n + 1], declared[..n]);
      StepWalks(g, types[n], path[n], declared[n], types[n + 1]);
    }
  }

  lemma StepWalks(g: Graph, t: TypeId, k: string, d: TypeId, u: TypeId)
    requires GraphOk(g) && LeadsTo(g, t, k, d, u)
    ensures t in g && g[t].complex && FieldType(g, t, k) == Some(d) && Unwrap(g, d) == u
  {
    var i :| 0 <= i < |g[t].fields| && g[t].fields[i] == (k, d);
    FieldAt(g, t, i);
  }

  lemma SeveralIsArray(g: Graph, t: TypeId)
    requires t in g
    ensures IsArray(g, t) == Several(g, t)
  {
  }

  lemma EntryIsSpelled(g: Graph, root: TypeId, useSubNames: bool, delim: string, expanded: map<TypeId, seq<string>>,
      key: string, e: Entry)
    requires GraphOk(g) && root in g && EntryOk(g, root, useSubNames, delim, expanded, key, e)
    ensures EntrySpelled(g, root, useSubNames, delim, key, e)
  {
    hide GraphOk, Walk, ShownPath, Flags, Join, Trail, NameShown, Several;
    var types, declared := TrailOf(g, root, e.path, useSubNames);
    assert |types| == |e.path| + 1 && |declared| == |e.path| by { TrailLengths(g, e.path, types, declared); }
    var names := ShownPath(g, root, e.path, useSubNames);
    assert key == Join(delim, names);
  }

  lemma TrailLengths(g: Graph, path: seq<string>, types: seq<TypeId>, declared: seq<TypeId>)
    requires Trail(g, path, types, declared)
    ensures |types| == |path| + 1 && |declared| == |path|
  {
  }

  /** The worklist.  On success every entry is a real walk, what was expanded is exactly what can be
      reached, at the end of a shortest path, and the key of every field of an expanded type has an entry;
      for a primitive field it is its own exactly when no other field has that key. */
  method GetSimpleTypeInfo(g: Graph, root: TypeId, useSubNames: bool, delim: string)
    returns (r: Result<map<string, Entry>, Conflict>, tags: set<TypeId>, ghost expanded: map<TypeId, seq<string>>)
    requires GraphOk(g) && root in g && g[root].complex
    ensures r.Err? ==> exists q :: Clash(g, root, useSubNames, delim, r.error.path, q)
    ensures r.Ok? ==> tags == expanded.Keys && ExpandedOk(g, root, expanded)
    ensures r.Ok? ==> forall key | key in r.value :: EntryOk(g, root, useSubNames, delim, expanded, key, r.value[key])
    ensures r.Ok? ==> forall key | key in r.value :: EntrySpelled(g, root, useSubNames, delim, key, r.value[key])
    ensures r.Ok? ==> forall path: seq<string> ::
      var t := Walk(g, root, path);
      t.Some? && g[t.value].complex ==> t.value in tags && |expanded[t.value]| <= |path|
    ensures r.Ok? ==> forall t, k: string | t in tags && t in g && FieldType(g, t, k).Some? ::
      t in expanded && KeyAt(g, root, expanded[t] + [k], useSubNames, delim) in r.value
    ensures r.Ok? ==> OwnEntries(g, root, useSubNames, delim, expanded, r.value)
    ensures r.Ok? ==> PrimitivesApart(g, root, useSubNames, delim, expanded)
    ensures r.Ok? <==> NoConflict(g, delim, Trace(g, root, useSubNames))
    ensures r.Ok? ==> r.value == EntriesOf(g, delim, Trace(g, root, useSubNames))
    ensures r.Err? ==> exists n :: FirstRepeat(g, delim, Trace(g, root, useSubNames), n, r.error.path)
  {
    hide ItemOk, EntryOk, Handled, Layered, LoopInv, Logged, Join, OwnEntries, ExpandedOk, OnTrace, NoConflict, EntriesOf,
      Trace, FirstRepeat, PrimitivesApart, EntrySpelled;
    var entries: map<string, Entry> := map[];
    var queue: seq<Item> := [];
    for j := 0 to |g[root].fields|
      invariant |queue| == j
      invariant forall i | 0 <= i < j :: queue[i] == RootItem(g, root, i, useSubNames)
    {
      queue := queue + [RootItem(g, root, j, useSubNames)];
    }
    tags := {root};
    expanded := map[root := []];
    StartInv(g, root, useSubNames, delim, queue);
    StartLogged(g, root, useSubNames, delim, queue);
    StartOnTrace(g, root, useSubNames, queue);
    ghost var all, n := queue, 0;

    while |queue| > 0
      invariant tags == expanded.Keys
      invariant LoopInv(g, root, useSubNames, delim, expanded, queue, entries)
      invariant Logged(g, root, useSubNames, delim, expanded, queue, entries, all, n)
      invariant OnTrace(g, root, useSubNames, queue, tags, all, n)
      decreases g.Keys - tags, |queue|
    {
      var item := queue[0];
      var rest := queue[1..];
      FirstItem(g, root, useSubNames, delim, expanded, queue, entries);
      var v := Unwrap(g, item.ty);
      var key := Join(delim, item.prefix);
      if g[v].complex {
        var entries1 := entries[key := Entry(item.keys, item.parent, v, item.isArray, true)];
        if v !in tags {
          var queue1 := rest;
          for j := 0 to |g[v].fields|
            invariant |queue1| == |rest| + j && rest <= queue1
            invariant forall i | 0 <= i < j :: queue1[|rest| + i] == ChildItem(g, item, v, i, useSubNames)
          {
            queue1 := queue1 + [ChildItem(g, item, v, j, useSubNames)];
          }
          ghost var all1 := ExpandLogged(g, root, useSubNames, delim, expanded, queue, entries, all, n, queue1);
          ExpandOnTrace(g, root, useSubNames, queue, tags, all, n, queue1, all1);
          all := all1;
          ExpandStep(g, root, useSubNames, delim, expanded, queue, entries, queue1);
          tags := tags + {v};
          expanded := expanded[v := item.keys];
          queue := queue1;
        } else {
          PlainLogged(g, root, useSubNames, delim, expanded, queue, entries, all, n);
          PlainOnTrace(g, root, useSubNames, queue, tags, all, n);
          PlainStep(g, root, useSubNames, delim, expanded, queue, entries);
          queue := rest;
        }
        entries := entries1;
      } else {
        if key in entries {
          ClashFound(g, root, useSubNames, delim, expanded, queue, entries, all, n);
          LoggedTaken(g, root, useSubNames, delim, expanded, queue, entries, all, n);
          ErrorOnTrace(g, root, useSubNames, delim, queue, tags, entries, all, n);
          return Err(Conflict(entries[key].path)), tags, expanded;
        }
        PlainLogged(g, root, useSubNames, delim, expanded, queue, entries, all, n);
        PlainOnTrace(g, root, useSubNames, queue, tags, all, n);
        PlainStep(g, root, useSubNames, delim, expanded, queue, entries);
        entries := entries[key := Entry(item.keys, item.parent, v, item.isArray, false)];
        queue := rest;
      }
      n := n + 1;
    }
    Finished(g, root, useSubNames, delim, expanded, entries);
    LoggedExactly(g, root, useSubNames, delim, expanded, entries, all, n);
    LoggedTaken(g, root, useSubNames, delim, expanded, [], entries, all, n);
    EndOnTrace(g, root, useSubNames, tags, all, n);
    forall key | key in entries ensures EntrySpelled(g, root, useSubNames, delim, key, entries[key]) {
      EntryIsSpelled(g, root, useSubNames, delim, expanded, key, entries[key]);
    }
    r := Ok(entries);
  }

  lemma FirstItem(g: Graph, root: TypeId, useSubNames: bool, delim: string,
      expanded: map<TypeId, seq<string>>, queue: seq<Item>, entries: map<string, Entry>)
    requires GraphOk(g) && root in g && queue != [] && LoopInv(g, root, useSubNames, delim, expanded, queue, entries)
    ensures queue[0].ty in g
  {
    assert ItemOk(g, root, useSubNames, expanded, queue[0]);
  }

  lemma Finished(g: Graph, root: TypeId, useSubNames: bool, delim: string,
      expanded: map<TypeId, seq<string>>, entries: map<string, Entry>)
    requires GraphOk(g) && root in g && LoopInv(g, root, useSubNames, delim, expanded, [], entries)
    ensures ExpandedOk(g, root, expanded)
    ensures forall key | key in entries :: EntryOk(g, root, useSubNames, delim, expanded, key, entries[key])
    ensures forall path: seq<string> ::
      var t := Walk(g, root, path);
      t.Some? && g[t.value].complex ==> t.value in expanded && |expanded[t.value]| <= |path|
    ensures forall t, k: string | t in expanded && t in g && FieldType(g, t, k).Some? ::
      KeyAt(g, root, expanded[t] + [k], useSubNames, delim) in entries
  {
    forall path: seq<string> { AllFound(g, root, useSubNames, delim, expanded, entries, path); }
    forall t, k: string | t in expanded && t in g && FieldType(g, t, k).Some?
      ensures KeyAt(g, root, expanded[t] + [k], useSubNames, delim) in entries
    {
      assert Handled(g, root, useSubNames, delim, expanded, [], entries, t, k);
    }
  }

  // ---------- An entry that is taken away ----------

  /** A primitive field `a_b` beside a complex field `a` with a complex field `b`. */
  function Twofold(a: string, b: string, delim: string): Graph {
    map[
      0 := TypeDef(true, false, Some(1), None, [(a + delim + b, 1), (a, 2)]),
      1 := TypeDef(false, false, Some(1), None, []),
      2 := TypeDef(true, false, Some(1), None, [(b, 3)]),
      3 := TypeDef(true, false, Some(1), None, [])]
  }

  lemma TwofoldOk(a: string, b: string, delim: string)
    requires delim + b != ""
    ensures GraphOk(Twofold(a, b, delim))
    ensures
      var g := Twofold(a, b, delim);
      && g.Keys == {0, 1, 2, 3} && (forall t | t in g :: Unwrap(g, t) == t && g[t].subName == None)
      && g[0].fields == [(a + delim + b, 1), (a, 2)] && g[2].fields == [(b, 3)] && g[3].fields == []
      && g[0].complex && !g[1].complex && g[2].complex && g[3].complex
  {
    assert a + delim + b == a + (delim + b);
    assert |a + delim + b| != |a|;
  }

  lemma TwofoldTrace(a: string, b: string, delim: string)
    requires delim + b != ""
    ensures GraphOk(Twofold(a, b, delim))
    ensures
      var trace := Trace(Twofold(a, b, delim), 0, false);
      && |trace| == 3
      && trace[0].keys == [a + delim + b] && trace[0].prefix == [a + delim + b] && trace[0].ty == 1
      && trace[1].keys == [a] && trace[1].prefix == [a] && trace[1].ty == 2
      && trace[2].keys == [a, b] && trace[2].prefix == [a, b] && trace[2].ty == 3
  {
    hide Twofold, GraphOk, Trace, Unwrap, IsArray;
    TwofoldOk(a, b, delim);
    var g := Twofold(a, b, delim);
    var first, second := RootItem(g, 0, 0, false), RootItem(g, 0, 1, false);
    TraceOfThree(g, first, second, ChildItem(g, second, 2, 0, false));
  }

  lemma TraceOfThree(g: Graph, first: Item, second: Item, third: Item)
    requires GraphOk(g) && g.Keys == {0, 1, 2, 3} && forall t | t in g :: Unwrap(g, t) == t
    requires !g[1].complex && g[2].complex && g[3].complex
    requires |g[0].fields| == 2 && |g[2].fields| == 1 && g[3].fields == []
    requires first == RootItem(g, 0, 0, false) && first.ty == 1
    requires second == RootItem(g, 0, 1, false) && second.ty == 2
    requires third == ChildItem(g, second, 2, 0, false) && third.ty == 3
    ensures Trace(g, 0, false) == [first, second, third]
  {
    hide GraphOk, Trace, Visit, Unwrap, RootItem, ChildItem;
    StartOnTrace(g, 0, false, [first, second]);
    assert AllTyped(g, [first, second]);
    VisitPlain(g, false, [first, second], {0});
    assert [first, second][1..] == [second];
    LastTwo(g, second, third);
  }

  lemma LastTwo(g: Graph, second: Item, third: Item)
    requires GraphOk(g) && g.Keys == {0, 1, 2, 3} && forall t | t in g :: Unwrap(g, t) == t
    requires g[2].complex && g[3].complex && |g[2].fields| == 1 && g[3].fields == []
    requires second.ty == 2 && third == ChildItem(g, second, 2, 0, false) && third.ty == 3
    ensures AllTyped(g, [second]) && Visit(g, false, [second], {0}) == [second, third]
  {
    hide GraphOk, Visit, Unwrap, ChildItem;
    assert AllTyped(g, [second]) && AllTyped(g, [third]);
    VisitExpand(g, false, [second], {0});
    assert [second][1..] + Children(g, second, 2, false) == [third];
    VisitExpand(g, false, [third], {0} + {2});
    assert [third][1..] + Children(g, third, 3, false) == [];
    VisitNothing(g, {0} + {2} + {3});
  }

  lemma VisitNothing(g: Graph, tags: set<TypeId>)
    requires GraphOk(g)
    ensures AllTyped(g, []) && Visit(g, false, [], tags) == []
  {
  }

  /** There is no error, and the entry under the key of the primitive field is that of the complex one. */
  method EntryTakenAway(a: string, b: string, delim: string) returns (r: Result<map<string, Entry>, Conflict>)
    requires delim + b != ""
    ensures r.Ok? && a + delim + b in r.value && r.value[a + delim + b].path == [a, b]
  {
    hide Twofold, GraphOk, Trace, OwnEntries, PrimitivesApart, ExpandedOk;
    TwofoldOk(a, b, delim);
    TwofoldTrace(a, b, delim);
    var g := Twofold(a, b, delim);
    ghost var trace := Trace(g, 0, false);
    assert Join(delim, [a, b]) == a + delim + b by { assert [a, b][..1] == [a]; }
    assert Join(delim, [a + delim + b]) == a + delim + b && Join(delim, [a]) == a;
    assert NoConflict(g, delim, trace);
    var tags;
    ghost var expanded;
    r, tags, expanded := GetSimpleTypeInfo(g, 0, false, delim);
    assert trace[..2][..2] == trace[..2];
  }
}
