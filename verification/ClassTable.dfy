/** Classes with fields, their variants, and customisations that wait for fields still to come: what the
    operations of the class model do to the table of classes. */
module ClassTable {
  import opened Wrappers
  import opened FieldTables

  type ClassId = nat

  /** `base` is the Python base whose `Attributes` an uncustomised class inherits.  `variants` is the entry
      of the class itself: absent, or the dictionary of its variants.  A customised class has none, and
      `waiting`, `waitingAll` are its delayed customisations.  `depth` counts `__extends__`.  A class of the
      program does not inherit from a customised one. */
  datatype Rec = Rec(
    own: Fields,
    parent: Option<ClassId>,
    depth: nat,
    orig: Option<ClassId>,
    base: Option<ClassId>,
    variants: Option<set<ClassId>>,
    waiting: map<string, Kwargs>,
    waitingAll: Option<Kwargs>)

  datatype World = World(recs: map<ClassId, Rec>, next: ClassId)

  /** The keyword arguments of `customize` that concern children. */
  datatype Args = Args(childAttrs: Option<map<string, Kwargs>>, all: Option<Kwargs>, noexc: Option<map<string, Kwargs>>)

  ghost predicate RecOk(w: World, c: ClassId)
    requires c in w.recs
  {
    var r := w.recs[c];
    && c < w.next
    && Distinct(r.own)
    && (r.parent.Some? ==> r.parent.value in w.recs && w.recs[r.parent.value].depth < r.depth)
    && (r.parent.Some? && r.orig == None ==> w.recs[r.parent.value].orig == None)
    && (r.orig.Some? ==> r.orig.value in w.recs && w.recs[r.orig.value].orig == None && r.variants == None)
    && (r.base.Some? ==> r.base.value in w.recs && r.base.value < c && w.recs[r.base.value].orig == None)
    && (r.variants.Some? ==> forall v | v in r.variants.value :: v in w.recs && w.recs[v].orig.Some?)
    && (r.orig == None ==> r.waiting == map[] && r.waitingAll == None)
  }

  ghost predicate WorldOk(w: World) {
    forall c | c in w.recs :: RecOk(w, c)
  }

  function OrigOf(w: World, c: ClassId): ClassId
    requires c in w.recs
  {
    if w.recs[c].orig.Some? then w.recs[c].orig.value else c
  }

  /** `_get_flat_type_info`: the fields of the `__extends__` chain, the class itself last. */
  function Flat(w: World, c: ClassId): Fields
    requires WorldOk(w) && c in w.recs
    decreases w.recs[c].depth
  {
    assert RecOk(w, c);
    var r := w.recs[c];
    Update(if r.parent.Some? then Flat(w, r.parent.value) else [], r.own)
  }

  /** The class whose dictionary `Attributes._variants` of an original class refers to: the class itself or
      the nearest Python base that has one. */
  function DictOwner(w: World, c: ClassId): Option<ClassId>
    requires WorldOk(w) && c in w.recs
    decreases c
  {
    assert RecOk(w, c);
    if w.recs[c].variants.Some? then Some(c)
    else if w.recs[c].base.Some? then DictOwner(w, w.recs[c].base.value)
    else None
  }

  /** The classes that a field appended to `c` is passed on to. */
  function VariantsOf(w: World, c: ClassId): set<ClassId>
    requires WorldOk(w) && c in w.recs
  {
    assert RecOk(w, c);
    if w.recs[c].orig.Some? then {}
    else match DictOwner(w, c)
      case None => {}
      case Some(o) => if o in w.recs && w.recs[o].variants.Some? then w.recs[o].variants.value else {}
  }

  function WithRec(w: World, c: ClassId, r: Rec): World {
    w.(recs := w.recs[c := r])
  }

  /** A new class of the program, `parent` being its `__extends__` and its Python base. */
  function Define(w: World, own: Fields, parent: Option<ClassId>): World
    requires parent.Some? ==> parent.value in w.recs
  {
    var depth := if parent.Some? then w.recs[parent.value].depth + 1 else 0;
    World(w.recs[w.next := Rec(own, parent, depth, None, parent, None, map[], None)], w.next + 1)
  }

  // ---------- customize ----------

  const EXCLUDE: Kwargs := map["exc" := Flag(true)]
  const INCLUDE: Kwargs := map["exc" := Flag(false)]

  /** With a white list everything is excluded first. */
  function AllOf(args: Args): Option<Kwargs> {
    if args.noexc.None? then args.all
    else if args.all.None? then Some(EXCLUDE)
    else Some(args.all.value + EXCLUDE)
  }

  function EachOf(args: Args): Option<map<string, Kwargs>> {
    if args.noexc.None? then args.childAttrs
    else
      var listed := map k | k in args.noexc.value :: args.noexc.value[k] + INCLUDE;
      if args.childAttrs.None? then Some(listed) else Some(args.childAttrs.value + listed)
  }

  /** The copy that `customize` starts from, registered as a variant of the original. */
  function Copied(w: World, c: ClassId): World
    requires WorldOk(w) && c in w.recs
  {
    assert RecOk(w, c);
    var orig := OrigOf(w, c);
    var owner := match DictOwner(w, orig) case Some(o) => o case None => orig;
    var before := if owner in w.recs && w.recs[owner].variants.Some? then w.recs[owner].variants.value else {};
    var r := w.recs[c];
    var copy := Rec(r.own, r.parent, r.depth, Some(orig), None, None, r.waiting, r.waitingAll);
    if owner !in w.recs then w
    else World(w.recs[owner := w.recs[owner].(variants := Some(before + {w.next}))][w.next := copy], w.next + 1)
  }

  /** Nothing but the dictionaries of variants changes in a class that is already there. */
  ghost predicate Frame(w: World, u: World) {
    && w.next <= u.next
    && forall c | c in w.recs ::
         && c in u.recs && u.recs[c] == w.recs[c].(variants := u.recs[c].variants)
         && (w.recs[c].variants.Some? ==>
               u.recs[c].variants.Some? && w.recs[c].variants.value <= u.recs[c].variants.value)
  }

  lemma DictOwnerOk(w: World, c: ClassId)
    requires WorldOk(w) && c in w.recs && w.recs[c].orig == None
    ensures DictOwner(w, c).Some? ==>
      var o := DictOwner(w, c).value;
      o in w.recs && o <= c && w.recs[o].variants.Some? && w.recs[o].orig == None
    decreases c
  {
    assert RecOk(w, c);
    if w.recs[c].variants.None? && w.recs[c].base.Some? {
      DictOwnerOk(w, w.recs[c].base.value);
    }
  }

  lemma CopiedOk(w: World, c: ClassId)
    requires WorldOk(w) && c in w.recs
    ensures WorldOk(Copied(w, c)) && Frame(w, Copied(w, c)) && Copied(w, c).next == w.next + 1
    ensures w.next in Copied(w, c).recs
    ensures w.next !in w.recs
    ensures
      var copy := Copied(w, c).recs[w.next];
      copy == Rec(w.recs[c].own, w.recs[c].parent, w.recs[c].depth, Some(OrigOf(w, c)), None, None,
                  w.recs[c].waiting, w.recs[c].waitingAll)
    ensures forall d | d in Copied(w, c).recs :: d in w.recs || d == w.next
  {
    hide RecOk;
    RecFacts(w, c);
    DictOwnerOk(w, OrigOf(w, c));
    if w.next in w.recs { RecFacts(w, w.next); }
    var u := Copied(w, c);
    forall d | d in u.recs ensures RecOk(u, d) {
      if d in w.recs {
        if u.recs[d].variants != w.recs[d].variants { DictMembers(w, d); }
        RecKept(w, u, d);
      } else {
        RecOfCopy(w, u, c);
      }
    }
  }

  lemma DictMembers(w: World, d: ClassId)
    requires WorldOk(w) && d in w.recs
    ensures w.recs[d].variants.Some? ==> forall x | x in w.recs[d].variants.value :: x in w.recs && w.recs[x].orig.Some?
  {
    assert RecOk(w, d);
  }

  lemma RecFacts(w: World, c: ClassId)
    requires WorldOk(w) && c in w.recs
    ensures c < w.next && OrigOf(w, c) in w.recs && w.recs[OrigOf(w, c)].orig == None
  {
    assert RecOk(w, c);
  }

  lemma RecOfCopy(w: World, u: World, c: ClassId)
    requires WorldOk(w) && c in w.recs && w.next in u.recs && u.next == w.next + 1
    requires u.recs[w.next] == Rec(w.recs[c].own, w.recs[c].parent, w.recs[c].depth, Some(OrigOf(w, c)), None, None,
                                   w.recs[c].waiting, w.recs[c].waitingAll)
    requires forall d | d in w.recs :: d in u.recs && u.recs[d] == w.recs[d].(variants := u.recs[d].variants)
    ensures RecOk(u, w.next)
  {
    assert RecOk(w, c);
  }

  lemma RecKept(w: World, u: World, d: ClassId)
    requires WorldOk(w) && d in w.recs && w.next <= u.next
    requires forall x | x in w.recs :: x in u.recs && u.recs[x] == w.recs[x].(variants := u.recs[x].variants)
    requires u.recs[d].variants == w.recs[d].variants
          || (u.recs[d].variants.Some? && w.recs[d].orig == None
              && forall x | x in u.recs[d].variants.value ::
                   x in u.recs && u.recs[x].orig.Some?)
    ensures RecOk(u, d)
  {
    assert RecOk(w, d);
  }

  /** As `Frame`, but class `v` may get other fields, another parent and other delayed customisations. */
  ghost predicate FrameBut(w: World, u: World, v: ClassId) {
    && w.next <= u.next
    && v in u.recs && v in w.recs
    && u.recs[v] == w.recs[v].(own := u.recs[v].own, parent := u.recs[v].parent,
                               waiting := u.recs[v].waiting, waitingAll := u.recs[v].waitingAll)
    && forall c | c in w.recs && c != v ::
         && c in u.recs && u.recs[c] == w.recs[c].(variants := u.recs[c].variants)
         && (w.recs[c].variants.Some? ==>
               u.recs[c].variants.Some? && w.recs[c].variants.value <= u.recs[c].variants.value)
  }

  /** What a copied class `v` becomes once its own copy of the parent, `p`, is there. */
  function Refit(u: World, v: ClassId, own: Fields, p: Option<ClassId>, waiting: map<string, Kwargs>,
      waitingAll: Option<Kwargs>): World
    requires v in u.recs
  {
    WithRec(u, v, u.recs[v].(own := own, parent := p, waiting := waiting, waitingAll := waitingAll))
  }

  lemma RefitOk(w: World, u: World, v: ClassId, own: Fields, p: Option<ClassId>, waiting: map<string, Kwargs>,
      waitingAll: Option<Kwargs>)
    requires WorldOk(w) && WorldOk(u) && Frame(w, u) && v in w.recs && w.recs[v].orig.Some? && Distinct(own)
    requires p.Some? ==> p.value in u.recs && u.recs[p.value].depth < w.recs[v].depth
    ensures WorldOk(Refit(u, v, own, p, waiting, waitingAll))
    ensures FrameBut(w, Refit(u, v, own, p, waiting, waitingAll), v)
  {
    hide RecOk;
    var x := Refit(u, v, own, p, waiting, waitingAll);
    NoVariants(w, v);
    NoVariants(u, v);
    forall c | c in x.recs ensures RecOk(x, c) {
      if c == v { RefitRec(u, v, own, p, waiting, waitingAll); } else { OtherRec(u, v, own, p, waiting, waitingAll, c); }
    }
  }

  lemma NoVariants(w: World, v: ClassId)
    requires WorldOk(w) && v in w.recs && w.recs[v].orig.Some?
    ensures w.recs[v].variants == None
  {
    assert RecOk(w, v);
  }

  lemma RefitRec(u: World, v: ClassId, own: Fields, p: Option<ClassId>, waiting: map<string, Kwargs>,
      waitingAll: Option<Kwargs>)
    requires WorldOk(u) && v in u.recs && u.recs[v].orig.Some? && Distinct(own)
    requires p.Some? ==> p.value in u.recs && u.recs[p.value].depth < u.recs[v].depth
    ensures RecOk(Refit(u, v, own, p, waiting, waitingAll), v)
  {
    assert RecOk(u, v);
  }

  lemma OtherRec(u: World, v: ClassId, own: Fields, p: Option<ClassId>, waiting: map<string, Kwargs>,
      waitingAll: Option<Kwargs>, c: ClassId)
    requires WorldOk(u) && v in u.recs && c in u.recs && c != v
    ensures RecOk(Refit(u, v, own, p, waiting, waitingAll), c)
  {
    assert RecOk(u, c);
  }

  lemma CustDistinct(fs: Fields, kw: Kwargs, kws: map<string, Kwargs>)
    requires Distinct(fs)
    ensures Distinct(CustAll(fs, kw)) && Distinct(CustEach(fs, kws))
  {
    GetCustAll(fs, kw, "");
    GetCustEach(fs, kws, "");
  }

  lemma FrameRefl(w: World, v: ClassId)
    ensures Frame(w, w) && (v in w.recs ==> FrameBut(w, w, v))
  {
  }

  /** The customisations in `kws` that no own field takes. */
  function Left(own: Fields, kws: map<string, Kwargs>): map<string, Kwargs> {
    map k | k in kws && !Has(own, k) :: kws[k]
  }

  function NotIn(fs: Fields, kws: map<string, Kwargs>): map<string, Kwargs> {
    map k | k in kws && !Has(fs, k) :: kws[k]
  }

  /** `child_attrs_all`: every own field, then the parent, then all fields still to come. */
  function CustomizeAll(w: World, v: ClassId, kw: Kwargs): (u: World)
    requires WorldOk(w) && v in w.recs && w.recs[v].orig.Some?
    ensures WorldOk(u) && FrameBut(w, u, v)
    decreases w.recs[v].depth, 0
  {
    assert RecOk(w, v);
    var r := w.recs[v];
    CustDistinct(r.own, kw, map[]);
    FrameRefl(w, v);
    if r.parent.None? then
      RefitOk(w, w, v, CustAll(r.own, kw), None, r.waiting, Some(kw));
      Refit(w, v, CustAll(r.own, kw), None, r.waiting, Some(kw))
    else
      var (u, p) := Customize(w, r.parent.value, Args(None, Some(kw), None));
      RefitOk(w, u, v, CustAll(r.own, kw), Some(p), r.waiting, Some(kw));
      Refit(u, v, CustAll(r.own, kw), Some(p), r.waiting, Some(kw))
  }

  /** `child_attrs`: the own fields that are named, then the parent with the rest; what neither has is kept
      for fields to come. */
  function CustomizeEach(w: World, v: ClassId, kws: map<string, Kwargs>): (u: World)
    requires WorldOk(w) && v in w.recs && w.recs[v].orig.Some?
    ensures WorldOk(u) && FrameBut(w, u, v)
    decreases w.recs[v].depth, 0
  {
    assert RecOk(w, v);
    var r := w.recs[v];
    var own := CustEach(r.own, kws);
    var left := Left(r.own, kws);
    CustDistinct(r.own, map[], kws);
    FrameRefl(w, v);
    if r.parent.None? then
      RefitOk(w, w, v, own, None, r.waiting + left, r.waitingAll);
      Refit(w, v, own, None, r.waiting + left, r.waitingAll)
    else
      var (u, p) := Customize(w, r.parent.value, Args(Some(left), None, None));
      RefitOk(w, u, v, own, Some(p), r.waiting + NotIn(Flat(u, p), left), r.waitingAll);
      Refit(u, v, own, Some(p), r.waiting + NotIn(Flat(u, p), left), r.waitingAll)
  }

  lemma FrameThen(w: World, x: World, u: World, v: ClassId)
    requires Frame(w, x) && FrameBut(x, u, v) && v !in w.recs
    ensures Frame(w, u)
  {
  }

  /** `customize`: the new world and the new class. */
  function Customize(w: World, c: ClassId, args: Args): (r: (World, ClassId))
    requires WorldOk(w) && c in w.recs
    ensures WorldOk(r.0) && Frame(w, r.0)
    ensures r.1 == w.next && r.1 !in w.recs && r.1 in r.0.recs
    ensures r.0.recs[r.1].depth == w.recs[c].depth && r.0.recs[r.1].orig == Some(OrigOf(w, c))
    decreases w.recs[c].depth, 1
  {
    CopiedOk(w, c);
    var v := w.next;
    var w1 := Copied(w, c);
    FrameRefl(w1, v);
    var w2 := match AllOf(args) case None => w1 case Some(kw) => CustomizeAll(w1, v, kw);
    var w3 := match EachOf(args) case None => w2 case Some(kws) => CustomizeEach(w2, v, kws);
    FrameThen(w, w1, w2, v);
    FrameRefl(w2, v);
    FrameThen(w, w2, w3, v);
    (w3, v)
  }
}
