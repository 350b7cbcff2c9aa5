/** What customising classes and adding fields to them amounts to, over the whole flat type info. */
module Customization {
  import opened Wrappers
  import opened FieldTables
  import opened ClassTable

  // ---------- Flat type info under change ----------

  lemma FlatGet(w: World, c: ClassId, q: string)
    requires WorldOk(w) && c in w.recs
    ensures RecOk(w, c)
    ensures
      var r := w.recs[c];
      Get(Flat(w, c), q) ==
        if Has(r.own, q) then Get(r.own, q)
        else if r.parent.Some? then Get(Flat(w, r.parent.value), q)
        else None
  {
    assert RecOk(w, c);
    var r := w.recs[c];
    GetUpdate(if r.parent.Some? then Flat(w, r.parent.value) else [], r.own, q);
  }

  lemma {:induction false} FlatKept(w: World, u: World, c: ClassId)
    requires WorldOk(w) && WorldOk(u) && Frame(w, u) && c in w.recs
    ensures c in u.recs && Flat(u, c) == Flat(w, c)
    decreases w.recs[c].depth
  {
    assert RecOk(w, c) && RecOk(u, c);
    if w.recs[c].parent.Some? { FlatKept(w, u, w.recs[c].parent.value); }
  }

  /** Class `v` is not in the `__extends__` chain of `c`. */
  predicate Avoids(w: World, c: ClassId, v: ClassId)
    requires WorldOk(w) && c in w.recs
    decreases w.recs[c].depth
  {
    assert RecOk(w, c);
    c != v && (w.recs[c].parent.Some? ==> Avoids(w, w.recs[c].parent.value, v))
  }

  lemma {:induction false} LowerAvoids(w: World, c: ClassId, v: ClassId)
    requires WorldOk(w) && c in w.recs && v in w.recs && w.recs[c].depth < w.recs[v].depth
    ensures Avoids(w, c, v)
    decreases w.recs[c].depth
  {
    assert RecOk(w, c);
    if w.recs[c].parent.Some? { LowerAvoids(w, w.recs[c].parent.value, v); }
  }

  lemma {:induction false} FreshAvoided(w: World, u: World, c: ClassId, v: ClassId)
    requires WorldOk(w) && WorldOk(u) && Frame(w, u) && c in w.recs && v !in w.recs
    ensures c in u.recs && Avoids(u, c, v)
    decreases w.recs[c].depth
  {
    assert RecOk(w, c);
    if w.recs[c].parent.Some? { FreshAvoided(w, u, w.recs[c].parent.value, v); }
  }

  /** Refitting a class does not touch those that do not descend from it. */
  lemma {:induction false} RefitAvoids(u: World, v: ClassId, own: Fields, p: Option<ClassId>,
      waiting: map<string, Kwargs>,
      waitingAll: Option<Kwargs>, c: ClassId)
    requires WorldOk(u) && v in u.recs && c in u.recs && Avoids(u, c, v)
    requires WorldOk(Refit(u, v, own, p, waiting, waitingAll))
    ensures
      var x := Refit(u, v, own, p, waiting, waitingAll);
      Avoids(x, c, v) && Flat(x, c) == Flat(u, c)
    decreases u.recs[c].depth
  {
    assert RecOk(u, c);
    if u.recs[c].parent.Some? { RefitAvoids(u, v, own, p, waiting, waitingAll, u.recs[c].parent.value); }
  }

  lemma FlatAbove(u: World, v: ClassId, own: Fields, p: Option<ClassId>, waiting: map<string, Kwargs>,
      waitingAll: Option<Kwargs>, c: ClassId)
    requires WorldOk(u) && v in u.recs && c in u.recs && u.recs[c].depth < u.recs[v].depth
    requires WorldOk(Refit(u, v, own, p, waiting, waitingAll))
    ensures Flat(Refit(u, v, own, p, waiting, waitingAll), c) == Flat(u, c)
  {
    LowerAvoids(u, c, v);
    RefitAvoids(u, v, own, p, waiting, waitingAll, c);
  }

  lemma CopiedFlat(w: World, c: ClassId)
    requires WorldOk(w) && c in w.recs
    ensures WorldOk(Copied(w, c)) && w.next in Copied(w, c).recs
    ensures Flat(Copied(w, c), w.next) == Flat(w, c)
  {
    hide RecOk;
    CopiedOk(w, c);
    ParentThere(w, c);
    if w.recs[c].parent.Some? { FlatKept(w, Copied(w, c), w.recs[c].parent.value); }
  }

  lemma ParentThere(w: World, c: ClassId)
    requires WorldOk(w) && c in w.recs
    ensures w.recs[c].parent.Some? ==>
      w.recs[c].parent.value in w.recs && w.recs[w.recs[c].parent.value].depth < w.recs[c].depth
    ensures Distinct(w.recs[c].own)
  {
    assert RecOk(w, c);
  }

  /** What a field's type goes through when its class is customised. */
  function Through(args: Args, q: string, t: Option<FieldType>): Option<FieldType> {
    if t.None? then None
    else
      var all := CustMaybe(t.value, AllOf(args));
      Some(if EachOf(args).Some? && q in EachOf(args).value then Cust(all, EachOf(args).value[q]) else all)
  }

  function ThroughEach(kws: map<string, Kwargs>, q: string, t: Option<FieldType>): Option<FieldType> {
    if t.Some? && q in kws then Some(Cust(t.value, kws[q])) else t
  }

  lemma {:induction false} AllFlat(w: World, v: ClassId, kw: Kwargs, q: string)
    requires WorldOk(w) && v in w.recs && w.recs[v].orig.Some?
    ensures
      var u := CustomizeAll(w, v, kw);
      && Get(u.recs[v].own, q) == (if Has(w.recs[v].own, q) then Some(Cust(Get(w.recs[v].own, q).value, kw)) else None)
      && Get(Flat(u, v), q) ==
           (if Has(Flat(w, v), q) then Some(Cust(Get(Flat(w, v), q).value, kw)) else None)
      && u.recs[v].waiting == w.recs[v].waiting && u.recs[v].waitingAll == Some(kw)
    decreases w.recs[v].depth, 0
  {
    var r := w.recs[v];
    var u := CustomizeAll(w, v, kw);
    ParentThere(w, v);
    GetCustAll(r.own, kw, q);
    FlatGet(w, v, q);
    FlatGet(u, v, q);
    if r.parent.Some? {
      var args := Args(None, Some(kw), None);
      var (x, p) := Customize(w, r.parent.value, args);
      CustomizeFlat(w, r.parent.value, args, q);
      FlatAbove(x, v, CustAll(r.own, kw), Some(p), r.waiting, Some(kw), p);
    }
  }

  lemma {:induction false} EachFlat(w: World, v: ClassId, kws: map<string, Kwargs>, q: string)
    requires WorldOk(w) && v in w.recs && w.recs[v].orig.Some?
    ensures
      var u := CustomizeEach(w, v, kws);
      && Get(u.recs[v].own, q) == ThroughEach(kws, q, Get(w.recs[v].own, q))
      && Get(Flat(u, v), q) == ThroughEach(kws, q, Get(Flat(w, v), q))
      && u.recs[v].waitingAll == w.recs[v].waitingAll
    decreases w.recs[v].depth, 0
  {
    hide RecOk, Frame, FrameBut;
    var r := w.recs[v];
    var u := CustomizeEach(w, v, kws);
    ParentThere(w, v);
    GetCustEach(r.own, kws, q);
    FlatGet(w, v, q);
    FlatGet(u, v, q);
    if r.parent.Some? {
      var left := Left(r.own, kws);
      var args := Args(Some(left), None, None);
      var (x, p) := Customize(w, r.parent.value, args);
      CustomizeFlat(w, r.parent.value, args, q);
      SameDepth(w, x, v);
      FlatAbove(x, v, CustEach(r.own, kws), Some(p), r.waiting + NotIn(Flat(x, p), left), r.waitingAll, p);
    }
  }

  lemma ButSameDepth(w: World, x: World, v: ClassId)
    requires FrameBut(w, x, v)
    ensures x.recs[v].depth == w.recs[v].depth && x.recs[v].orig == w.recs[v].orig
  {
  }

  lemma SameDepth(w: World, x: World, v: ClassId)
    requires Frame(w, x) && v in w.recs
    ensures v in x.recs && x.recs[v].depth == w.recs[v].depth
  {
  }

  /** What neither the class nor its ancestors have is kept for fields to come. */
  lemma EachWaits(w: World, v: ClassId, kws: map<string, Kwargs>, q: string)
    requires WorldOk(w) && v in w.recs && w.recs[v].orig.Some?
    ensures
      var u := CustomizeEach(w, v, kws);
      && (q in u.recs[v].waiting <==> q in w.recs[v].waiting || (q in kws && !Has(Flat(w, v), q)))
      && (q in u.recs[v].waiting ==>
            u.recs[v].waiting[q] == if q in kws && !Has(Flat(w, v), q) then kws[q] else w.recs[v].waiting[q])
  {
    hide RecOk, Frame, FrameBut, Flat, CustEach, Customize;
    var r := w.recs[v];
    var left := Left(r.own, kws);
    ParentThere(w, v);
    FlatGet(w, v, q);
    if r.parent.Some? {
      CustomizeFlat(w, r.parent.value, Args(Some(left), None, None), q);
    }
  }

  /** Over the whole flat type info, inherited fields included, every field goes through the customisation
      for all and then through its own. */
  lemma {:induction false} CustomizeFlat(w: World, c: ClassId, args: Args, q: string)
    requires WorldOk(w) && c in w.recs
    ensures
      var (u, v) := Customize(w, c, args);
      Get(Flat(u, v), q) == Through(args, q, Get(Flat(w, c), q))
    decreases w.recs[c].depth, 1
  {
    hide RecOk, Frame, FrameBut;
    CopiedOk(w, c);
    CopiedFlat(w, c);
    var v := w.next;
    var w1 := Copied(w, c);
    if AllOf(args).Some? { AllFlat(w1, v, AllOf(args).value, q); }
    var w2 := match AllOf(args) case None => w1 case Some(kw) => CustomizeAll(w1, v, kw);
    FrameRefl(w1, v);
    ButSameDepth(w1, w2, v);
    if EachOf(args).Some? {
      EachFlat(w2, v, EachOf(args).value, q);
    }
  }

  /** The own fields, and what waits for fields to come. */
  lemma CustomizedRec(w: World, c: ClassId, args: Args, q: string)
    requires WorldOk(w) && c in w.recs
    ensures
      var (u, v) := Customize(w, c, args);
      var r := u.recs[v];
      var each := EachOf(args);
      && Get(r.own, q) == Through(args, q, Get(w.recs[c].own, q))
      && r.waitingAll == (if AllOf(args).Some? then AllOf(args) else w.recs[c].waitingAll)
      && (q in r.waiting <==> q in w.recs[c].waiting || (each.Some? && q in each.value && !Has(Flat(w, c), q)))
      && (q in r.waiting ==>
            r.waiting[q] == if each.Some? && q in each.value && !Has(Flat(w, c), q) then each.value[q]
                            else w.recs[c].waiting[q])
  {
    hide RecOk, Frame, FrameBut;
    CopiedOk(w, c);
    CopiedFlat(w, c);
    var v := w.next;
    var w1 := Copied(w, c);
    if AllOf(args).Some? { AllFlat(w1, v, AllOf(args).value, q); }
    var w2 := match AllOf(args) case None => w1 case Some(kw) => CustomizeAll(w1, v, kw);
    FrameRefl(w1, v);
    ButSameDepth(w1, w2, v);
    if EachOf(args).Some? {
      EachFlat(w2, v, EachOf(args).value, q);
      EachWaits(w2, v, EachOf(args).value, q);
    }
  }

  // ---------- White lists ----------

  /** A field that the white list names, or that `child_attrs` takes out of the exclusion by itself. */
  predicate Listed(args: Args, q: string) {
    || (args.noexc.Some? && q in args.noexc.value)
    || (args.childAttrs.Some? && q in args.childAttrs.value
        && "exc" in args.childAttrs.value[q] && args.childAttrs.value[q]["exc"] != Flag(true))
  }

  /** After `customize(child_attrs_noexc=...)`, the fields that take part, inherited ones included, are
      exactly the listed ones. */
  lemma WhitelistExact(w: World, c: ClassId, args: Args, q: string)
    requires WorldOk(w) && c in w.recs && args.noexc.Some?
    ensures
      var (u, v) := Customize(w, c, args);
      && (Has(Flat(u, v), q) <==> Has(Flat(w, c), q))
      && (Has(Flat(u, v), q) ==> (!Excluded(Get(Flat(u, v), q).value) <==> Listed(args, q)))
  {
    hide Customize, Flat;
    CustomizeFlat(w, c, args, q);
    if Has(Flat(w, c), q) {
      WhitelistThrough(args, q, Get(Flat(w, c), q).value);
    }
  }

  lemma WhitelistThrough(args: Args, q: string, t: FieldType)
    requires args.noexc.Some?
    ensures !Excluded(Through(args, q, Some(t)).value) <==> Listed(args, q)
  {
    assert "exc" in EXCLUDE && EXCLUDE["exc"] == Flag(true);
    assert "exc" in INCLUDE && INCLUDE["exc"] == Flag(false);
  }

  // ---------- Adding fields ----------

  /** What a class makes of a field that is appended to it. */
  function Arriving(r: Rec, k: string, t: FieldType): FieldType {
    var all := CustMaybe(t, r.waitingAll);
    if k in r.waiting then Cust(all, r.waiting[k]) else all
  }

  function AppendTo(w: World, reached: set<ClassId>, k: string, t: FieldType): World {
    w.(recs := map d | d in w.recs ::
      if d in reached then w.recs[d].(own := Put(w.recs[d].own, k, Arriving(w.recs[d], k, t))) else w.recs[d])
  }

  function InsertTo(w: World, reached: set<ClassId>, index: int, k: string, t: FieldType): World {
    w.(recs := map d | d in w.recs ::
      if d in reached then
        w.recs[d].(own := Insert(w.recs[d].own, index, k, Arriving(w.recs[d], k, t)),
                   waiting := w.recs[d].waiting - {k})
      else w.recs[d])
  }

  function ReplaceIn(w: World, reached: set<ClassId>, k: string, t: FieldType): World {
    w.(recs := map d | d in w.recs ::
      if d in reached then w.recs[d].(own := Put(w.recs[d].own, k, t)) else w.recs[d])
  }

  /** `append_field`: the class, and the variants that its dictionary holds. */
  function AppendField(w: World, c: ClassId, k: string, t: FieldType): World
    requires WorldOk(w) && c in w.recs
  {
    AppendTo(w, {c} + VariantsOf(w, c), k, t)
  }

  /** `insert_field`: a delayed customisation is used up. */
  function InsertField(w: World, c: ClassId, index: int, k: string, t: FieldType): World
    requires WorldOk(w) && c in w.recs
  {
    InsertTo(w, {c} + VariantsOf(w, c), index, k, t)
  }

  /** `_replace_field`: no customisation applies. */
  function ReplaceField(w: World, c: ClassId, k: string, t: FieldType): World
    requires WorldOk(w) && c in w.recs
  {
    ReplaceIn(w, {c} + VariantsOf(w, c), k, t)
  }

  /** Classes may be reached one after the other. */
  lemma OneMore(w: World, reached: set<ClassId>, v: ClassId, index: int, k: string, t: FieldType)
    requires v !in reached
    ensures AppendTo(AppendTo(w, reached, k, t), {v}, k, t) == AppendTo(w, reached + {v}, k, t)
    ensures InsertTo(InsertTo(w, reached, index, k, t), {v}, index, k, t) == InsertTo(w, reached + {v}, index, k, t)
    ensures ReplaceIn(ReplaceIn(w, reached, k, t), {v}, k, t) == ReplaceIn(w, reached + {v}, k, t)
  {
    assert AppendTo(AppendTo(w, reached, k, t), {v}, k, t).recs == AppendTo(w, reached + {v}, k, t).recs;
    assert InsertTo(InsertTo(w, reached, index, k, t), {v}, index, k, t).recs
        == InsertTo(w, reached + {v}, index, k, t).recs;
    assert ReplaceIn(ReplaceIn(w, reached, k, t), {v}, k, t).recs == ReplaceIn(w, reached + {v}, k, t).recs;
  }

  /** Changing fields, and using up what waited, keeps the table of classes consistent. */
  lemma RecsOk(w: World, u: World)
    requires WorldOk(w) && u.next == w.next && u.recs.Keys == w.recs.Keys
    requires forall d | d in w.recs ::
      && Distinct(u.recs[d].own)
      && u.recs[d] == w.recs[d].(own := u.recs[d].own, waiting := u.recs[d].waiting)
      && (w.recs[d].waiting == map[] ==> u.recs[d].waiting == map[])
    ensures WorldOk(u)
  {
    forall d | d in u.recs ensures RecOk(u, d) { assert RecOk(w, d); }
  }

  lemma AppendOk(w: World, c: ClassId, k: string, t: FieldType)
    requires WorldOk(w) && c in w.recs
    ensures WorldOk(AppendField(w, c, k, t))
  {
    hide RecOk;
    forall d | d in w.recs ensures Distinct(AppendField(w, c, k, t).recs[d].own) {
      ParentThere(w, d);
      PutDistinct(w.recs[d].own, k, Arriving(w.recs[d], k, t));
    }
    RecsOk(w, AppendField(w, c, k, t));
  }

  lemma InsertOk(w: World, c: ClassId, index: int, k: string, t: FieldType)
    requires WorldOk(w) && c in w.recs
    ensures WorldOk(InsertField(w, c, index, k, t))
  {
    hide RecOk;
    forall d | d in w.recs ensures Distinct(InsertField(w, c, index, k, t).recs[d].own) {
      ParentThere(w, d);
      InsertDistinct(w.recs[d].own, index, k, Arriving(w.recs[d], k, t));
    }
    RecsOk(w, InsertField(w, c, index, k, t));
  }

  lemma ReplaceOk(w: World, c: ClassId, k: string, t: FieldType)
    requires WorldOk(w) && c in w.recs
    ensures WorldOk(ReplaceField(w, c, k, t))
  {
    hide RecOk;
    forall d | d in w.recs ensures Distinct(ReplaceField(w, c, k, t).recs[d].own) {
      ParentThere(w, d);
      PutDistinct(w.recs[d].own, k, t);
    }
    RecsOk(w, ReplaceField(w, c, k, t));
  }

  // ---------- Who is reached ----------

  ghost predicate OwnersKept(w: World, u: World)
    requires WorldOk(w) && WorldOk(u)
  {
    forall c | c in w.recs && DictOwner(w, c).Some? :: c in u.recs && DictOwner(u, c) == DictOwner(w, c)
  }

  /** Every customised class is in the dictionary that its original refers to, and in no other one. */
  ghost predicate AllRegistered(w: World)
    requires WorldOk(w)
  {
    && (forall v | v in w.recs && w.recs[v].orig.Some? ::
          w.recs[v].orig.value in w.recs && v in VariantsOf(w, w.recs[v].orig.value))
    && (forall d | d in w.recs && w.recs[d].variants.Some? ::
          forall v | v in w.recs[d].variants.value :: Owned(w, d, v))
  }

  /** The original of `v` refers to the dictionary of `d`. */
  predicate Owned(w: World, d: ClassId, v: ClassId)
    requires WorldOk(w)
  {
    v in w.recs && OrigOf(w, v) in w.recs && DictOwner(w, OrigOf(w, v)) == Some(d)
  }

  lemma OwnedStays(w: World, u: World, d: ClassId, v: ClassId)
    requires WorldOk(w) && WorldOk(u) && OwnersKept(w, u) && Owned(w, d, v) && v in u.recs
    requires u.recs[v].orig == w.recs[v].orig
    ensures Owned(u, d, v)
  {
  }

  lemma {:induction false} SameOwners(w: World, u: World, c: ClassId)
    requires WorldOk(w) && WorldOk(u) && c in w.recs
    requires forall d | d in w.recs ::
      d in u.recs && u.recs[d].base == w.recs[d].base && u.recs[d].variants == w.recs[d].variants
    ensures DictOwner(u, c) == DictOwner(w, c)
    decreases c
  {
    assert RecOk(w, c);
    if w.recs[c].base.Some? { SameOwners(w, u, w.recs[c].base.value); }
  }

  lemma {:induction false} CopiedOwner(w: World, c: ClassId, d: ClassId)
    requires WorldOk(w) && c in w.recs && WorldOk(Copied(w, c)) && d in w.recs && d in Copied(w, c).recs
    requires DictOwner(w, d).Some?
    ensures DictOwner(Copied(w, c), d) == DictOwner(w, d)
    decreases d
  {
    assert RecOk(w, d) && RecOk(w, c);
    CopiedOk(w, c);
    DictOwnerOk(w, OrigOf(w, c));
    if w.recs[d].variants.None? {
      CopiedOwner(w, c, w.recs[d].base.value);
    }
  }

  lemma CopiedRegisters(w: World, c: ClassId)
    requires WorldOk(w) && c in w.recs
    ensures WorldOk(Copied(w, c)) && OrigOf(w, c) in Copied(w, c).recs
    ensures OwnersKept(w, Copied(w, c))
    ensures w.next in VariantsOf(Copied(w, c), OrigOf(w, c))
  {
    CopiedOk(w, c);
    RecFacts(w, c);
    var orig, u := OrigOf(w, c), Copied(w, c);
    DictOwnerOk(w, orig);
    forall d | d in w.recs && DictOwner(w, d).Some? ensures DictOwner(u, d) == DictOwner(w, d) {
      CopiedOwner(w, c, d);
    }
  }

  /** Dictionaries stay where they are and grow, so whoever is registered stays registered. */
  lemma RegisteredStays(w: World, u: World, v: ClassId, o: ClassId)
    requires WorldOk(w) && WorldOk(u) && OwnersKept(w, u) && o in w.recs && v in VariantsOf(w, o)
    requires forall d | d in w.recs ::
      && d in u.recs && u.recs[d].orig == w.recs[d].orig
      && (w.recs[d].variants.Some? ==> u.recs[d].variants.Some? && w.recs[d].variants.value <= u.recs[d].variants.value)
    ensures o in u.recs && v in VariantsOf(u, o)
  {
    DictOwnerOk(w, o);
  }

  lemma OwnersJoin(w: World, x: World, u: World)
    requires WorldOk(w) && WorldOk(x) && WorldOk(u) && OwnersKept(w, x) && OwnersKept(x, u)
    ensures OwnersKept(w, u)
  {
  }

  lemma RefitOwners(x: World, v: ClassId, own: Fields, p: Option<ClassId>, waiting: map<string, Kwargs>,
      waitingAll: Option<Kwargs>)
    requires WorldOk(x) && v in x.recs && WorldOk(Refit(x, v, own, p, waiting, waitingAll))
    ensures OwnersKept(x, Refit(x, v, own, p, waiting, waitingAll))
    ensures AllRegistered(x) ==> AllRegistered(Refit(x, v, own, p, waiting, waitingAll))
  {
    hide RecOk;
    var u := Refit(x, v, own, p, waiting, waitingAll);
    forall c | c in x.recs ensures DictOwner(u, c) == DictOwner(x, c) { SameOwners(x, u, c); }
    if AllRegistered(x) {
      forall y | y in u.recs && u.recs[y].orig.Some?
        ensures u.recs[y].orig.value in u.recs && y in VariantsOf(u, u.recs[y].orig.value)
      {
        RegisteredStays(x, u, y, x.recs[y].orig.value);
      }
      forall d | d in u.recs && u.recs[d].variants.Some?
        ensures forall y | y in u.recs[d].variants.value :: Owned(u, d, y)
      {
        forall y | y in u.recs[d].variants.value ensures Owned(u, d, y) { OwnedStays(x, u, d, y); }
      }
    }
  }

  lemma {:induction false} AllOwners(w: World, v: ClassId, kw: Kwargs)
    requires WorldOk(w) && v in w.recs && w.recs[v].orig.Some?
    ensures OwnersKept(w, CustomizeAll(w, v, kw))
    ensures AllRegistered(w) ==> AllRegistered(CustomizeAll(w, v, kw))
    decreases w.recs[v].depth, 0
  {
    hide RecOk, AllRegistered, OwnersKept, Frame, FrameBut;
    var r := w.recs[v];
    ParentThere(w, v);
    if r.parent.None? {
      assert CustomizeAll(w, v, kw) == Refit(w, v, CustAll(r.own, kw), None, r.waiting, Some(kw));
      RefitOwners(w, v, CustAll(r.own, kw), None, r.waiting, Some(kw));
    } else {
      var args := Args(None, Some(kw), None);
      var (x, p) := Customize(w, r.parent.value, args);
      CustomizeOwners(w, r.parent.value, args);
      SameDepth(w, x, v);
      assert CustomizeAll(w, v, kw) == Refit(x, v, CustAll(r.own, kw), Some(p), r.waiting, Some(kw));
      RefitOwners(x, v, CustAll(r.own, kw), Some(p), r.waiting, Some(kw));
      OwnersJoin(w, x, CustomizeAll(w, v, kw));
    }
  }

  lemma {:induction false} EachOwners(w: World, v: ClassId, kws: map<string, Kwargs>)
    requires WorldOk(w) && v in w.recs && w.recs[v].orig.Some?
    ensures OwnersKept(w, CustomizeEach(w, v, kws))
    ensures AllRegistered(w) ==> AllRegistered(CustomizeEach(w, v, kws))
    decreases w.recs[v].depth, 0
  {
    hide RecOk, AllRegistered, OwnersKept, Frame, FrameBut;
    var r := w.recs[v];
    var left := Left(r.own, kws);
    ParentThere(w, v);
    if r.parent.None? {
      assert CustomizeEach(w, v, kws) == Refit(w, v, CustEach(r.own, kws), None, r.waiting + left, r.waitingAll);
      RefitOwners(w, v, CustEach(r.own, kws), None, r.waiting + left, r.waitingAll);
    } else {
      var args := Args(Some(left), None, None);
      var (x, p) := Customize(w, r.parent.value, args);
      CustomizeOwners(w, r.parent.value, args);
      SameDepth(w, x, v);
      assert CustomizeEach(w, v, kws)
          == Refit(x, v, CustEach(r.own, kws), Some(p), r.waiting + NotIn(Flat(x, p), left), r.waitingAll);
      RefitOwners(x, v, CustEach(r.own, kws), Some(p), r.waiting + NotIn(Flat(x, p), left), r.waitingAll);
      OwnersJoin(w, x, CustomizeEach(w, v, kws));
    }
  }

  lemma CopiedAllRegistered(w: World, c: ClassId)
    requires WorldOk(w) && c in w.recs && AllRegistered(w) && WorldOk(Copied(w, c))
    ensures AllRegistered(Copied(w, c))
  {
    CopiedOk(w, c);
    CopiedRegisters(w, c);
    var u := Copied(w, c);
    forall y | y in u.recs && u.recs[y].orig.Some?
      ensures u.recs[y].orig.value in u.recs && y in VariantsOf(u, u.recs[y].orig.value)
    {
      if y in w.recs { RegisteredStays(w, u, y, w.recs[y].orig.value); }
    }
    forall d | d in u.recs && u.recs[d].variants.Some?
      ensures forall y | y in u.recs[d].variants.value :: Owned(u, d, y)
    {
      forall y | y in u.recs[d].variants.value ensures Owned(u, d, y) { CopiedOwned(w, c, d, y); }
    }
  }

  lemma CopiedOwned(w: World, c: ClassId, d: ClassId, y: ClassId)
    requires WorldOk(w) && c in w.recs && AllRegistered(w) && WorldOk(Copied(w, c)) && d in Copied(w, c).recs
    requires Copied(w, c).recs[d].variants.Some? && y in Copied(w, c).recs[d].variants.value
    ensures Owned(Copied(w, c), d, y)
  {
    hide RecOk, VariantsOf;
    var u := Copied(w, c);
    CopiedOk(w, c);
    CopiedRegisters(w, c);
    RecFacts(w, c);
    DictOwnerOk(w, OrigOf(w, c));
    if d in w.recs && w.recs[d].variants.Some? && y in w.recs[d].variants.value {
      OwnedStays(w, u, d, y);
    }
  }

  /** Customising a class registers every class that it makes, and leaves all dictionaries in place. */
  lemma {:induction false} CustomizeOwners(w: World, c: ClassId, args: Args)
    requires WorldOk(w) && c in w.recs
    ensures OwnersKept(w, Customize(w, c, args).0)
    ensures AllRegistered(w) ==> AllRegistered(Customize(w, c, args).0)
    decreases w.recs[c].depth, 1
  {
    hide RecOk, AllRegistered, OwnersKept;
    CopiedOk(w, c);
    CopiedRegisters(w, c);
    if AllRegistered(w) { CopiedAllRegistered(w, c); }
    var v := w.next;
    var w1 := Copied(w, c);
    var w2 := match AllOf(args) case None => w1 case Some(kw) => CustomizeAll(w1, v, kw);
    FrameRefl(w1, v);
    ButSameDepth(w1, w2, v);
    if AllOf(args).Some? {
      AllOwners(w1, v, AllOf(args).value);
      OwnersJoin(w, w1, w2);
    }
    if EachOf(args).Some? {
      EachOwners(w2, v, EachOf(args).value);
      OwnersJoin(w, w2, Customize(w, c, args).0);
    }
  }

  /** A customised class is found under its original as soon as it exists. */
  lemma CustomizeRegisters(w: World, c: ClassId, args: Args)
    requires WorldOk(w) && c in w.recs
    ensures
      var (u, v) := Customize(w, c, args);
      OrigOf(w, c) in u.recs && v in VariantsOf(u, OrigOf(w, c))
  {
    hide RecOk, AllRegistered, OwnersKept, Frame, FrameBut, VariantsOf;
    CopiedOk(w, c);
    RecFacts(w, c);
    CopiedRegisters(w, c);
    var v, o := w.next, OrigOf(w, c);
    var w1 := Copied(w, c);
    var w2 := match AllOf(args) case None => w1 case Some(kw) => CustomizeAll(w1, v, kw);
    FrameRefl(w1, v);
    ButSameDepth(w1, w2, v);
    if AllOf(args).Some? {
      AllOwners(w1, v, AllOf(args).value);
      ButStays(w1, w2, v, v, o);
    }
    if EachOf(args).Some? {
      EachOwners(w2, v, EachOf(args).value);
      ButStays(w2, CustomizeEach(w2, v, EachOf(args).value), v, v, o);
    }
  }

  lemma ButStays(w: World, u: World, x: ClassId, v: ClassId, o: ClassId)
    requires WorldOk(w) && WorldOk(u) && OwnersKept(w, u) && FrameBut(w, u, x) && o in w.recs && v in VariantsOf(w, o)
    ensures o in u.recs && v in VariantsOf(u, o)
  {
    hide RecOk;
    RegisteredStays(w, u, v, o);
  }

  /** No class is lost from the dictionaries when fields change. */
  lemma FieldsKeepRegistered(w: World, u: World)
    requires WorldOk(w) && WorldOk(u) && AllRegistered(w) && u.recs.Keys == w.recs.Keys
    requires forall d | d in w.recs :: u.recs[d] == w.recs[d].(own := u.recs[d].own, waiting := u.recs[d].waiting)
    ensures AllRegistered(u)
  {
    hide RecOk;
    forall d | d in w.recs ensures DictOwner(u, d) == DictOwner(w, d) { SameOwners(w, u, d); }
    forall d, v | d in w.recs && Owned(w, d, v) ensures Owned(u, d, v) { OwnedStays(w, u, d, v); }
  }

  lemma DefineKeepsRegistered(w: World, own: Fields, parent: Option<ClassId>)
    requires WorldOk(w) && AllRegistered(w) && w.next !in w.recs
    requires parent.Some? ==> parent.value in w.recs
    requires WorldOk(Define(w, own, parent))
    ensures AllRegistered(Define(w, own, parent))
  {
    hide RecOk;
    var u := Define(w, own, parent);
    forall d | d in w.recs ensures DictOwner(u, d) == DictOwner(w, d) { SameOwners(w, u, d); }
    forall d, v | d in w.recs && Owned(w, d, v) ensures Owned(u, d, v) { OwnedStays(w, u, d, v); }
  }

  /** A field appended to an original class arrives in every class customised from it. */
  lemma AppendReachesVariants(w: World, c: ClassId, k: string, t: FieldType, v: ClassId)
    requires WorldOk(w) && AllRegistered(w) && c in w.recs && v in w.recs && (v == c || w.recs[v].orig == Some(c))
    ensures Get(AppendField(w, c, k, t).recs[v].own, k) == Some(Arriving(w.recs[v], k, t))
  {
    hide RecOk;
    GetPut(w.recs[v].own, k, Arriving(w.recs[v], k, t), k);
  }

  /** The same for an inserted field, and for a replaced one, which no customisation touches; what waited for
      an inserted field is used up. */
  lemma OthersReachVariants(w: World, c: ClassId, index: int, k: string, t: FieldType, v: ClassId)
    requires WorldOk(w) && AllRegistered(w) && c in w.recs && v in w.recs && (v == c || w.recs[v].orig == Some(c))
    ensures
      var inserted := InsertField(w, c, index, k, t).recs[v];
      Get(inserted.own, k) == Some(Arriving(w.recs[v], k, t)) && k !in inserted.waiting
    ensures Get(ReplaceField(w, c, k, t).recs[v].own, k) == Some(t)
  {
    hide RecOk;
    ParentThere(w, v);
    GetInsert(w.recs[v].own, index, k, Arriving(w.recs[v], k, t), k);
    GetPut(w.recs[v].own, k, t, k);
  }

  /** Appending a field before or after customising gives the variant the same type for it, exactly when
      the field is new to the flat type info, or `child_attrs` says nothing that matters about it. */
  lemma DelayedCommutes(w: World, c: ClassId, args: Args, k: string, t: FieldType)
    requires WorldOk(w) && c in w.recs && w.recs[c].orig == None
    ensures WorldOk(AppendField(w, c, k, t))
    ensures
      var (u, v) := Customize(w, c, args);
      var (x, y) := Customize(AppendField(w, c, k, t), c, args);
      var all := CustMaybe(t, AllOf(args));
      var each := EachOf(args);
      && v == y && c in u.recs
      && Has(AppendField(u, c, k, t).recs[v].own, k) && Has(x.recs[y].own, k)
      && (Get(AppendField(u, c, k, t).recs[v].own, k) == Get(x.recs[y].own, k) <==>
            || each == None || k !in each.value
            || !Has(Flat(w, c), k)
            || Cust(all, each.value[k]) == all)
  {
    hide RecOk, Customize, Flat, AllRegistered, OwnersKept;
    AppendOk(w, c, k, t);
    Uncustomised(w, c);
    var a := AppendField(w, c, k, t);
    var u := Customize(w, c, args).0;
    CustomizeRegisters(w, c, args);
    CustomizedRec(w, c, args, k);
    CustomizedRec(a, c, args, k);
    GetPut(w.recs[c].own, k, t, k);
    AfterwardsArrives(u, c, w.next, k, t);
  }

  lemma Uncustomised(w: World, c: ClassId)
    requires WorldOk(w) && c in w.recs && w.recs[c].orig == None
    ensures w.recs[c].waiting == map[] && w.recs[c].waitingAll == None && OrigOf(w, c) == c
  {
    assert RecOk(w, c);
  }

  lemma AfterwardsArrives(u: World, c: ClassId, v: ClassId, k: string, t: FieldType)
    requires WorldOk(u) && c in u.recs && v in u.recs && v in VariantsOf(u, c)
    ensures Get(AppendField(u, c, k, t).recs[v].own, k) == Some(Arriving(u.recs[v], k, t))
  {
    GetPut(u.recs[v].own, k, Arriving(u.recs[v], k, t), k);
  }

  // ---------- White lists and later fields, inherited ones too ----------

  function Awaits(r: Rec, k: string): Option<Kwargs> {
    if k in r.waiting then Some(r.waiting[k]) else None
  }

  /** A class in an `__extends__` chain: what it was customised from, and what it delays for field `k`. */
  datatype Stage = Stage(orig: ClassId, all: Option<Kwargs>, wait: Option<Kwargs>)

  function Chain(w: World, c: ClassId, k: string): (chain: seq<Stage>)
    requires WorldOk(w) && c in w.recs
    ensures chain != []
    decreases w.recs[c].depth
  {
    assert RecOk(w, c);
    var r := w.recs[c];
    [Stage(OrigOf(w, c), r.waitingAll, Awaits(r, k))] + if r.parent.Some? then Chain(w, r.parent.value, k) else []
  }

  /** A chain after its classes have been customised alike. */
  function Delaying(chain: seq<Stage>, all: Option<Kwargs>, wait: Option<Kwargs>): (r: seq<Stage>)
    ensures |r| == |chain|
  {
    if chain == [] then []
    else
      var s := chain[0];
      [Stage(s.orig, if all.Some? then all else s.all, if wait.Some? then wait else s.wait)]
      + Delaying(chain[1..], all, wait)
  }

  lemma {:induction false} DelayingAt(chain: seq<Stage>, all: Option<Kwargs>, wait: Option<Kwargs>, i: nat)
    requires i < |chain|
    ensures Delaying(chain, all, wait)[i] ==
      Stage(chain[i].orig, if all.Some? then all else chain[i].all, if wait.Some? then wait else chain[i].wait)
  {
    if i > 0 { DelayingAt(chain[1..], all, wait, i - 1); }
  }

  lemma {:induction false} DelayingBoth(chain: seq<Stage>, all: Option<Kwargs>, wait: Option<Kwargs>)
    ensures Delaying(chain, None, None) == chain
    ensures Delaying(Delaying(chain, all, None), None, wait) == Delaying(chain, all, wait)
  {
    if chain != [] { DelayingBoth(chain[1..], all, wait); }
  }

  /** The chain, one class at a time. */
  lemma ChainStep(w: World, c: ClassId, k: string)
    requires WorldOk(w) && c in w.recs
    ensures w.recs[c].parent.Some? ==> w.recs[c].parent.value in w.recs
    ensures Chain(w, c, k) == [Stage(OrigOf(w, c), w.recs[c].waitingAll, Awaits(w.recs[c], k))]
      + if w.recs[c].parent.Some? then Chain(w, w.recs[c].parent.value, k) else []
  {
    assert RecOk(w, c);
  }

  /** The classes of the program that an `__extends__` chain stands for. */
  function Origins(w: World, c: ClassId): (origs: seq<ClassId>)
    requires WorldOk(w) && c in w.recs
    ensures origs != [] && origs[0] == OrigOf(w, c)
    decreases w.recs[c].depth
  {
    assert RecOk(w, c);
    [OrigOf(w, c)] + if w.recs[c].parent.Some? then Origins(w, w.recs[c].parent.value) else []
  }

  lemma {:induction false} ChainKept(w: World, u: World, c: ClassId, k: string)
    requires WorldOk(w) && WorldOk(u) && Frame(w, u) && c in w.recs
    ensures c in u.recs && Chain(u, c, k) == Chain(w, c, k) && Origins(u, c) == Origins(w, c)
    decreases w.recs[c].depth
  {
    assert RecOk(w, c);
    if w.recs[c].parent.Some? { ChainKept(w, u, w.recs[c].parent.value, k); }
  }

  lemma {:induction false} ChainRefit(u: World, v: ClassId, own: Fields, p: Option<ClassId>,
      waiting: map<string, Kwargs>, waitingAll: Option<Kwargs>, c: ClassId, k: string)
    requires WorldOk(u) && v in u.recs && c in u.recs && u.recs[c].depth < u.recs[v].depth
    requires WorldOk(Refit(u, v, own, p, waiting, waitingAll))
    ensures Chain(Refit(u, v, own, p, waiting, waitingAll), c, k) == Chain(u, c, k)
    ensures Origins(Refit(u, v, own, p, waiting, waitingAll), c) == Origins(u, c)
    decreases u.recs[c].depth
  {
    assert RecOk(u, c);
    if u.recs[c].parent.Some? { ChainRefit(u, v, own, p, waiting, waitingAll, u.recs[c].parent.value, k); }
  }

  lemma {:induction false} AllChain(w: World, v: ClassId, kw: Kwargs, k: string)
    requires WorldOk(w) && v in w.recs && w.recs[v].orig.Some?
    ensures Chain(CustomizeAll(w, v, kw), v, k) == Delaying(Chain(w, v, k), Some(kw), None)
    ensures Origins(CustomizeAll(w, v, kw), v) == Origins(w, v)
    decreases w.recs[v].depth, 0
  {
    hide Flat, Frame, FrameBut, Chain, RecOk;
    var r := w.recs[v];
    var u := CustomizeAll(w, v, kw);
    ParentThere(w, v);
    ChainStep(w, v, k);
    ChainStep(u, v, k);
    ButSameDepth(w, u, v);
    if r.parent.Some? {
      var args := Args(None, Some(kw), None);
      var (x, p) := Customize(w, r.parent.value, args);
      CustomizeChain(w, r.parent.value, args, k);
      SameDepth(w, x, v);
      assert u == Refit(x, v, CustAll(r.own, kw), Some(p), r.waiting, Some(kw));
      ChainRefit(x, v, CustAll(r.own, kw), Some(p), r.waiting, Some(kw), p, k);
    }
  }

  /** What `child_attrs` says about a field that is not there yet. */
  function Said(w: World, c: ClassId, kws: map<string, Kwargs>, k: string): Option<Kwargs>
    requires WorldOk(w) && c in w.recs
  {
    if k in kws && !Has(Flat(w, c), k) then Some(kws[k]) else None
  }

  lemma {:induction false} EachChain(w: World, v: ClassId, kws: map<string, Kwargs>, k: string)
    requires WorldOk(w) && v in w.recs && w.recs[v].orig.Some?
    ensures Chain(CustomizeEach(w, v, kws), v, k) == Delaying(Chain(w, v, k), None, Said(w, v, kws, k))
    ensures Origins(CustomizeEach(w, v, kws), v) == Origins(w, v)
    decreases w.recs[v].depth, 0
  {
    hide Flat, Frame, FrameBut, Chain, RecOk;
    var r := w.recs[v];
    var left := Left(r.own, kws);
    ParentThere(w, v);
    ChainStep(w, v, k);
    var u := CustomizeEach(w, v, kws);
    ChainStep(u, v, k);
    ButSameDepth(w, u, v);
    EachWaits(w, v, kws, k);
    EachFlat(w, v, kws, k);
    FlatGet(w, v, k);
    if r.parent.Some? {
      var args := Args(Some(left), None, None);
      var (x, p) := Customize(w, r.parent.value, args);
      CustomizeChain(w, r.parent.value, args, k);
      SameDepth(w, x, v);
      assert u == Refit(x, v, CustEach(r.own, kws), Some(p), r.waiting + NotIn(Flat(x, p), left), r.waitingAll);
      assert Said(w, r.parent.value, left, k) == Said(w, v, kws, k);
      ChainRefit(x, v, CustEach(r.own, kws), Some(p), r.waiting + NotIn(Flat(x, p), left), r.waitingAll, p, k);
    }
  }

  /** The new class has customised ancestors in place of all those of the original, and all of them delay
      what is said about a field that is not there, instead of what they delayed before. */
  lemma {:induction false} CustomizeChain(w: World, c: ClassId, args: Args, k: string)
    requires WorldOk(w) && c in w.recs
    ensures
      var (u, v) := Customize(w, c, args);
      && Chain(u, v, k) ==
           Delaying(Chain(w, c, k), AllOf(args), if EachOf(args).Some? then Said(w, c, EachOf(args).value, k) else None)
      && Origins(u, v) == Origins(w, c)
    decreases w.recs[c].depth, 1
  {
    hide Flat, Frame, FrameBut, Chain, Origins;
    CopiedOk(w, c);
    CopiedFlat(w, c);
    CopiedChain(w, c, k);
    var v := w.next;
    var w1 := Copied(w, c);
    if AllOf(args).Some? {
      AllChain(w1, v, AllOf(args).value, k);
      AllFlat(w1, v, AllOf(args).value, k);
    }
    var w2 := match AllOf(args) case None => w1 case Some(kw) => CustomizeAll(w1, v, kw);
    FrameRefl(w1, v);
    ButSameDepth(w1, w2, v);
    DelayingBoth(Chain(w, c, k), AllOf(args), None);
    if EachOf(args).Some? {
      EachChain(w2, v, EachOf(args).value, k);
      DelayingBoth(Chain(w, c, k), AllOf(args), Said(w, c, EachOf(args).value, k));
    }
  }

  lemma CopiedChain(w: World, c: ClassId, k: string)
    requires WorldOk(w) && c in w.recs
    ensures WorldOk(Copied(w, c)) && w.next in Copied(w, c).recs
    ensures Chain(Copied(w, c), w.next, k) == Chain(w, c, k) && Origins(Copied(w, c), w.next) == Origins(w, c)
  {
    hide RecOk, Frame;
    CopiedOk(w, c);
    ParentThere(w, c);
    if w.recs[c].parent.Some? { ChainKept(w, Copied(w, c), w.recs[c].parent.value, k); }
  }

  /** Field `k` of `c` stands in a class of the chain that is not reached, below any that is. */
  predicate Shadowed(w: World, c: ClassId, reached: set<ClassId>, k: string)
    requires WorldOk(w) && c in w.recs
    decreases w.recs[c].depth
  {
    assert RecOk(w, c);
    c !in reached
    && (Has(w.recs[c].own, k) || (w.recs[c].parent.Some? && Shadowed(w, w.recs[c].parent.value, reached, k)))
  }

  /** How far up the nearest class of the chain is that is reached. */
  function Lands(w: World, c: ClassId, reached: set<ClassId>): nat
    requires WorldOk(w) && c in w.recs
    decreases w.recs[c].depth
  {
    assert RecOk(w, c);
    if c in reached || w.recs[c].parent.None? then 0 else 1 + Lands(w, w.recs[c].parent.value, reached)
  }

  function Laid(t: FieldType, all: Option<Kwargs>, wait: Option<Kwargs>): FieldType {
    if wait.Some? then Cust(CustMaybe(t, all), wait.value) else CustMaybe(t, all)
  }

  /** A field appended to class `a` arrives in the flat type info of every class that has `a`, or a class
      customised from it, in its chain, unless it is shadowed there: as the nearest class that is reached
      customises it. */
  lemma {:induction false} AppendFlat(u: World, v: ClassId, a: ClassId, k: string, t: FieldType)
    requires WorldOk(u) && AllRegistered(u) && v in u.recs && a in u.recs && a in Origins(u, v)
    ensures WorldOk(AppendField(u, a, k, t))
    ensures
      var reached := {a} + VariantsOf(u, a);
      var i := Lands(u, v, reached);
      && i < |Chain(u, v, k)|
      && Get(Flat(AppendField(u, a, k, t), v), k) ==
           if Shadowed(u, v, reached, k) then Get(Flat(u, v), k)
           else Some(Laid(t, Chain(u, v, k)[i].all, Chain(u, v, k)[i].wait))
    decreases u.recs[v].depth
  {
    hide RecOk, VariantsOf, Chain, Flat, AllRegistered, AppendField, Arriving, CustMaybe, Cust;
    ParentThere(u, v);
    ChainStep(u, v, k);
    FlatGet(u, v, k);
    AppendedOne(u, v, a, k, t);
    if v !in {a} + VariantsOf(u, a) {
      OriginReached(u, v, a);
      AppendFlat(u, u.recs[v].parent.value, a, k, t);
    }
  }

  lemma OriginReached(u: World, v: ClassId, a: ClassId)
    requires WorldOk(u) && AllRegistered(u) && v in u.recs && a in u.recs && a in Origins(u, v)
    requires v !in {a} + VariantsOf(u, a)
    ensures OrigOf(u, v) != a && u.recs[v].parent.Some?
    ensures u.recs[v].parent.value in u.recs && a in Origins(u, u.recs[v].parent.value)
  {
    hide RecOk, VariantsOf;
    RecFacts(u, v);
    ParentThere(u, v);
  }

  lemma AppendedOne(u: World, v: ClassId, a: ClassId, k: string, t: FieldType)
    requires WorldOk(u) && v in u.recs && a in u.recs
    ensures u.recs[v].parent.Some? ==> u.recs[v].parent.value in u.recs
    ensures WorldOk(AppendField(u, a, k, t))
    ensures
      var x := AppendField(u, a, k, t);
      Get(Flat(x, v), k) ==
        if v in {a} + VariantsOf(u, a) then Some(Laid(t, u.recs[v].waitingAll, Awaits(u.recs[v], k)))
        else if Has(u.recs[v].own, k) then Get(u.recs[v].own, k)
        else if u.recs[v].parent.Some? then Get(Flat(x, u.recs[v].parent.value), k)
        else None
  {
    hide RecOk, VariantsOf, Flat;
    AppendOk(u, a, k, t);
    ParentThere(u, v);
    FlatGet(AppendField(u, a, k, t), v, k);
    GetPut(u.recs[v].own, k, Arriving(u.recs[v], k, t), k);
  }

  /** What waits takes a field out of the exclusion. */
  predicate Admits(wait: Option<Kwargs>) {
    wait.Some? && "exc" in wait.value && wait.value["exc"] != Flag(true)
  }

  /** The white list and fields that come later, to the class or to an ancestor.  A field that stays hidden
      behind one of its name takes part if that one is listed.  Otherwise, a name that the arguments mention
      and that is new to the flat type info is decided by the list, and every other one by what waited
      before: a listed field that is there and is appended again is excluded, and one that is not listed
      takes part where an earlier customisation said so. */
  lemma WhitelistLater(w: World, c: ClassId, args: Args, a: ClassId, k: string, t: FieldType)
    requires WorldOk(w) && AllRegistered(w) && c in w.recs && args.noexc.Some?
    requires a in Origins(w, c)
    ensures
      var (u, v) := Customize(w, c, args);
      && a in u.recs && WorldOk(AppendField(u, a, k, t))
      && var reached, later := {a} + VariantsOf(u, a), Get(Flat(AppendField(u, a, k, t), v), k);
         && later.Some? && Lands(u, v, reached) < |Chain(w, c, k)|
         && (!Excluded(later.value) <==>
               if Shadowed(u, v, reached, k) then Listed(args, k)
               else if k in EachOf(args).value && !Has(Flat(w, c), k) then Listed(args, k)
               else Admits(Chain(w, c, k)[Lands(u, v, reached)].wait))
  {
    hide RecOk, Customize, Flat, VariantsOf, AllRegistered, OwnersKept, Chain, Origins, Shadowed, Lands,
      Excluded, Listed, Admits;
    var (u, v) := Customize(w, c, args);
    OriginsThere(w, c, a);
    CustomizeOwners(w, c, args);
    var each := EachOf(args).value;
    CustomizeChain(w, c, args, k);
    AppendFlat(u, v, a, k, t);
    var reached := {a} + VariantsOf(u, a);
    var said := Said(w, c, each, k);
    DelayingAt(Chain(w, c, k), AllOf(args), said, Lands(u, v, reached));
    if Shadowed(u, v, reached, k) {
      ShadowedHas(u, v, reached, k);
      WhitelistExact(w, c, args, k);
    } else {
      var before := Chain(w, c, k)[Lands(u, v, reached)].wait;
      AdmittedLaid(args, t, if said.Some? then said else before);
      if said.Some? { ListedAdmits(args, k); }
    }
  }

  lemma AdmittedLaid(args: Args, t: FieldType, wait: Option<Kwargs>)
    requires args.noexc.Some?
    ensures !Excluded(Laid(t, AllOf(args), wait)) <==> Admits(wait)
  {
    assert "exc" in EXCLUDE && EXCLUDE["exc"] == Flag(true);
  }

  lemma ListedAdmits(args: Args, k: string)
    requires args.noexc.Some? && k in EachOf(args).value
    ensures Admits(Some(EachOf(args).value[k])) <==> Listed(args, k)
  {
    assert "exc" in INCLUDE && INCLUDE["exc"] == Flag(false);
  }

  /** The same for a field that is appended to the original: nothing hides it in the variant. */
  lemma WhitelistAppended(w: World, c: ClassId, args: Args, k: string, t: FieldType)
    requires WorldOk(w) && AllRegistered(w) && c in w.recs && args.noexc.Some?
    ensures
      var (u, v) := Customize(w, c, args);
      var o := OrigOf(w, c);
      && o in u.recs && WorldOk(AppendField(u, o, k, t))
      && var later := Get(Flat(AppendField(u, o, k, t), v), k);
         && later.Some?
         && (!Excluded(later.value) <==>
               if k in EachOf(args).value && !Has(Flat(w, c), k) then Listed(args, k)
               else Admits(Awaits(w.recs[c], k)))
  {
    hide RecOk, Customize, Flat, VariantsOf, AllRegistered, OwnersKept, Origins, Excluded, Listed, Admits;
    RecFacts(w, c);
    CustomizeRegisters(w, c, args);
    WhitelistLater(w, c, args, OrigOf(w, c), k, t);
  }

  /** An empty white list on a class whose own customisation has already admitted a field to come: the field
      takes part, although it is not listed. */
  lemma UnlistedAdmitted(w: World, c: ClassId, k: string, t: FieldType)
    requires WorldOk(w) && AllRegistered(w) && c in w.recs && w.recs[c].orig == None && !Has(Flat(w, c), k)
    ensures
      var (u, x) := Customize(w, c, Args(Some(map[k := INCLUDE]), None, None));
      var (y, v) := Customize(u, x, Args(None, None, Some(map[])));
      && c in y.recs && WorldOk(AppendField(y, c, k, t)) && v in AppendField(y, c, k, t).recs
      && !Listed(Args(None, None, Some(map[])), k)
      && var later := Get(Flat(AppendField(y, c, k, t), v), k);
         later.Some? && !Excluded(later.value)
  {
    hide RecOk, Customize, Flat, VariantsOf, AllRegistered, OwnersKept, Excluded;
    var first, list := Args(Some(map[k := INCLUDE]), None, None), Args(None, None, Some(map[]));
    var (u, x) := Customize(w, c, first);
    RecFacts(w, c);
    CustomizeOwners(w, c, first);
    CustomizedRec(w, c, first, k);
    assert "exc" in INCLUDE && INCLUDE["exc"] == Flag(false);
    WhitelistAppended(u, x, list, k, t);
  }

  /** Where nothing waited before, as in a class of the program: exactly the listed names that are new. */
  lemma WhitelistOfOriginal(w: World, c: ClassId, args: Args, a: ClassId, k: string, t: FieldType)
    requires WorldOk(w) && AllRegistered(w) && c in w.recs && w.recs[c].orig == None && args.noexc.Some?
    requires a in Origins(w, c)
    ensures
      var (u, v) := Customize(w, c, args);
      && a in u.recs && WorldOk(AppendField(u, a, k, t))
      && var later := Get(Flat(AppendField(u, a, k, t), v), k);
         && later.Some?
         && (!Excluded(later.value) <==>
               Listed(args, k) && (!Has(Flat(w, c), k) || Shadowed(u, v, {a} + VariantsOf(u, a), k)))
  {
    hide RecOk, Customize, Flat, VariantsOf, AllRegistered, OwnersKept, Origins, Shadowed, Excluded, Chain;
    WhitelistLater(w, c, args, a, k, t);
    var (u, v) := Customize(w, c, args);
    NothingWaits(w, c, k, Lands(u, v, {a} + VariantsOf(u, a)));
    if Listed(args, k) { ListedMentioned(args, k); }
  }

  lemma ListedMentioned(args: Args, k: string)
    requires args.noexc.Some? && Listed(args, k)
    ensures k in EachOf(args).value
  {
  }

  lemma {:induction false} NothingWaits(w: World, c: ClassId, k: string, i: nat)
    requires WorldOk(w) && c in w.recs && w.recs[c].orig == None && i < |Chain(w, c, k)|
    ensures Chain(w, c, k)[i].wait == None
    decreases w.recs[c].depth
  {
    assert RecOk(w, c);
    if i > 0 { NothingWaits(w, w.recs[c].parent.value, k, i - 1); }
  }

  lemma {:induction false} OriginsThere(w: World, c: ClassId, a: ClassId)
    requires WorldOk(w) && c in w.recs && a in Origins(w, c)
    ensures a in w.recs
    decreases w.recs[c].depth
  {
    hide RecOk;
    RecFacts(w, c);
    ParentThere(w, c);
    if a != OrigOf(w, c) { OriginsThere(w, w.recs[c].parent.value, a); }
  }

  lemma {:induction false} ShadowedHas(w: World, c: ClassId, reached: set<ClassId>, k: string)
    requires WorldOk(w) && c in w.recs && Shadowed(w, c, reached, k)
    ensures Has(Flat(w, c), k)
    decreases w.recs[c].depth
  {
    hide RecOk;
    ParentThere(w, c);
    FlatGet(w, c, k);
    if !Has(w.recs[c].own, k) { ShadowedHas(w, w.recs[c].parent.value, reached, k); }
  }

  // ---------- Shared dictionaries ----------

  /** Classes `c` and `o` of the program refer to the same dictionary of variants. */
  predicate Share(w: World, c: ClassId, o: ClassId)
    requires WorldOk(w) && c in w.recs && o in w.recs
  {
    DictOwner(w, c).Some? && DictOwner(w, o) == DictOwner(w, c)
  }

  /** A class is passed what is added to `c` exactly when its original shares the dictionary of `c`. */
  lemma VariantsExactly(w: World, c: ClassId, v: ClassId)
    requires WorldOk(w) && AllRegistered(w) && c in w.recs && w.recs[c].orig == None && v in w.recs
    ensures OrigOf(w, v) in w.recs
    ensures v in VariantsOf(w, c) <==> w.recs[v].orig.Some? && Share(w, c, OrigOf(w, v))
  {
    hide RecOk;
    RecFacts(w, v);
    DictOwnerOk(w, c);
    if v in VariantsOf(w, c) {
      DictMembers(w, DictOwner(w, c).value);
      assert Owned(w, DictOwner(w, c).value, v);
    }
  }

  /** Fields appended to a class reach its own variants only, exactly when no other class of the program
      that has variants shares its dictionary. */
  lemma OwnVariantsOnly(w: World, c: ClassId)
    requires WorldOk(w) && AllRegistered(w) && c in w.recs && w.recs[c].orig == None
    ensures (forall v | v in VariantsOf(w, c) :: v in w.recs && w.recs[v].orig == Some(c)) <==>
      !exists o, v | o in w.recs && v in w.recs && o != c :: w.recs[v].orig == Some(o) && Share(w, c, o)
  {
    hide RecOk, VariantsOf, Share, AllRegistered;
    VariantsThere(w, c);
    forall v | v in w.recs
      ensures OrigOf(w, v) in w.recs && (v in VariantsOf(w, c) <==> w.recs[v].orig.Some? && Share(w, c, OrigOf(w, v)))
    {
      VariantsExactly(w, c, v);
    }
  }

  lemma VariantsThere(w: World, c: ClassId)
    requires WorldOk(w) && c in w.recs
    ensures forall v | v in VariantsOf(w, c) :: v in w.recs && w.recs[v].orig.Some?
  {
    hide RecOk;
    if w.recs[c].orig == None && DictOwner(w, c).Some? {
      DictOwnerOk(w, c);
      DictMembers(w, DictOwner(w, c).value);
    }
  }

  /** What appending a field does to every class of the table. */
  lemma AppendReachesExactly(w: World, c: ClassId, k: string, t: FieldType, d: ClassId)
    requires WorldOk(w) && AllRegistered(w) && c in w.recs && w.recs[c].orig == None && d in w.recs
    ensures OrigOf(w, d) in w.recs && d in AppendField(w, c, k, t).recs
    ensures AppendField(w, c, k, t).recs[d] ==
      if d == c || (w.recs[d].orig.Some? && Share(w, c, OrigOf(w, d)))
      then w.recs[d].(own := Put(w.recs[d].own, k, Arriving(w.recs[d], k, t)))
      else w.recs[d]
  {
    hide RecOk, VariantsOf, Share, AllRegistered;
    VariantsExactly(w, c, d);
  }

  /** The dictionary of variants is inherited by Python subclasses, so fields leak upwards: while class `b`
      has none of its own, a field appended to `b` arrives in the variants of its base `a`, and not in `a`. */
  lemma AppendLeaks(w: World, a: ClassId, b: ClassId, x: ClassId, k: string, t: FieldType)
    requires WorldOk(w) && AllRegistered(w) && a in w.recs && b in w.recs && x in w.recs && a != b
    requires w.recs[b].orig == None && w.recs[b].variants == None && w.recs[b].base == Some(a)
    requires w.recs[x].orig == Some(a)
    ensures
      var u := AppendField(w, b, k, t);
      && Get(u.recs[x].own, k) == Some(Arriving(w.recs[x], k, t))
      && u.recs[a] == w.recs[a]
  {
    hide RecOk;
    RecFacts(w, x);
    DictOwnerOk(w, a);
    assert DictOwner(w, b) == DictOwner(w, a);
    AppendReachesExactly(w, b, k, t, x);
    AppendReachesExactly(w, b, k, t, a);
    GetPut(w.recs[x].own, k, Arriving(w.recs[x], k, t), k);
  }

  /** And downwards: variants of `b` are entered with `a`, and get the fields appended to `a` as fields of
      their own, which `b` does not. */
  lemma VariantOfDerivedReached(w: World, a: ClassId, b: ClassId, args: Args, k: string, t: FieldType)
    requires WorldOk(w) && a in w.recs && b in w.recs && a != b && w.recs[a].orig == None && w.recs[b].orig == None
    requires w.recs[a].variants.Some? && w.recs[b].variants == None && w.recs[b].base == Some(a)
    requires !Has(w.recs[b].own, k)
    ensures
      var (u, v) := Customize(w, b, args);
      && a in u.recs && v in VariantsOf(u, a)
      && Has(AppendField(u, a, k, t).recs[v].own, k)
      && b in u.recs && !Has(AppendField(u, a, k, t).recs[b].own, k)
  {
    hide RecOk, Customize, AllRegistered, OwnersKept;
    Uncustomised(w, b);
    var (u, v) := Customize(w, b, args);
    assert DictOwner(w, b) == Some(a);
    CustomizeRegisters(w, b, args);
    KeepsOwners(w, b, args, b);
    KeepsOwners(w, b, args, a);
    AfterwardsArrives(u, a, v, k, t);
    SameOwn(w, u, b);
    NotVariant(u, a, b);
  }

  lemma SameOwn(w: World, u: World, c: ClassId)
    requires Frame(w, u) && c in w.recs
    ensures c in u.recs && u.recs[c].own == w.recs[c].own
  {
  }

  lemma NotVariant(w: World, a: ClassId, b: ClassId)
    requires WorldOk(w) && a in w.recs && b in w.recs && w.recs[b].orig == None
    ensures b !in VariantsOf(w, a)
  {
    assert RecOk(w, a);
    if DictOwner(w, a).Some? && w.recs[a].orig == None {
      DictOwnerOk(w, a);
      DictMembers(w, DictOwner(w, a).value);
    }
  }

  lemma KeepsOwners(w: World, c: ClassId, args: Args, d: ClassId)
    requires WorldOk(w) && c in w.recs && d in w.recs && DictOwner(w, d).Some?
    ensures d in Customize(w, c, args).0.recs && DictOwner(Customize(w, c, args).0, d) == DictOwner(w, d)
    ensures Customize(w, c, args).0.recs[d].orig == w.recs[d].orig
  {
    CustomizeOwners(w, c, args);
  }
}
