/** The class model as it runs: a table of classes that the operations change in place, and the memo of
    flat type infos that they clear. */
module ClassModel {
  import opened Wrappers
  import opened FieldTables
  import opened ClassTable
  import C = Customization

  class ClassModel {
    var w: World
    var memo: map<ClassId, Fields>

    /** Every variant is registered with its original, and every memoised flat type info is what a fresh
        computation gives. */
    ghost predicate Valid()
      reads this
    {
      && WorldOk(w) && C.AllRegistered(w)
      && forall c | c in memo :: c in w.recs && memo[c] == Flat(w, c)
    }

    /** No memoised class descends from `v`. */
    ghost predicate MemoAvoids(v: ClassId)
      requires Valid()
      reads this
    {
      forall c | c in memo :: C.Avoids(w, c, v)
    }

    constructor ()
      ensures Valid() && w == World(map[], 0) && memo == map[]
    {
      w := World(map[], 0);
      memo := map[];
    }

    method GetFlatTypeInfo(c: ClassId) returns (r: Fields)
      requires Valid() && c in w.recs
      modifies this`memo
      ensures Valid()
      ensures r == Flat(w, c) && memo == old(memo)[c := r]
    {
      if c !in memo {
        r := ComputeFlat(c);
        memo := memo[c := r];
      } else {
        r := memo[c];
      }
    }

    /** Parents first, then the own fields one by one; nothing is memoised on the way. */
    method ComputeFlat(c: ClassId) returns (r: Fields)
      requires Valid() && c in w.recs
      ensures r == Flat(w, c)
      decreases w.recs[c].depth
    {
      C.ParentThere(w, c);
      r := [];
      if w.recs[c].parent.Some? {
        r := ComputeFlat(w.recs[c].parent.value);
      }
      var own := w.recs[c].own;
      ghost var start := r;
      for i := 0 to |own|
        invariant r == Update(start, own[..i])
      {
        r := Put(r, own[i].0, own[i].1);
        assert own[..i + 1][..i] == own[..i];
      }
      assert own[..|own|] == own;
    }

    method Define(own: Fields, parent: Option<ClassId>) returns (c: ClassId)
      requires Valid() && Distinct(own)
      requires parent.Some? ==> parent.value in w.recs && w.recs[parent.value].orig == None
      modifies this
      ensures Valid() && w == ClassTable.Define(old(w), own, parent) && c == old(w).next && c in w.recs
    {
      hide RecOk;
      DefineOk(w, own, parent);
      c := w.next;
      ghost var before := w;
      w := ClassTable.Define(w, own, parent);
      forall d | d in memo ensures memo[d] == Flat(w, d) { C.FlatKept(before, w, d); }
      C.DefineKeepsRegistered(before, own, parent);
    }

    /** The memo is cleared last, after the parents have been customised and their flat type infos taken. */
    method Customize(c: ClassId, args: Args) returns (v: ClassId)
      requires Valid() && c in w.recs
      modifies this
      ensures Valid()
      ensures (w, v) == ClassTable.Customize(old(w), c, args)
      ensures memo == map[]
      decreases w.recs[c].depth, 1
    {
      hide RecOk, Flat, C.AllRegistered;
      CopiedOk(w, c);
      C.CopiedAllRegistered(w, c);
      v := w.next;
      ghost var before := w;
      w := Copied(w, c);
      forall d | d in memo ensures memo[d] == Flat(w, d) && C.Avoids(w, d, v) {
        C.FlatKept(before, w, d);
        C.FreshAvoided(before, w, d, v);
      }
      FrameRefl(w, v);
      var all, each := AllOf(args), EachOf(args);
      if all.Some? {
        CustomizeAll(v, all.value);
      }
      if each.Some? {
        CustomizeEach(v, each.value);
      }
      C.CustomizeOwners(before, c, args);
      memo := map[];
    }

    method CustomizeAll(v: ClassId, kw: Kwargs)
      requires Valid() && v in w.recs && w.recs[v].orig.Some? && MemoAvoids(v)
      modifies this
      ensures Valid() && MemoAvoids(v)
      ensures w == ClassTable.CustomizeAll(old(w), v, kw) && FrameBut(old(w), w, v)
      decreases w.recs[v].depth, 0
    {
      hide RecOk, Flat, C.Avoids, C.AllRegistered;
      C.ParentThere(w, v);
      C.AllOwners(w, v, kw);
      ghost var result := ClassTable.CustomizeAll(w, v, kw);
      var r := w.recs[v];
      var own := Each(r.own, kw);
      var p := r.parent;
      if p.Some? {
        var copy := Customize(p.value, Args(None, Some(kw), None));
        p := Some(copy);
      }
      ghost var x := w;
      w := Refit(w, v, own, p, r.waiting, Some(kw));
      assert w == result;
      forall d | d in memo ensures memo[d] == Flat(w, d) && C.Avoids(w, d, v) {
        C.RefitAvoids(x, v, own, p, r.waiting, Some(kw), d);
      }
    }

    method Each(fs: Fields, kw: Kwargs) returns (r: Fields)
      ensures r == CustAll(fs, kw)
    {
      r := [];
      for i := 0 to |fs|
        invariant r + CustAll(fs[i..], kw) == CustAll(fs, kw)
      {
        assert fs[i..][1..] == fs[i + 1..];
        r := r + [(fs[i].0, Cust(fs[i].1, kw))];
      }
    }

    /** Customises the named fields and reports the names that are no fields. */
    method Named(fs: Fields, kws: map<string, Kwargs>) returns (r: Fields, left: map<string, Kwargs>)
      ensures r == CustEach(fs, kws) && left == Left(fs, kws)
    {
      hide Get, Left;
      r, left := [], kws;
      assert fs[..0] == [];
      NothingTaken(kws);
      for i := 0 to |fs|
        invariant r + CustEach(fs[i..], kws) == CustEach(fs, kws)
        invariant left == Left(fs[..i], kws)
      {
        assert fs[i..][1..] == fs[i + 1..];
        var (k, t) := fs[i];
        LeftStep(fs, i, kws);
        if k in kws {
          r := r + [(k, Cust(t, kws[k]))];
          left := left - {k};
        } else {
          r := r + [(k, t)];
          NotLeft(fs[..i], kws, k);
        }
      }
      assert fs[..|fs|] == fs;
    }

    /** The flat type info of the customised parent is memoised on the way. */
    method CustomizeEach(v: ClassId, kws: map<string, Kwargs>)
      requires Valid() && v in w.recs && w.recs[v].orig.Some? && MemoAvoids(v)
      modifies this
      ensures Valid() && MemoAvoids(v)
      ensures w == ClassTable.CustomizeEach(old(w), v, kws) && FrameBut(old(w), w, v)
      decreases w.recs[v].depth, 0
    {
      hide RecOk, Flat, C.Avoids, C.AllRegistered, WorldOk, Frame, FrameBut, Left, CustEach;
      C.ParentThere(w, v);
      C.EachOwners(w, v, kws);
      ghost var result := ClassTable.CustomizeEach(w, v, kws);
      var r := w.recs[v];
      var own, left := Named(r.own, kws);
      var p := r.parent;
      var baseFields := [];
      if p.Some? {
        ghost var before := w;
        var copy := Customize(p.value, Args(Some(left), None, None));
        C.SameDepth(before, w, v);
        baseFields := GetFlatTypeInfo(copy);
        C.LowerAvoids(w, copy, v);
        p := Some(copy);
      }
      NotInNothing(left);
      ghost var x := w;
      ghost var waiting := r.waiting + NotIn(baseFields, left);
      w := Refit(w, v, own, p, r.waiting + NotIn(baseFields, left), r.waitingAll);
      assert w == result;
      forall d | d in memo ensures memo[d] == Flat(w, d) && C.Avoids(w, d, v) {
        C.RefitAvoids(x, v, own, p, waiting, r.waitingAll, d);
      }
    }

    /** Lays the delayed customisations over the type. */
    method AppendFieldImpl(c: ClassId, k: string, t: FieldType)
      modifies this
      ensures w == C.AppendTo(old(w), {c}, k, t) && memo == map[]
    {
      if c in w.recs {
        var r := w.recs[c];
        w := WithRec(w, c, r.(own := Put(r.own, k, C.Arriving(r, k, t))));
      }
      assert w.recs == C.AppendTo(old(w), {c}, k, t).recs;
      memo := map[];
    }

    method InsertFieldImpl(c: ClassId, index: int, k: string, t: FieldType)
      modifies this
      ensures w == C.InsertTo(old(w), {c}, index, k, t) && memo == map[]
    {
      if c in w.recs {
        var r := w.recs[c];
        w := WithRec(w, c, r.(own := Insert(r.own, index, k, C.Arriving(r, k, t)), waiting := r.waiting - {k}));
      }
      assert w.recs == C.InsertTo(old(w), {c}, index, k, t).recs;
      memo := map[];
    }

    method ReplaceFieldImpl(c: ClassId, k: string, t: FieldType)
      modifies this
      ensures w == C.ReplaceIn(old(w), {c}, k, t) && memo == map[]
    {
      if c in w.recs {
        var r := w.recs[c];
        w := WithRec(w, c, r.(own := Put(r.own, k, t)));
      }
      assert w.recs == C.ReplaceIn(old(w), {c}, k, t).recs;
      memo := map[];
    }

    /** The class itself, and then every variant that its dictionary holds, each with the original type;
        these are all classes customised from it. */
    method AppendField(c: ClassId, k: string, t: FieldType)
      requires Valid() && c in w.recs
      modifies this
      ensures Valid() && w == C.AppendField(old(w), c, k, t)
      ensures forall v | v in w.recs && (v == c || w.recs[v].orig == Some(c)) ::
        v in old(w).recs && Get(w.recs[v].own, k) == Some(C.Arriving(old(w).recs[v], k, t))
    {
      hide RecOk, Flat, DictOwner, VariantsOf, Get, C.AllRegistered, C.Arriving;
      C.AppendOk(w, c, k, t);
      ghost var before := w;
      var todo := VariantsOf(w, c) - {c};
      AppendFieldImpl(c, k, t);
      ghost var done := {c};
      while todo != {}
        invariant todo + done == {c} + VariantsOf(before, c) && todo !! done
        invariant w == C.AppendTo(before, done, k, t)
        decreases todo
      {
        var v :| v in todo;
        todo := todo - {v};
        C.OneMore(before, done, v, 0, k, t);
        AppendFieldImpl(v, k, t);
        done := done + {v};
      }
      assert done == {c} + VariantsOf(before, c);
      assert w == C.AppendField(before, c, k, t);
      C.FieldsKeepRegistered(before, w);
      forall v | v in w.recs && (v == c || w.recs[v].orig == Some(c))
        ensures Get(w.recs[v].own, k) == Some(C.Arriving(before.recs[v], k, t))
      {
        C.AppendReachesVariants(before, c, k, t, v);
      }
      memo := map[];
    }

    /** As `AppendField`, at a given place. */
    method InsertField(c: ClassId, index: int, k: string, t: FieldType)
      requires Valid() && c in w.recs
      modifies this
      ensures Valid() && w == C.InsertField(old(w), c, index, k, t)
      ensures forall v | v in w.recs && (v == c || w.recs[v].orig == Some(c)) ::
        && v in old(w).recs && Get(w.recs[v].own, k) == Some(C.Arriving(old(w).recs[v], k, t))
        && k !in w.recs[v].waiting
    {
      hide RecOk, Flat, DictOwner, VariantsOf, Get, C.AllRegistered, C.Arriving;
      C.InsertOk(w, c, index, k, t);
      ghost var before := w;
      var todo := VariantsOf(w, c) - {c};
      InsertFieldImpl(c, index, k, t);
      ghost var done := {c};
      while todo != {}
        invariant todo + done == {c} + VariantsOf(before, c) && todo !! done
        invariant w == C.InsertTo(before, done, index, k, t)
        decreases todo
      {
        var v :| v in todo;
        todo := todo - {v};
        C.OneMore(before, done, v, index, k, t);
        InsertFieldImpl(v, index, k, t);
        done := done + {v};
      }
      assert done == {c} + VariantsOf(before, c);
      assert w == C.InsertField(before, c, index, k, t);
      C.FieldsKeepRegistered(before, w);
      forall v | v in w.recs && (v == c || w.recs[v].orig == Some(c))
        ensures Get(w.recs[v].own, k) == Some(C.Arriving(before.recs[v], k, t)) && k !in w.recs[v].waiting
      {
        C.OthersReachVariants(before, c, index, k, t, v);
      }
      memo := map[];
    }

    /** As `AppendField`, without any customisation. */
    method ReplaceField(c: ClassId, k: string, t: FieldType)
      requires Valid() && c in w.recs
      modifies this
      ensures Valid() && w == C.ReplaceField(old(w), c, k, t)
      ensures forall v | v in w.recs && (v == c || w.recs[v].orig == Some(c)) :: Get(w.recs[v].own, k) == Some(t)
    {
      hide RecOk, Flat, DictOwner, VariantsOf, Get, C.AllRegistered, C.Arriving;
      C.ReplaceOk(w, c, k, t);
      ghost var before := w;
      var todo := VariantsOf(w, c) - {c};
      ReplaceFieldImpl(c, k, t);
      ghost var done := {c};
      while todo != {}
        invariant todo + done == {c} + VariantsOf(before, c) && todo !! done
        invariant w == C.ReplaceIn(before, done, k, t)
        decreases todo
      {
        var v :| v in todo;
        todo := todo - {v};
        C.OneMore(before, done, v, 0, k, t);
        ReplaceFieldImpl(v, k, t);
        done := done + {v};
      }
      assert done == {c} + VariantsOf(before, c);
      assert w == C.ReplaceField(before, c, k, t);
      C.FieldsKeepRegistered(before, w);
      forall v | v in w.recs && (v == c || w.recs[v].orig == Some(c)) ensures Get(w.recs[v].own, k) == Some(t) {
        C.OthersReachVariants(before, c, 0, k, t, v);
      }
      memo := map[];
    }
  }

  /** A variant gets a field that its original does not have: the field is appended to a class derived from
      the original, which has no variants of its own. */
  method FieldLeaks(k: string, t: FieldType) returns (m: ClassModel, a: ClassId, x: ClassId)
    ensures fresh(m) && m.Valid() && a in m.w.recs && x in m.w.recs && m.w.recs[x].orig == Some(a)
    ensures Has(m.w.recs[x].own, k) && !Has(m.w.recs[a].own, k)
  {
    hide RecOk, Flat, DictOwner, C.AllRegistered;
    m := new ClassModel();
    a := m.Define([], None);
    ghost var w1 := m.w;
    x := m.Customize(a, Args(None, None, None));
    ghost var w2 := m.w;
    assert w2.recs[a].own == w1.recs[a].own;
    var b := m.Define([], Some(a));
    ghost var w3 := m.w;
    assert w3.recs[x] == w2.recs[x] && w3.recs[a] == w2.recs[a];
    m.AppendField(b, k, t);
    C.AppendLeaks(w3, a, b, x, k, t);
  }

  /** A class takes part in a field that its white list does not name: an earlier customisation of the class
      that it is made from says so. */
  method UnlistedTakesPart(k: string, t: FieldType) returns (m: ClassModel, v: ClassId, later: Option<FieldType>)
    ensures fresh(m) && m.Valid() && v in m.w.recs && later == Get(Flat(m.w, v), k)
    ensures !C.Listed(Args(None, None, Some(map[])), k) && later.Some? && !Excluded(later.value)
  {
    hide RecOk, Flat, DictOwner, C.AllRegistered, ClassTable.Customize, C.AppendField, Excluded;
    m := new ClassModel();
    var a := m.Define([], None);
    C.FlatGet(m.w, a, k);
    C.UnlistedAdmitted(m.w, a, k, t);
    var x := m.Customize(a, Args(Some(map[k := INCLUDE]), None, None));
    v := m.Customize(x, Args(None, None, Some(map[])));
    m.AppendField(a, k, t);
    var fields := m.GetFlatTypeInfo(v);
    later := Get(fields, k);
  }

  lemma NotInNothing(kws: map<string, Kwargs>)
    ensures NotIn([], kws) == kws
  {
    assert forall k | k in kws :: !Has([], k);
  }

  lemma NothingTaken(kws: map<string, Kwargs>)
    ensures Left([], kws) == kws
  {
    assert forall k | k in kws :: !Has([], k);
  }

  lemma NotLeft(fs: Fields, kws: map<string, Kwargs>, k: string)
    requires k !in kws
    ensures Left(fs, kws) - {k} == Left(fs, kws)
  {
    assert k !in Left(fs, kws);
  }

  lemma LeftStep(fs: Fields, i: nat, kws: map<string, Kwargs>)
    requires i < |fs|
    ensures Left(fs[..i + 1], kws) == Left(fs[..i], kws) - {fs[i].0}
  {
    hide Get;
    var front := fs[..i];
    var (k, t) := fs[i];
    var more := front + [(k, t)];
    assert fs[..i + 1] == more;
    forall q ensures q in Left(more, kws) <==> q in Left(front, kws) && q != k {
      GetSnoc(front, k, t, q);
      assert Has(more, q) == (Has(front, q) || q == k);
    }
    assert Left(more, kws).Keys == (Left(front, kws) - {k}).Keys;
  }

  lemma DefineOk(w: World, own: Fields, parent: Option<ClassId>)
    requires WorldOk(w) && Distinct(own)
    requires parent.Some? ==> parent.value in w.recs && w.recs[parent.value].orig == None
    ensures
      var u := ClassTable.Define(w, own, parent);
      WorldOk(u) && Frame(w, u) && w.next in u.recs && w.next !in w.recs
  {
    if w.next in w.recs { RecFacts(w, w.next); }
    if parent.Some? { RecFacts(w, parent.value); }
    var u := ClassTable.Define(w, own, parent);
    forall d | d in u.recs ensures RecOk(u, d) {
      if d in w.recs { assert RecOk(w, d); }
    }
  }
}
