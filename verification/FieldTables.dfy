/** Ordered tables of fields (`odict`), and types of fields with their customisations. */
module FieldTables {
  import opened Wrappers

  /** The value of a customisation keyword; flags are told apart because `exc` is one. */
  datatype Val = Flag(b: bool) | Other(n: nat)

  type Kwargs = map<string, Val>

  /** A type is a class and the attributes that customisations have laid over it, the last one on top. */
  datatype FieldType = FieldType(base: nat, attrs: Kwargs)

  type Fields = seq<(string, FieldType)>

  function Cust(t: FieldType, kw: Kwargs): FieldType {
    t.(attrs := t.attrs + kw)
  }

  function CustMaybe(t: FieldType, kw: Option<Kwargs>): FieldType {
    if kw.Some? then Cust(t, kw.value) else t
  }

  predicate Excluded(t: FieldType) {
    "exc" in t.attrs && t.attrs["exc"] == Flag(true)
  }

  function Has(fs: Fields, k: string): bool {
    Get(fs, k).Some?
  }

  function Get(fs: Fields, k: string): Option<FieldType> {
    if fs == [] then None
    else if fs[0].0 == k then Some(fs[0].1)
    else Get(fs[1..], k)
  }

  /** `fs[k] = t`: in place for a known key, else at the end. */
  function Put(fs: Fields, k: string, t: FieldType): Fields {
    if fs == [] then [(k, t)]
    else if fs[0].0 == k then [(k, t)] + fs[1..]
    else [fs[0]] + Put(fs[1..], k, t)
  }

  function Drop(fs: Fields, k: string): Fields {
    if fs == [] then []
    else if fs[0].0 == k then fs[1..]
    else [fs[0]] + Drop(fs[1..], k)
  }

  /** Where `list.insert` puts an element: negative indices count from the end, others are clamped. */
  function InsertAt(index: int, len: nat): (i: nat)
    ensures i <= len
  {
    if index < 0 then (if len + index < 0 then 0 else len + index) else if index > len then len else index
  }

  function Insert(fs: Fields, index: int, k: string, t: FieldType): Fields {
    var rest := Drop(fs, k);
    var i := InsertAt(index, |rest|);
    rest[..i] + [(k, t)] + rest[i..]
  }

  /** `fs.update(gs)` */
  function Update(fs: Fields, gs: Fields): Fields {
    if gs == [] then fs
    else Put(Update(fs, gs[..|gs| - 1]), gs[|gs| - 1].0, gs[|gs| - 1].1)
  }

  /** Every field customised alike. */
  function CustAll(fs: Fields, kw: Kwargs): Fields {
    if fs == [] then [] else [(fs[0].0, Cust(fs[0].1, kw))] + CustAll(fs[1..], kw)
  }

  /** The fields that are named, each customised in its own way. */
  function CustEach(fs: Fields, kws: map<string, Kwargs>): Fields {
    if fs == [] then []
    else [(fs[0].0, if fs[0].0 in kws then Cust(fs[0].1, kws[fs[0].0]) else fs[0].1)] + CustEach(fs[1..], kws)
  }

  lemma {:induction false} GetPut(fs: Fields, k: string, t: FieldType, q: string)
    ensures Get(Put(fs, k, t), q) == if q == k then Some(t) else Get(fs, q)
  {
    if fs != [] {
      GetPut(fs[1..], k, t, q);
      assert Put(fs, k, t)[1..] == if fs[0].0 == k then fs[1..] else Put(fs[1..], k, t);
    }
  }

  lemma {:induction false} GetSnoc(fs: Fields, k: string, t: FieldType, q: string)
    ensures Get(fs + [(k, t)], q) == if Get(fs, q).Some? then Get(fs, q) else if q == k then Some(t) else None
  {
    if fs != [] {
      GetSnoc(fs[1..], k, t, q);
      assert (fs + [(k, t)])[1..] == fs[1..] + [(k, t)];
    } else {
      assert (fs + [(k, t)])[1..] == [];
    }
  }

  /** No key twice. */
  ghost predicate Distinct(fs: Fields) {
    forall i, j | 0 <= i < j < |fs| :: fs[i].0 != fs[j].0
  }

  lemma {:induction false} GetUpdate(fs: Fields, gs: Fields, q: string)
    requires Distinct(gs)
    ensures Get(Update(fs, gs), q) == if Get(gs, q).Some? then Get(gs, q) else Get(fs, q)
  {
    if gs != [] {
      var front, last := gs[..|gs| - 1], gs[|gs| - 1];
      GetUpdate(fs, front, q);
      GetPut(Update(fs, front), last.0, last.1, q);
      GetSnoc(front, last.0, last.1, q);
      assert gs == front + [(last.0, last.1)];
      if Get(front, last.0).Some? { GetIsAt(front, last.0); }
    }
  }

  lemma {:induction false} GetIsAt(fs: Fields, k: string)
    ensures Get(fs, k).Some? ==> exists i :: 0 <= i < |fs| && fs[i] == (k, Get(fs, k).value)
    ensures Get(fs, k).None? ==> forall i | 0 <= i < |fs| :: fs[i].0 != k
  {
    if fs != [] {
      GetIsAt(fs[1..], k);
      if fs[0].0 == k {
        assert fs[0] == (k, Get(fs, k).value);
      } else if Get(fs, k).Some? {
        var i :| 0 <= i < |fs[1..]| && fs[1..][i] == (k, Get(fs[1..], k).value);
        assert fs[i + 1] == (k, Get(fs, k).value);
      }
    }
  }

  lemma {:induction false} GetCustAll(fs: Fields, kw: Kwargs, q: string)
    ensures Get(CustAll(fs, kw), q) == if Get(fs, q).Some? then Some(Cust(Get(fs, q).value, kw)) else None
    ensures |CustAll(fs, kw)| == |fs| && forall i | 0 <= i < |fs| :: CustAll(fs, kw)[i].0 == fs[i].0
  {
    if fs != [] {
      GetCustAll(fs[1..], kw, q);
    }
  }

  lemma {:induction false} GetCustEach(fs: Fields, kws: map<string, Kwargs>, q: string)
    ensures Get(CustEach(fs, kws), q) ==
      if Get(fs, q).None? then None
      else if q in kws then Some(Cust(Get(fs, q).value, kws[q])) else Get(fs, q)
    ensures |CustEach(fs, kws)| == |fs| && forall i | 0 <= i < |fs| :: CustEach(fs, kws)[i].0 == fs[i].0
  {
    if fs != [] {
      GetCustEach(fs[1..], kws, q);
    }
  }

  lemma {:induction false} PutDistinct(fs: Fields, k: string, t: FieldType)
    requires Distinct(fs)
    ensures Distinct(Put(fs, k, t))
    ensures forall i | 0 <= i < |Put(fs, k, t)| :: Put(fs, k, t)[i].0 == k || Has(fs, Put(fs, k, t)[i].0)
  {
    if fs != [] {
      PutDistinct(fs[1..], k, t);
      var tail := Put(fs[1..], k, t);
      forall i | 0 <= i < |tail| ensures fs[0].0 != k ==> tail[i].0 != fs[0].0 {
        GetIsAt(fs[1..], tail[i].0);
      }
      forall i | 0 <= i < |fs| ensures Has(fs, fs[i].0) { GetIsAt(fs, fs[i].0); }
    }
  }

  lemma {:induction false} DropDistinct(fs: Fields, k: string)
    requires Distinct(fs)
    ensures Distinct(Drop(fs, k))
    ensures forall i | 0 <= i < |Drop(fs, k)| :: Drop(fs, k)[i].0 != k
    ensures forall q :: q != k ==> Get(Drop(fs, k), q) == Get(fs, q)
    ensures forall i | 0 <= i < |Drop(fs, k)| :: Has(fs, Drop(fs, k)[i].0)
  {
    if fs != [] {
      DropDistinct(fs[1..], k);
      var tail := Drop(fs[1..], k);
      forall i | 0 <= i < |tail| ensures tail[i].0 != fs[0].0 { GetIsAt(fs[1..], tail[i].0); }
      forall i | 0 <= i < |fs| ensures Has(fs, fs[i].0) { GetIsAt(fs, fs[i].0); }
      if fs[0].0 != k { assert Drop(fs, k)[1..] == tail; }
    }
  }

  lemma InsertDistinct(fs: Fields, index: int, k: string, t: FieldType)
    requires Distinct(fs)
    ensures Distinct(Insert(fs, index, k, t))
  {
    DropDistinct(fs, k);
  }

  lemma {:induction false} GetConcat(fs: Fields, gs: Fields, q: string)
    ensures Get(fs + gs, q) == if Get(fs, q).Some? then Get(fs, q) else Get(gs, q)
  {
    if fs != [] {
      GetConcat(fs[1..], gs, q);
      assert (fs + gs)[1..] == fs[1..] + gs;
    } else {
      assert fs + gs == gs;
    }
  }

  /** Wherever a field is inserted, it is found, and the others as before. */
  lemma GetInsert(fs: Fields, index: int, k: string, t: FieldType, q: string)
    requires Distinct(fs)
    ensures Get(Insert(fs, index, k, t), q) == if q == k then Some(t) else Get(fs, q)
  {
    DropDistinct(fs, k);
    var rest := Drop(fs, k);
    var i := InsertAt(index, |rest|);
    assert rest == rest[..i] + rest[i..];
    GetConcat(rest[..i], rest[i..], q);
    GetConcat(rest[..i] + [(k, t)], rest[i..], q);
    GetConcat(rest[..i], [(k, t)], q);
    GetIsAt(rest[..i], k);
  }

  /** A known key keeps its place. */
  lemma {:induction false} PutAt(fs: Fields, i: nat, t: FieldType)
    requires i < |fs| && forall j | 0 <= j < i :: fs[j].0 != fs[i].0
    ensures Put(fs, fs[i].0, t) == fs[i := (fs[i].0, t)]
  {
    if i > 0 {
      PutAt(fs[1..], i - 1, t);
      assert fs[i := (fs[i].0, t)] == [fs[0]] + fs[1..][i - 1 := (fs[i].0, t)];
    }
  }

  /** A new key goes to the end. */
  lemma {:induction false} PutNew(fs: Fields, k: string, t: FieldType)
    requires forall i | 0 <= i < |fs| :: fs[i].0 != k
    ensures Put(fs, k, t) == fs + [(k, t)]
  {
    if fs != [] {
      PutNew(fs[1..], k, t);
      assert fs + [(k, t)] == [fs[0]] + (fs[1..] + [(k, t)]);
    }
  }

  lemma {:induction false} DropAt(fs: Fields, i: nat)
    requires i < |fs| && forall j | 0 <= j < i :: fs[j].0 != fs[i].0
    ensures Drop(fs, fs[i].0) == fs[..i] + fs[i + 1..]
  {
    if i > 0 {
      DropAt(fs[1..], i - 1);
      assert fs[..i] + fs[i + 1..] == [fs[0]] + (fs[1..][..i - 1] + fs[1..][i..]);
    }
  }

  lemma {:induction false} DropNone(fs: Fields, k: string)
    requires forall i | 0 <= i < |fs| :: fs[i].0 != k
    ensures Drop(fs, k) == fs
  {
    if fs != [] { DropNone(fs[1..], k); }
  }

  /** Where a field is inserted among the others, which keep their order: at the index, or that far from the
      end for a negative one, or at the end or the beginning where the index is out of range. */
  lemma InsertSpelled(fs: Fields, others: Fields, index: int, k: string, t: FieldType) returns (i: nat)
    requires Distinct(fs)
    requires (others == fs && !Has(fs, k)) || exists j | 0 <= j < |fs| :: fs[j].0 == k && others == fs[..j] + fs[j + 1..]
    ensures i <= |others| && Insert(fs, index, k, t) == others[..i] + [(k, t)] + others[i..]
    ensures 0 <= index <= |others| ==> i == index
    ensures -|others| <= index < 0 ==> |others| - i == -index
    ensures index > |others| ==> i == |others|
    ensures index < -|others| ==> i == 0
  {
    hide Drop, Get;
    if others == fs && !Has(fs, k) {
      GetIsAt(fs, k);
      DropNone(fs, k);
    } else {
      var j :| 0 <= j < |fs| && fs[j].0 == k && others == fs[..j] + fs[j + 1..];
      DropAt(fs, j);
    }
    i := InsertAt(index, |others|);
  }
}
