/** The allocator of namespace prefixes, as a function of the registry's two prefix tables. */
module Prefixes {
  import Decimal

  datatype Tables = Tables(nsmap: map<string, string>, prefmap: map<string, string>, counter: nat)

  /** The prefixes known from the start, as in `spyne.const.xml`. */
  function BasePrefixes(): seq<string> {
    ["xml", "xs", "xsi", "plink", "wsdlsoap11", "wsdlsoap12", "wsdl", "soap11enc",
     "soap11env", "soap12env", "soap12enc", "wsa", "xop", "http"]
  }

  /** Their namespaces, in the same order. */
  function BaseNamespaces(): seq<string> {
    [
      "http://www.w3.org/XML/1998/namespace",
      "http://www.w3.org/2001/XMLSchema",
      "http://www.w3.org/2001/XMLSchema-instance",
      "http://schemas.xmlsoap.org/ws/2003/05/partner-link/",
      "http://schemas.xmlsoap.org/wsdl/soap/",
      "http://schemas.xmlsoap.org/wsdl/soap12/",
      "http://schemas.xmlsoap.org/wsdl/",
      "http://schemas.xmlsoap.org/soap/encoding/",
      "http://schemas.xmlsoap.org/soap/envelope/",
      "http://www.w3.org/2003/05/soap-envelope",
      "http://www.w3.org/2003/05/soap-encoding",
      "http://schemas.xmlsoap.org/ws/2003/03/addressing",
      "http://www.w3.org/2004/08/xop/include",
      "http://schemas.xmlsoap.org/wsdl/http/"
    ]
  }

  function Base(): seq<(string, string)> {
    seq(14, i requires 0 <= i < 14 => (BasePrefixes()[i], BaseNamespaces()[i]))
  }

  function ByPrefix(pairs: seq<(string, string)>): map<string, string> {
    if pairs == [] then map[] else ByPrefix(pairs[..|pairs| - 1])[pairs[|pairs| - 1].0 := pairs[|pairs| - 1].1]
  }

  function ByNamespace(pairs: seq<(string, string)>): map<string, string> {
    if pairs == [] then map[] else ByNamespace(pairs[..|pairs| - 1])[pairs[|pairs| - 1].1 := pairs[|pairs| - 1].0]
  }

  function NSMAP(): map<string, string> {
    ByPrefix(Base())
  }

  function PREFMAP(): map<string, string> {
    ByNamespace(Base())
  }

  /** The prefix of the n-th generated namespace. */
  function Pref(n: nat): string {
    "s" + Decimal.Show(n)
  }

  lemma PrefInjective(m: nat, n: nat)
    ensures Pref(m) == Pref(n) <==> m == n
  {
    assert Pref(m)[1..] == Decimal.Show(m) && Pref(n)[1..] == Decimal.Show(n);
    Decimal.ShowInjective(m, n);
  }

  /** Generated prefixes from number `n` on that are in use. */
  ghost function TakenFrom(nsmap: map<string, string>, n: nat): set<string> {
    set p | p in nsmap && exists i: nat :: n <= i && p == Pref(i)
  }

  lemma TakenShrinks(nsmap: map<string, string>, n: nat)
    requires Pref(n) in nsmap
    ensures TakenFrom(nsmap, n + 1) < TakenFrom(nsmap, n)
  {
    forall i: nat | n + 1 <= i ensures Pref(i) != Pref(n) { PrefInjective(i, n); }
    assert Pref(n) in TakenFrom(nsmap, n) && Pref(n) !in TakenFrom(nsmap, n + 1);
  }

  /** The search loop: the first number from `n` on whose prefix is free.  It ends because `nsmap` is
      finite and prefixes of different numbers differ. */
  ghost function FreeFrom(nsmap: map<string, string>, n: nat): (r: nat)
    ensures n <= r && Pref(r) !in nsmap
    ensures forall i | n <= i < r :: Pref(i) in nsmap
    decreases TakenFrom(nsmap, n)
  {
    if Pref(n) !in nsmap then n
    else
      TakenShrinks(nsmap, n);
      FreeFrom(nsmap, n + 1)
  }

  function Reset(tns: string, counter: nat): Tables {
    Tables(NSMAP()["tns" := tns], PREFMAP()[tns := "tns"], counter)
  }

  /** `get_namespace_prefix`: the new tables. */
  ghost function Allocate(t: Tables, ns: string): Tables {
    if ns in t.prefmap then t
    else
      var n := FreeFrom(t.nsmap, t.counter);
      Tables(t.nsmap[Pref(n) := ns], t.prefmap[ns := Pref(n)], n + 1)
  }

  /** A prefix leads back to its namespace, and may be written in front of a colon. */
  ghost predicate Coherent(t: Tables) {
    forall ns | ns in t.prefmap ::
      t.prefmap[ns] in t.nsmap && t.nsmap[t.prefmap[ns]] == ns && ':' !in t.prefmap[ns]
  }

  /** The tables after a sequence of requests. */
  ghost function Run(t: Tables, requests: seq<string>): Tables {
    if requests == [] then t
    else Allocate(Run(t, requests[..|requests| - 1]), requests[|requests| - 1])
  }

  ghost predicate Distinct(pairs: seq<(string, string)>) {
    forall i, j | 0 <= i < j < |pairs| :: pairs[i].0 != pairs[j].0
  }

  /** Tables made from one list of pairs are inverse to each other when no prefix is given twice. */
  lemma {:induction false} TablesCoherent(pairs: seq<(string, string)>)
    requires Distinct(pairs)
    ensures forall ns | ns in ByNamespace(pairs) ::
      ByNamespace(pairs)[ns] in ByPrefix(pairs) && ByPrefix(pairs)[ByNamespace(pairs)[ns]] == ns
    ensures forall p :: p in ByPrefix(pairs) <==> exists i :: 0 <= i < |pairs| && pairs[i].0 == p
    ensures forall ns | ns in ByNamespace(pairs) :: exists i :: 0 <= i < |pairs| && pairs[i].0 == ByNamespace(pairs)[ns]
  {
    if pairs != [] {
      var front, last := pairs[..|pairs| - 1], pairs[|pairs| - 1];
      TablesCoherent(front);
      assert forall i | 0 <= i < |front| :: front[i] == pairs[i];
      assert last.0 !in ByPrefix(front);
    }
  }

  lemma PrefixesDistinct()
    ensures |BasePrefixes()| == 14
    ensures forall i, j | 0 <= i < j < 14 :: BasePrefixes()[i] != BasePrefixes()[j]
    ensures forall i | 0 <= i < 14 :: BasePrefixes()[i] != "tns" && ':' !in BasePrefixes()[i]
  {
  }

  lemma BaseDistinct()
    ensures Distinct(Base())
    ensures forall i | 0 <= i < |Base()| :: Base()[i].0 != "tns" && ':' !in Base()[i].0
  {
    hide BaseNamespaces, BasePrefixes;
    PrefixesDistinct();
    assert forall i | 0 <= i < 14 :: Base()[i].0 == BasePrefixes()[i];
  }

  lemma BaseCoherent()
    ensures "tns" !in NSMAP()
    ensures forall ns | ns in PREFMAP() ::
      PREFMAP()[ns] in NSMAP() && NSMAP()[PREFMAP()[ns]] == ns && ':' !in PREFMAP()[ns]
  {
    hide Base, ByPrefix, ByNamespace;
    BaseDistinct();
    TablesCoherent(Base());
  }

  lemma ResetCoherent(tns: string, counter: nat)
    ensures Coherent(Reset(tns, counter))
  {
    hide NSMAP, PREFMAP;
    BaseCoherent();
  }

  lemma {:induction false} ShowNoColon(n: nat)
    ensures ':' !in Pref(n)
  {
    var s := Decimal.Show(n);
    assert forall i | 0 <= i < |s| :: Decimal.IsDigit(s[i]);
    assert forall i | 0 <= i < |Pref(n)| :: Pref(n)[i] != ':';
  }

  ghost predicate Keeps(before: map<string, string>, after: map<string, string>) {
    forall ns | ns in before :: ns in after && after[ns] == before[ns]
  }

  lemma AllocateCoherent(t: Tables, ns: string)
    requires Coherent(t)
    ensures Coherent(Allocate(t, ns)) && ns in Allocate(t, ns).prefmap
    ensures Keeps(t.prefmap, Allocate(t, ns).prefmap)
  {
    if ns !in t.prefmap {
      ShowNoColon(FreeFrom(t.nsmap, t.counter));
    }
  }

  /** A new namespace gets `s` and the first number from the counter on that is free; nothing else changes. */
  lemma AllocateSpelled(t: Tables, ns: string)
    requires ns !in t.prefmap
    ensures
      var u := Allocate(t, ns);
      u.counter > t.counter
      && var n := u.counter - 1;
         var p := "s" + Decimal.Show(n);
         && p !in t.nsmap && (forall m | t.counter <= m < n :: "s" + Decimal.Show(m) in t.nsmap)
         && u.nsmap == t.nsmap[p := ns] && u.prefmap == t.prefmap[ns := p]
  {
    var n := FreeFrom(t.nsmap, t.counter);
    forall m | t.counter <= m < n ensures "s" + Decimal.Show(m) in t.nsmap { assert Pref(m) in t.nsmap; }
  }

  lemma {:induction false} RunCoherent(t: Tables, requests: seq<string>)
    requires Coherent(t)
    ensures Coherent(Run(t, requests)) && Keeps(t.prefmap, Run(t, requests).prefmap)
    ensures forall i | 0 <= i < |requests| :: requests[i] in Run(t, requests).prefmap
  {
    if requests != [] {
      var last := |requests| - 1;
      RunCoherent(t, requests[..last]);
      AllocateCoherent(Run(t, requests[..last]), requests[last]);
      assert forall i | 0 <= i < last :: requests[..last][i] == requests[i];
    }
  }

  lemma {:induction false} RunKeeps(t: Tables, requests: seq<string>, n: nat)
    requires Coherent(t) && n <= |requests|
    ensures Keeps(Run(t, requests[..n]).prefmap, Run(t, requests).prefmap)
  {
    if n == |requests| {
      assert requests[..n] == requests;
    } else {
      var last := |requests| - 1;
      assert requests[..last][..n] == requests[..n];
      RunKeeps(t, requests[..last], n);
      RunCoherent(t, requests[..last]);
      AllocateCoherent(Run(t, requests[..last]), requests[last]);
    }
  }

  /** Over every run from `reset_interface`: each requested namespace has a prefix, different namespaces
      have different prefixes, a prefix leads back to its namespace, and later requests change none. */
  lemma RunsFromReset(tns: string, counter: nat, requests: seq<string>, n: nat)
    requires n <= |requests|
    ensures
      var early, late := Run(Reset(tns, counter), requests[..n]), Run(Reset(tns, counter), requests);
      && Coherent(late)
      && Keeps(early.prefmap, late.prefmap)
      && (forall i | 0 <= i < |requests| :: requests[i] in late.prefmap)
      && (forall a, b | a in late.prefmap && b in late.prefmap && a != b :: late.prefmap[a] != late.prefmap[b])
  {
    hide Reset, Run;
    ResetCoherent(tns, counter);
    RunCoherent(Reset(tns, counter), requests);
    RunKeeps(Reset(tns, counter), requests, n);
  }
}
