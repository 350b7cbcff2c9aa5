/** Why `xsi:type` leads back to its class: the tables of the interface, as the XML protocol reads them. */
module XmlRegistry {
  import opened Wrappers
  import S = XmlSchema
  import RT = XmlRoundTrip
  import R = Registry
  import P = Prefixes

  /** The protocol's view of an interface: same class names, same class map, same prefix tables. */
  ghost predicate Serves(env: S.Env, g: R.Graph, t: R.Tables, pt: P.Tables) {
    && env.nsmap == pt.nsmap && env.prefmap == pt.prefmap
    && (forall id | id in env.table ::
          && S.Known(env, S.Class(id))
          && id in g.classes
          && g.classes[id].ns == env.table[id].ns
          && g.classes[id].typeName == Some(env.table[id].typeName))
    && (forall k | k in t.classes && k.Qualified? && k.typeName.Some? && t.classes[k] in env.table ::
          var q := S.QName(Some(k.ns), k.typeName.value);
          q in env.classes && env.classes[q] == S.Class(t.classes[k]))
  }

  /** A class that `add_class` entered, in a namespace that was given a prefix in any run of the
      allocator, can be named in `xsi:type` and is found again. */
  lemma NamedAndFound(env: S.Env, g: R.Graph, t: R.Tables, counter: nat, requests: seq<string>, i: nat, id: S.ClassId)
    requires Serves(env, g, t, P.Run(P.Reset(g.tns, counter), requests))
    requires id in env.table && i < |requests| && requests[i] == env.table[id].ns
    requires R.KeyOf(g, id) in t.classes && t.classes[R.KeyOf(g, id)] == id
    requires !env.table[id].attrs.exc && env.table[id].attrs.subName == None && env.table[id].attrs.subNs == None
    ensures RT.Registered(env, id)
  {
    hide P.Reset, P.Run;
    P.RunsFromReset(g.tns, counter, requests, 0);
    assert requests[i] in env.prefmap;
  }
}
