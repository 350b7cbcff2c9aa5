# A verified model of Spyne's core

Spyne exposes Python functions as remote procedures. This project models the parts of it that carry state
and branching, and proves what they are for:

- **XML serialisation** (`Xml*.dfy`). Classes with inheritance, customised variants, wrapped arrays, unwrapped
  lists, XML attributes, aliases, defaults and `xsi:type` are printed to element trees and read back. `XmlPrint`
  and `XmlParse` say what the printer and the parser do as functions; `XmlDocument` holds the protocol itself,
  methods that append children, set attributes and loop over elements in place, each proved equal to its
  function. `XmlRoundTrip` and `XmlTheorems` prove the round trip and say exactly which values survive it;
  `XmlMembers` says which children a member adds and what a child changes when it is read, and `XmlSpelled` puts
  writing and reading in terms of tags, attributes and texts alone;
  `XmlSoft` is about soft validation, `XmlStream` about pushed lists, `XmlRegistry` about `xsi:type` and the
  interface. The text codec of primitives is a parameter; a primitive counts as well-typed when its own text
  decodes to it.
- **The interface registry** (`Registry`, `Prefixes`, `Interface`). One object with the tables that `add_class`,
  `get_namespace_prefix` and `process_method` fill, over a finite graph of classes that may be cyclic.
- **The class model** (`FieldTables`, `ClassTable`, `Customization`, `ClassModel`, `Flatten`). Customisation with
  variants, delayed and white-listed child attributes, field insertion, memoised flat type info, and the
  worklist that flattens recursive types.
- **Codecs** (`Decimal`, `Duration`, `Strftime`, `Cookie`, `MsgPack`, `RequestBody`). ISO durations (section 3.2.6 of
  XML Schema Part 2), formatting of years up to 1900, cookie headers (quoted strings of section 4.1 of RFC
  2109), integers on the MessagePack wire, and the reader of request bodies.
- **The life of a request** (`RequestRun`, `RequestTrace`, `WsgiServer`). A state machine over everything that
  happens in `handle_rpc`, with arbitrary outcomes for protocols, event handlers and user code; the dispatcher is
  proved to follow it, and its promises are proved of all runs of the machine.

Conditions that a schema needs for the round trip are collected in `XmlRoundTrip.SchemaOk`: the name under which
a field is written leads back to that field, attribute names of a child element are no field names of its parent,
a list of a class starts out empty (`_safe_set` appends to a default), the classes that polymorphism may pick are
registered under the prefix of their namespace, and fields of a class are distinct. Every one of them is a
condition on the classes, not on the values. `XmlRegistry.NamedAndFound` derives the one on prefixes from the
registry.

## Model

| member | source | states |
|---|---|---|
| XmlTheorems.RoundTrip | spyne/protocol/xml.py:453-522 | Writing a well-typed value adds one element to the parent, and reading that element gives the value in canonical form: defaults for `None`, empty unwrapped lists and excluded fields dropped |
| XmlTheorems.LosslessExactly | spyne/protocol/xml.py:453-522 | The value itself comes back if and only if nothing in it is defaulted, dropped, sliced off or empty text that reads as `None` |
| XmlTheorems.ClassSurvives | spyne/protocol/_base.py:250-282 | The class of an object survives exactly when it is the declared one, or the protocol is polymorphic, the class derives from the declared one and no `polymap` entry replaces it |
| XmlTheorems.CanonIsKept | spyne/protocol/xml.py:774-866 | The canonical form equals the value exactly when every member at every depth is kept |
| XmlRoundTrip.ReadBack | spyne/protocol/xml.py:453-498 | Induction over values, lists, levels of inheritance and members: reading what is written gives the canonical form |
| XmlRoundTrip.Adds | spyne/protocol/xml.py:500-522 | What is written does not depend on the parent element, and leaves its earlier content alone |
| XmlRoundTrip.LevelBack | spyne/protocol/xml.py:774-866 | The children and attributes that a class and its ancestors write are absorbed as the instance's fields, ancestors first |
| XmlMembers.SubstitutedExactly | spyne/protocol/_base.py:250-282 | `xsi:type` is written exactly when the protocol is polymorphic and the value is of a proper subclass of the declared class; the class written is then registered, and reading the attribute gives that class |
| XmlMembers.MemberNamed | spyne/protocol/xml.py:792-863 | The children that a member adds all have one name, and there are as many as values that are written |
| XmlMembers.MemberGrows | spyne/protocol/xml.py:792-863 | A member never removes a child, and adds none exactly when it is an attribute or excluded, or has nothing to show: an empty list, a `None` that need not occur, values whose class after substitution is excluded |
| XmlMembers.ChildTouches | spyne/protocol/xml.py:978-1027 | A child is counted under its local name, changes no field but the one that its tag leads to and those that its attributes are taken for, and nothing when it is unknown |
| XmlSpelled.LevelSpelled | spyne/protocol/xml.py:774-866 | The names of all children of an object, in order: ancestors first; each is `sub_name`, or else the name of the field, in `sub_ns`, or else the namespace of the class that declares it |
| XmlSpelled.MemberSpelled | spyne/protocol/xml.py:792-863 | The same for one member, with the number of its children: none for attributes and excluded fields, one for each item where more than one may occur, one for a required `None` |
| XmlSpelled.ArraySpelled | spyne/protocol/xml.py:774-866 | The items of an array are named after its member, in the namespace of the array |
| XmlSpelled.ObjectSpelled | spyne/protocol/xml.py:868-888 | The element of an object has the `sub_name` and `sub_ns` of the class that is written, or the name it is given, and the children of that class |
| XmlSpelled.NullSpelled | spyne/protocol/xml.py:513-522 | A `None` with a declared default is written as that default; without one it is an element with `xsi:nil="true"`, and for an attribute nothing |
| XmlSpelled.PrimSpelled | spyne/protocol/xml.py:673-724 | A primitive is the text of a new element, or replaces the attribute of its name, in the namespace of the attribute or else `sub_ns`, and leaves all others |
| XmlSpelled.NilRead | spyne/protocol/xml.py:456-464 | A non-empty `xsi:nil` is read as the declared default under `replace_null_with_default`, and as `None` in every other case; soft validation refuses it unless nillable |
| XmlSpelled.LeafRead | spyne/protocol/xml.py:1119-1152 | An empty text is `None` unless the type is a string that keeps it; any other is decoded or an error; soft validation adds exactly its two checks |
| XmlSpelled.TypeRead | spyne/protocol/xml.py:468-494 | With `xsi:type` the element is read as the class of that name in the namespace of the prefix, whatever was declared; unknown prefixes and classes are refused |
| XmlSpelled.EmptyRead | spyne/protocol/xml.py:957-970 | An empty element is a fresh instance of the original class: every field has its declared default or `None` |
| XmlSpelled.FieldFound | spyne/protocol/xml.py:983-994 | A child is for the field of its local name in any namespace, then for an alias by local name, then for one by full name |
| XmlSpelled.AttributeFound | spyne/protocol/xml.py:1029-1034 | An attribute without a namespace is for the field of its name, any other for an alias by full name |
| XmlSpelled.KidRead | spyne/protocol/xml.py:996-1005 | The value of a child replaces a plain member and is added to the end of a repeated one; read-only members stay; errors pass on; the local name is counted |
| XmlSpelled.ChildAttributeRead | spyne/protocol/xml.py:1007-1027 | The same for the attributes of a child, with respect to the fields of the parent |
| XmlSpelled.AttributeRead | spyne/protocol/xml.py:1029-1046 | An attribute of the element itself sets an attribute field and nothing else |
| XmlSpelled.FlatNearest | spyne/model/complex.py:60-69 | The nearest class that declares a name has the say, and in a class the last declaration |
| XmlRoundTrip.ColonSplits | spyne/protocol/xml.py:468-476 | The prefix written before the colon of `xsi:type` is the prefix that is read |
| XmlDocument.Protocol.ToParent | spyne/protocol/xml.py:500-522 | The parent element after the call is the printer's function of the parent before it |
| XmlDocument.Protocol.ItemsToParent | spyne/protocol/xml.py:833-847 | The loop over a list appends one element for each item, in order |
| XmlDocument.Protocol.GetMembersEtree | spyne/protocol/xml.py:774-866 | Members of ancestors first, then the own ones in order |
| XmlDocument.Protocol.FromElement | spyne/protocol/xml.py:453-498 | Parsing of an element: nil, class substitution by `xsi:type`, then by kind of type, with the same errors |
| XmlDocument.Protocol.ComplexFromElement | spyne/protocol/xml.py:957-1056 | The loops over children and attributes compute the instance, or the first error |
| XmlDocument.Protocol.ArrayFromElement | spyne/protocol/xml.py:1058-1065 | The items of an array, in order, or the first error |
| XmlDocument.Protocol.ReadAttributes | spyne/protocol/xml.py:1029-1046 | The attributes of the element become attribute fields, or the first error |
| XmlDocument.Protocol.OfferAttributes | spyne/protocol/xml.py:1007-1027 | Attributes of a child are offered to the attribute fields of the parent class |
| XmlDocument.Protocol.CheckFrequencies | spyne/protocol/xml.py:1048-1054 | Under soft validation the counts of all fields are within their bounds, or it is refused |
| XmlSoft.SoftValidationExact | spyne/protocol/xml.py:963-1056 | If no single member is refused, an object is accepted exactly when every field's name occurs as a local tag as often as its bounds say |
| XmlSoft.SoftOnlyRefuses | spyne/protocol/xml.py:963-1056 | Whatever soft validation accepts is what would be read without it |
| XmlSoft.SoftAcceptsExactly | spyne/protocol/xml.py:453-498 | Of the elements that can be read at all, soft validation accepts exactly those that pass, a condition on the element alone |
| XmlSoft.SoftRoundTrip | spyne/protocol/xml.py:453-522 | Under soft validation a written value comes back in canonical form exactly when the element passes: nulls nillable, texts valid, types known, counts within bounds at every depth; otherwise it is refused |
| XmlSoft.RequiredAliasRefused | spyne/protocol/xml.py:1048-1056 | A required field that is written as an attribute or under an alias is never accepted, since elements with the field's own name are counted |
| XmlStream.WrappedIsPulled | spyne/protocol/xml.py:774-866 | Pushing the items of a wrapped array writes the same element as having the whole list, wherever the field stands |
| XmlStream.UnwrappedIsPulled | spyne/protocol/xml.py:813-866 | Pushing an unwrapped list, own or inherited, writes the same children exactly when no later field of the class that declares it has a child element to write; derived classes make no difference |
| XmlStream.Members.Send | spyne/protocol/xml.py:815-830 | The suspended serialiser writes one more item of the pushed field |
| XmlStream.Members.Throw | spyne/protocol/xml.py:849-866 | `Break` completes the element to the streamed form |
| XmlStream.Pusher.Append | spyne/model/_base.py:961-963 | An item is sent and counted, or refused when the serialiser has ended |
| XmlStream.Pusher.Extend | spyne/model/_base.py:965-968 | All items are sent in order and counted |
| XmlStream.Pusher.Close | spyne/model/_base.py:970-975 | The element is the streamed form of all items sent, `len` is their number, and the finish callback is called once more |
| XmlRegistry.NamedAndFound | spyne/interface/_base.py:402-426 | In every run of the prefix allocator, a class that was entered under its own key can be named in `xsi:type` and is found again |
| Interface.Interface.constructor | spyne/interface/_base.py:65-85 | A new registry satisfies the invariant and knows only the fixed prefixes and `tns` |
| Interface.Interface.ResetInterface | spyne/interface/_base.py:113-124 | Back to empty tables and the initial prefixes, the counter of prefixes kept |
| Interface.Interface.GetNamespacePrefix | spyne/interface/_base.py:402-426 | The search loop ends and allocates the first free generated prefix; a known namespace keeps its own |
| Interface.Interface.HasClass | spyne/interface/_base.py:126-152 | Whether the name is taken; an error exactly for two complex classes of different origin other than array and iterable |
| Interface.Interface.AddClass | spyne/interface/_base.py:428-542 | Asked for a class, the registry terminates on cyclic graphs; on normal return the class is registered, and all that it added have nearest named parent, field types, modifier types, subclasses in the same namespace, and the messages, headers and faults of their member methods registered and imported; a class that came in as a subclass depends on the class that lists it instead of its parent; tables only grow, on errors too, and every entry has its reason in the history |
| Interface.Interface.Enter | spyne/interface/_base.py:428-542 | The recursion: a class is entered for the reason given, with its parent or as a subclass, and nothing but what it mentions comes with it |
| Interface.Interface.AddParent | spyne/interface/_base.py:455-471 | The nearest named parent is registered, a dependency, and its namespace imported |
| Interface.Interface.NearestNamed | spyne/interface/_base.py:455-459 | The first ancestor that has a name: it is one, and all before it have none; there is no parent exactly when no ancestor has a name |
| Interface.Interface.AddField | spyne/interface/_base.py:479-505 | A field type, and the type inside a modifier, are registered, depended on and imported |
| Interface.Interface.AddMemberMethods | spyne/interface/_base.py:507-524 | The member methods of a class are entered, and what each of them names is registered and imported |
| Interface.Interface.AddMethod | spyne/interface/_base.py:190-256 | Messages, headers and faults of a method are registered, and the namespaces of messages and headers imported into the target namespace, except for auxiliary methods |
| Interface.Interface.AddSubclasses | spyne/interface/_base.py:526-542 | On normal return every subclass in the same namespace is registered, and all that this added is closed |
| Interface.Interface.AddSubclass | spyne/interface/_base.py:530-537 | A subclass that comes in here has its parent registered, imported and a dependency exactly when the class at hand has the name of that parent, or a field type of the subclass has it |
| Interface.Interface.PopulateInterface | spyne/interface/_base.py:324-390 | After a normal return the messages, headers and faults of all service methods and the additional types are registered, these are all that was asked for, everything added is closed, and the dispatch lists hold the methods entered, in order |
| Interface.Interface.RouteMethods | spyne/interface/_base.py:361-390 | After a normal return the keys are exactly the earlier ones and those offered; each new key is entered once, in order of registration, and no registration was refused |
| Interface.Interface.ProcessMethod | spyne/interface/_base.py:258-316 | One method: its key is entered once, and the dispatch list of its message grows as the history of registrations says; the conflicts that are errors |
| Interface.Interface.GenerateMethodContexts | spyne/protocol/_base.py:212-248 | The contexts for a request name are the first method registered under it and then the auxiliary ones in order; the primary one is first if it is there at all; an unknown name is refused |
| Registry.ReachableRegistered | spyne/interface/_base.py:428-542 | For all graphs: every walk of taken steps, from the class that holds each name on, stays registered, with every namespace on the way imported |
| Registry.RegisteredExactly | spyne/interface/_base.py:428-542 | A name is registered exactly when a class of that name can be reached from a class that was asked for: the closure is complete and minimal |
| Registry.ParentIsNearest | spyne/interface/_base.py:455-459 | The parent of a class is its nearest ancestor with a name, and there is none exactly when no ancestor has one |
| Registry.ParentSpelled | spyne/interface/_base.py:461-471 | Of an entered class, in terms of keys and namespaces: its nearest named ancestor is in the table, a dependency, and its namespace imported where it has to be, or it came in as a subclass |
| Registry.FieldsSpelled | spyne/interface/_base.py:473-505 | The same for its field types and the types inside modifiers |
| Registry.MethodSpelled | spyne/interface/_base.py:190-256 | The same for headers, faults and messages of methods, and the target namespace |
| Registry.SubclassesSpelled | spyne/interface/_base.py:526-537 | The same for subclasses in the same namespace |
| Registry.ImportsSpelled | spyne/interface/_base.py:544-550 | A base namespace is imported only where that is allowed, and no namespace imports itself |
| Registry.NameDenotes | spyne/interface/_base.py:432-453 | A key denotes a class of that namespace and type name; plain names are those of the target namespace |
| Registry.MethodKeySpelled | spyne/interface/_base.py:261-268 | The message name of a member method has the type name of its class in front, unless it begins with it; that of a service method is its own |
| Registry.MayShareExactly | spyne/interface/_base.py:270-287 | Two methods share a key without a conflict exactly when the first belongs to a service, or their classes have the same original |
| Registry.MemberOffersSpelled | spyne/interface/_base.py:366-390 | Member methods are entered for the original of their class, in the order in which they were met |
| Registry.ParentHeldExactly | spyne/interface/_base.py:455-537 | The parent of an entered class is registered, imported and a dependency by name exactly when the class did not come in as a subclass of a class of another name, or a field type brings it |
| Registry.ParentsHeld | spyne/interface/_base.py:455-471 | No parent is left behind where every class that lists another one has the name of its parent |
| Registry.ParentLeftBehind | spyne/interface/_base.py:526-537 | Where nothing else mentions the parent or the subclass, asking for a class that lists the subclass leaves the parent out, in every complete registry |
| Registry.RenamedLeavesParent | spyne/model/complex.py:1616-1635 | Asked for a class customised with another type name, the registry gets the subclass of its original and not the original |
| Registry.ClassStep | spyne/interface/_base.py:432-453 | Entering a class keeps the tables sound and uses up a free key, which is why the closure ends |
| Registry.DispatchOrder | spyne/interface/_base.py:295-316 | The history of registrations of a name determines its dispatch list: the first method and then the auxiliary ones in order |
| Registry.RouteStep | spyne/interface/_base.py:295-316 | Entering one method, refused or not, keeps every dispatch list what the history says |
| Registry.AcceptedStep | spyne/interface/_base.py:295-316 | As long as no registration is refused, every method ever entered under a name is in its dispatch list |
| Registry.PrimaryFirst | spyne/protocol/_base.py:212-233 | The primary context is first exactly when the primary method was registered first; after an auxiliary one it is always refused |
| Prefixes.RunsFromReset | spyne/interface/_base.py:402-426 | In all runs prefixes lead back to their namespaces, differ for different namespaces, and never change |
| Prefixes.AllocateSpelled | spyne/interface/_base.py:402-426 | A new namespace gets `s` and the first free number from the counter on, and nothing else changes |
| Prefixes.TakenShrinks | spyne/interface/_base.py:413-416 | Only finitely many generated prefixes are taken, so the search ends |
| Flatten.GetSimpleTypeInfo | spyne/model/complex.py:1085-1181 | The worklist ends on cyclic types; an error exactly when a primitive field comes, in breadth-first order, after a field of the same key, and it names the path that holds the key; otherwise the table is that of all fields in this order, primitive fields have different keys, exactly the reachable complex types are expanded, each along a shortest path, and the key of each field has an entry, for a primitive field its own exactly when no other field has that key; every entry stands at the end of a trail of declared types, in which an array that occurs once stands for its items, with the flags of the trail and the joined names as its key |
| Flatten.TrailOf | spyne/model/complex.py:1115-1164 | A path leads from the root along declared fields: to the items of an array that occurs once, to the declared type otherwise; each step shows its name and its flag |
| Flatten.TrailWalks | spyne/model/complex.py:1115-1164 | And every such trail is a walk |
| Flatten.EntryExactly | spyne/model/complex.py:1136-1181 | When no conflict was found, the entry under the key of a primitive field is that field exactly when no other field has the key: a complex field that comes later overwrites it unnoticed |
| Flatten.EntryTakenAway | spyne/model/complex.py:1129-1181 | A graph in which it happens: a complex field overwrites the entry of a primitive one, without an error |
| Flatten.AllFound | spyne/model/complex.py:1129-1179 | Once the queue is empty, every complex type that some walk reaches was expanded, along a path that is not longer |
| Flatten.ExpandStep | spyne/model/complex.py:1136-1164 | Expanding a type keeps the queue ordered by depth and accounts for all of its fields |
| ClassModel.ClassModel.constructor | spyne/model/complex.py:1048-1057 | No classes, nothing memoised |
| ClassModel.ClassModel.GetFlatTypeInfo | spyne/model/complex.py:1048-1057 | Memoised or not, the result equals a fresh computation over the `__extends__` chain, and the memo stays coherent |
| ClassModel.ClassModel.ComputeFlat | spyne/model/complex.py:60-69 | The recursion over parents and the update with own fields |
| ClassModel.ClassModel.Customize | spyne/model/complex.py:1224-1273 | The new class, its customised ancestors and its registration as a variant; the memo is coherent all along and cleared at the end |
| ClassModel.ClassModel.CustomizeAll | spyne/model/complex.py:524-535 | `child_attrs_all` on own and inherited fields, and kept for later fields |
| ClassModel.ClassModel.CustomizeEach | spyne/model/complex.py:537-555 | `child_attrs` on own and inherited fields; names that are no fields wait |
| ClassModel.ClassModel.Named | spyne/model/complex.py:538-544 | The loop customises the named fields and leaves over the names that are not fields |
| ClassModel.ClassModel.AppendField | spyne/model/complex.py:1286-1313 | The class and all variants of its dictionary get the field, whatever order they are visited in, and these are all classes ever customised from it; memos are coherent |
| ClassModel.ClassModel.InsertField | spyne/model/complex.py:1316-1344 | The same at a position: all classes ever customised from it get the field, delayed customisations are applied and used up |
| ClassModel.ClassModel.ReplaceField | spyne/model/complex.py:1347-1364 | The same without customisations: all classes ever customised from it get the type as it is |
| ClassModel.FieldLeaks | spyne/model/complex.py:1305-1313 | A run in which a field appended to a derived class arrives in a variant of its base, and not in the base |
| ClassModel.UnlistedTakesPart | spyne/model/complex.py:486-555 | A run in which a class takes part in a later field that its white list does not name, as an earlier customisation still waits |
| Customization.FlatKept | spyne/model/complex.py:60-69 | Whatever leaves fields and parents of old classes alone leaves their flat type info alone |
| Customization.CustomizeFlat | spyne/model/complex.py:481-555 | Over the whole flat type info, each field goes through the customisation for all and then through its own |
| Customization.CustomizedRec | spyne/model/complex.py:481-555 | The own fields of the new class and exactly the customisations that wait for fields to come |
| Customization.WhitelistExact | spyne/model/complex.py:486-555 | After `child_attrs_noexc`, exactly the listed fields of the flat type info take part |
| Customization.WhitelistLater | spyne/model/complex.py:1286-1299 | For every class, customised before or not, and a field appended afterwards to its original or an ancestor: behind a field of its name it is decided by the list; otherwise the list decides names that the arguments mention and that are new, and what waited before, in the nearest class reached, decides all others |
| Customization.WhitelistAppended | spyne/model/complex.py:1286-1299 | Appended to the original itself, where nothing hides it: the list decides names that are mentioned and new, what waited in the class before decides all others; a listed field that is there and is appended again is excluded |
| Customization.WhitelistOfOriginal | spyne/model/complex.py:1286-1299 | For a class of the program, where nothing waits: takes part exactly when listed and new to the flat type info, or listed and hidden behind a field of that name |
| Customization.CustomizeChain | spyne/model/complex.py:524-555 | In the new class and every customised ancestor, what is said about a field that is not there waits instead of what waited before; nothing else changes |
| Customization.AppendFlat | spyne/model/complex.py:1286-1313 | A field appended to a class shows in the flat type info of every class below, as the nearest class that is reached customises it, unless an own field hides it |
| Customization.DelayedCommutes | spyne/model/complex.py:1276-1313 | Appending a field after customising gives the variant the same type as appending it before, exactly when the field is new to the flat type info or its own customisation changes nothing |
| Customization.AppendReachesVariants | spyne/model/complex.py:1305-1313 | A field appended to an original class arrives in every class customised from it, customised by what waits there; the registration it needs is part of the invariant of `ClassModel` |
| Customization.VariantsExactly | spyne/model/complex.py:1276-1284 | A class is among the variants that are passed a field exactly when it is customised and its original shares the dictionary |
| Customization.AppendReachesExactly | spyne/model/complex.py:1286-1313 | Which classes of the table an appended field changes, and how: the class, and the classes whose original shares its dictionary |
| Customization.OwnVariantsOnly | spyne/model/complex.py:1276-1313 | Appended fields reach the own variants of a class only, exactly when no other class that has variants shares its dictionary |
| Customization.AppendLeaks | spyne/model/complex.py:1276-1313 | A field appended to a derived class without a dictionary of its own arrives in the variants of its base, and not in the base |
| Customization.CustomizeOwners | spyne/model/complex.py:1276-1284 | Every class that a customisation makes, ancestors included, is registered with its original; so it stays true that all variants are |
| Customization.CustomizeRegisters | spyne/model/complex.py:1276-1284 | The new class is among the variants of its original |
| Customization.VariantOfDerivedReached | spyne/model/complex.py:1276-1284 | Variants of a subclass are entered in the base's inherited dictionary and get the base's later fields as their own |
| FieldTables.GetUpdate | spyne/model/complex.py:60-69 | Fields of a class replace inherited ones of the same name and keep the others |
| FieldTables.InsertSpelled | spyne/util/odict.py:129-134 | A field is inserted at its index, from the end for a negative one, clamped if out of range; a known key leaves its old place, and the others keep their order |
| FieldTables.PutAt | spyne/util/odict.py:50-57 | A known key keeps its place when its type is replaced |
| FieldTables.PutNew | spyne/util/odict.py:50-57 | A new key goes to the end |
| Duration.DurationBack | spyne/protocol/_inbase.py:521-544 | Every whole number of seconds, negative, zero or positive, is read back from its printed form |
| Duration.PrintedDenotes | spyne/protocol/_outbase.py:412-455 | The printed text denotes the duration exactly when its microseconds are 0 or at least 100000, as leading zeros are dropped; sign and days included |
| Duration.DurationToUnicode | spyne/protocol/_outbase.py:412-455 | The text is sign, days and clock parts, with the day-only form and `PT0S` |
| Duration.ReadsTime | spyne/protocol/_inbase.py:61-70 | Printed hours, minutes and seconds are read as such, absent ones as zero |
| Duration.ReadsAll | spyne/protocol/_inbase.py:521-544 | What a notation with any of years, months, days, hours, minutes and seconds means: a year is 365 days, a month 30 |
| Duration.PrintedSpelled | spyne/protocol/_outbase.py:412-455 | The text is that notation of the absolute value, zero parts left out, the clock only where it is not zero; nothing at all is `PT0S` |
| Strftime.Strftime | spyne/protocol/_outbase.py:745-777 | For all years and all formats of year-independent and four-digit-year output, the text with the true year padded to four places; an error exactly for formats with directive `%s` |
| Strftime.CommonSitesExact | spyne/protocol/_outbase.py:762-771 | The positions that show both substitute years are the places of the year and no others, even amid digits of the format |
| Strftime.SubstituteInRange | spyne/protocol/_outbase.py:752-760 | The substitute year lies in 1973 to 2000 |
| Strftime.SubstituteCycle | spyne/protocol/_outbase.py:752-760 | Up to 1900 the substitute is whole cycles of 28 years away, but for six years for every century without a leap year |
| Strftime.PiecesOfDirective | spyne/protocol/_outbase.py:745-777 | A directive prints what the platform says, wherever it stands; text stands for itself |
| Strftime.NoCommonBorder | spyne/protocol/_outbase.py:760-771 | A substitute year and the one 28 years later never overlap with themselves at the same distance |
| Strftime.FindAllDatetime | spyne/protocol/_outbase.py:729-739 | All occurrences, overlapping ones too, in order |
| Strftime.SpliceAll | spyne/protocol/_outbase.py:773-777 | Replacing all sites, one after the other, gives the rendering for the true year |
| Strftime.IllegalExactly | spyne/protocol/_outbase.py:719-748 | The pattern for `%s` finds exactly the formats that have the directive, escaped percent signs considered |
| Cookie.UnquoteCookie | spyne/protocol/http.py:66-112 | The two-pattern search loop equals a decoder that reads from left to right; unquoted text is returned as it is |
| Cookie.ParseCookie | spyne/protocol/http.py:115-138 | The map of the trimmed chunks of the header, later ones winning |
| Cookie.DecodeWritten | spyne/protocol/http.py:82-112 | Decoding undoes every escaping that writes each character plainly, with a backslash, or in octal |
| Cookie.PlainPrefix | spyne/protocol/http.py:92-109 | Text before the first escape stands for itself |
| Cookie.HeaderBack | spyne/protocol/http.py:115-138 | A header of any number of cookies, named or without `=`, bare or quoted, in any escaping and spacing, gives back the whole map |
| Cookie.AnyTextBack | spyne/protocol/http.py:66-138 | Every text whatsoever can be sent in a cookie and comes back |
| Cookie.UsualHeader | spyne/protocol/http.py:115-138 | `a=b; c=d` is the map of `a` to `b` and `c` to `d`, for all names and values of visible characters |
| Cookie.OctalSpelled | spyne/protocol/http.py:66-112 | A backslash and three octal digits stand for the character of that number |
| MsgPack.IntegerBack | spyne/protocol/msgpack.py:184-195 | An integer comes back exactly when it is in the native range or its text is within the limit |
| MsgPack.NativeExactly | spyne/protocol/msgpack.py:184-195 | Native are exactly the signed and unsigned integers of 64 bits; any other goes as its digits with a sign |
| RequestBody.InputToChunks | spyne/server/wsgi.py:537-562 | The chunks are the beginning of the stream up to the declared length; refused before reading exactly when the length is over the maximum |
| WsgiServer.Request.HandleRpc | spyne/server/wsgi.py:411-515 | Every request follows the state machine to its end; on return there was one answer, one close, and no user code after a fault while reading |
| WsgiServer.Request.HandleError | spyne/server/wsgi.py:378-409 | The error reply, its answer, auxiliary methods, and only then the close |
| WsgiServer.Request.GenerateContexts | spyne/server/_base.py:63-89 | Faults while the envelope is read become `in_error` and fire one event; other exceptions escape |
| WsgiServer.Request.GetInObject | spyne/server/_base.py:91-108 | The same for deserialisation |
| WsgiServer.Request.ProcessRequest | spyne/application.py:153-226 | Events around the call of user code; redirections, faults and other exceptions each take their own way, as the machine says whose runs are spelled out in `RequestTrace.ReplyTrace` |
| WsgiServer.Request.GetOutString | spyne/server/_base.py:146-181 | Text or a document that is there already is used; the events of a reply or of an error, in order |
| WsgiServer.Request.ProcessContexts | spyne/auxproc/_base.py:32-38 | Auxiliary methods in order, those that may after an error, up to the first exception |
| WsgiServer.Request.Finalize | spyne/server/wsgi.py:517-521 | The context is closed, then the close of the transport announced |
| RequestRun.InvAlways | spyne/server/wsgi.py:378-521 | The invariant of all runs: answers, faults, status and auxiliary methods, in every state |
| RequestRun.AnsweredOnce | spyne/server/wsgi.py:411-515 | A run that returns has answered once, closed once, and announced either a reply or an error, the latter exactly when something failed |
| RequestRun.NeverTwice | spyne/server/wsgi.py:378-521 | At no point of any run, failed ones included, is there a second answer or a close before the answer |
| RequestRun.NoUseAfterInError | spyne/server/wsgi.py:425-437 | User code is never called for a request that could not be read |
| RequestTrace.UsedExactly | spyne/application.py:163-187 | In a run that returns, user code was called exactly once if `method_call` ended well, and not at all otherwise; `method_call` is fired exactly when the request was read |
| RequestTrace.ReplyTrace | spyne/server/wsgi.py:411-515 | Everything that happens in a run that replies, phase by phase: what is read, user code between its two events or a redirection that was followed, the document and text where they were not there already, the answer, the close |
| RequestTrace.ErrorTrace | spyne/server/wsgi.py:378-409 | Everything that happens once an error takes over, and what came before it: a fault in reading or processing, a failed redirection, or a reply that could not be written |
| RequestTrace.PhasesInOrder | spyne/server/wsgi.py:378-521 | In every run the phases follow each other: reading, calling, turning to the reply, writing, packing, answering, closing |
| RequestRun.BlamedExactly | spyne/application.py:202-226 | `method_exception_object` is fired at most once, and exactly when a fault arose before serialisation outside of a redirection |
| RequestRun.StatusExact | spyne/server/wsgi.py:387-401 | Unless a handler chooses it, the status is that of the first fault before serialisation, and 200 otherwise |
| RequestRun.WriteFailureSays200 | spyne/server/wsgi.py:453-463 | The error for a reply that cannot be serialised is sent with status 200 |
| RequestRun.WriteFailureHappens | spyne/server/wsgi.py:411-515 | Such a run exists under every configuration |
| RequestRun.AuxiliariesInOrder | spyne/auxproc/_base.py:32-38 | Auxiliary methods run before the close after an error, and only those that process exceptions; otherwise after it |
| RequestRun.AuxiliariesExactly | spyne/auxproc/_base.py:32-38 | In a run that returns, the auxiliary methods that ran are exactly the eligible ones, each once and in order, up to the first that failed |

## Where the code and its documentation differ

The model follows the code; each point is a lemma or a branch of the model.

- `process_method` calls `val.insert(method, 0)` with the arguments swapped (spyne/interface/_base.py:306), which
  raises: a primary method after an auxiliary one is `BadInsert`. The documentation of `generate_method_contexts`,
  that the primary context is always first, therefore holds exactly when the primary method was registered first
  (`Registry.PrimaryFirst`).
- Soft validation counts local tag names, not fields (spyne/protocol/xml.py:983, 1048-1054): a required field with
  an alias or an attribute field is never accepted (`XmlSoft.RequiredAliasRefused`).
- Any text in `xsi:nil` counts as nil, `false` too (spyne/protocol/xml.py:456).
- `add_class` adds a listed subclass without its parent, taking the class at hand for it (spyne/interface/_base.py:
  534-537). A class customised with another type name lists the subclasses of its original, so the original can be
  missing (`Registry.RenamedLeavesParent`; `Registry.ParentHeldExactly` and `Interface.Interface.AddSubclass` say
  exactly when).
- The dictionary of variants is inherited by Python subclasses, so appended fields can reach variants of a derived
  class (`Customization.VariantOfDerivedReached`) and of the base (`Customization.AppendLeaks`);
  `Customization.OwnVariantsOnly` says exactly when they do not.
- A white list on a class that was customised before does not exclude later fields that still wait to be included
  (`ClassModel.UnlistedTakesPart`; the exact condition is `Customization.WhitelistLater`).
- `Break` ends the loop over the members only for an unwrapped list (`XmlStream.UnwrappedIsPulled`); a wrapped
  array continues with the fields after it (`XmlStream.WrappedIsPulled`).
- A field that `child_attrs_noexc` lists stays excluded when it was there before and is appended again
  (`Customization.WhitelistAppended`).
- In the flattened table a complex field takes over the key of an earlier primitive field without an error; only the
  other order is one (`Flatten.EntryExactly`, `Flatten.EntryTakenAway`).
- After the first step, the flags in `is_array` are those of the type whose fields are visited, not of the field
  (spyne/model/complex.py:1141-1164).
- The status of an error reply is the one set before serialisation, 200 (`RequestRun.WriteFailureSays200`,
  `RequestRun.WriteFailureHappens`).
- `duration_to_unicode` prints microseconds without leading zeros (`Duration.PrintedDenotes`).
- The match in `duration_from_unicode` is one of a prefix, and a text that does not match fails on `None` before
  the validation error is raised (`NoMatch` in `Duration.Parse`).
- The second length check of `__wsgi_input_to_iterable`, inside its loop, can never refuse
  (`RequestBody.InputToChunks`).

## Left out

- Parsing and printing of XML text, comments, processing instructions and the default namespace of `nsmap`: library
  calls. Elements are trees; the interface's `nsmap` is taken to be in scope.
- Handlers for `XmlData`, `AnyXml`, `AnyDict`, `Enum`, `Fault`, `File` and `ByteArray`, sub-protocols and `prot_attrs`:
  each is a case of its own beside the ones modelled.
- Defaults of class and array members, and `default_factory`: the model gives defaults to primitives only.
- `get_serialization_instance` for lists and dictionaries in place of instances: values are instances.
- Aliasing of elements: a child is attached when it is complete, where the code attaches it first.
- List members of a class that start with a value (`XmlRoundTrip.FieldOk`): `_safe_set` then appends to a list that
  all instances share.
- XmlStream.UnwrappedIsPulled: speaks of child elements; a later attribute field is dropped with the others.
- Items that are themselves pushed, and pushing from several threads: one suspended serialiser at a time.
- Namespaces and type names that are filled in during registration, `check_method` and `static_when`: names are fixed,
  and a method is enabled or not.
- Interface.Interface.AddClass: how far the closure got on an error return is left open, beyond the tables growing,
  staying sound and holding nothing that cannot be reached.
- Registry.ReachableRegistered: of classes that share a name only the one that was entered first is followed.
- Classes that derive from a customised class: the source refuses them when that class has fields
  (spyne/model/complex.py:316-319); otherwise such a class shares the delayed customisations of its base by reference.
- Garbage collection of variants (weak references), and changes that `child_attrs_noexc` makes in the caller's
  dictionary: classes live for ever, arguments are values.
- The field types of a class are values, so a customised field type is not entered as a variant of its own class.
- The memo of `get_simple_type_info_with_prot`: it is cleared together with the one modelled.
- Flatten.GetSimpleTypeInfo: the order of the entries.
- `strftime` directives that print the year in other ways (`%y`, `%C`, `%G`): they show the substitute year. Whether the
  substitute year has the same calendar does not matter, as weekday and day of the year are passed along.
- Fractions of a second when parsing, which go through floating point, and the range limits of `timedelta`.
- Duration.Parse reads ASCII digits.
- WsgiServer.Request.GetOutString: the branch that suspends for a pushed reply; the model replies in one go.
- WsgiServer.Request.HandleRpc: handlers that set `in_error`, `out_error` or the descriptor, pushed replies, WSDL
  requests, and exceptions that are no `Exception`. A reply body is consumed by the server after the context was
  closed; what it raises then is not part of the run.
- `sort_fields`, `match_pattern`, `File.to_base64`, other protocols (SOAP, HTML, dictionaries, the rest of MessagePack),
  clients and other transports: easier, or input and output.
