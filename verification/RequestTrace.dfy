/** What happens in a run, phase by phase: the exact sequences of events of every run that returns. */
module RequestTrace {
  import opened Wrappers
  import opened RequestRun

  /** The events of a log by phase.  `taken` tells that an error has taken over, `rewrites` are the events of
      writing after that.  `now` is whether the reply's document and text were left set, `first` when the
      reply was begun, and `second` when the error took over. */
  datatype Parts = Parts(
    ins: seq<ReadEvent>,
    calls: seq<CallEvent>,
    passed: bool,
    turns: seq<TurnEvent>,
    generator: bool,
    writes: seq<WriteEvent>,
    rewrites: seq<WriteEvent>,
    packs: seq<PackEvent>,
    starts: nat,
    ends: seq<EndEvent>,
    taken: bool,
    now: (bool, bool),
    first: (bool, bool),
    second: (bool, bool))

  const NoParts: Parts :=
    Parts([], [], false, [], false, [], [], [], 0, [], false, (false, false), (false, false), (false, false))

  predicate TakesOver(taken: bool, e: Event, o: Outcome) {
    || (e.Turn? && (e.t.MethodExceptionObject? || e.t.MethodRedirectException?) && o.kind.Done?)
    || (e.Write? && !taken && !o.kind.Done?)
  }

  /** One more event; auxiliary methods are left aside. */
  function Add(p: Parts, e: Event, o: Outcome): Parts {
    var now := if o.leaves.Some? then o.leaves.value else p.now;
    var over := !p.taken && TakesOver(p.taken, e, o);
    var q := p.(now := now, taken := p.taken || over, second := if over then now else p.second);
    match e
    case Read(r) => q.(ins := p.ins + [r])
    case Call(x) => q.(calls := p.calls + [x], passed := p.passed || (x.MethodCall? && o.kind.Done?))
    case Turn(t) =>
      q.(turns := p.turns + [t], first := now, generator := if t.FirstObject? then o.generator else p.generator)
    case Write(w) => if p.taken then q.(rewrites := p.rewrites + [w]) else q.(writes := p.writes + [w])
    case Pack(x) => q.(packs := p.packs + [x])
    case StartResponse(_) => q.(starts := p.starts + 1)
    case End(x) => if x.InitAux? || x.RunAux? then q else q.(ends := p.ends + [x])
    case _ => q
  }

  function PartsOf(log: Log): Parts {
    if log == [] then NoParts else Add(PartsOf(log[..|log| - 1]), log[|log| - 1].0, log[|log| - 1].1)
  }

  // ---------- The sequences ----------

  const AllReads: seq<ReadEvent> :=
    [WsgiCall, ReadRequest, CreateInDocument, Decompose, GenerateMethodContexts, Deserialize]

  const AllCalls: seq<CallEvent> := [MethodCall, UserCode, MethodReturnObject]

  function ReadRank(e: ReadEvent): nat {
    match e
    case WsgiCall => 0
    case ReadRequest => 1
    case CreateInDocument => 2
    case Decompose => 3
    case GenerateMethodContexts => 4
    case Deserialize => 5
  }

  /** The calls were begun: `method_call`, then user code if that ended well, then `method_return_object`. */
  predicate Begun(p: Parts, n: nat) {
    1 <= n <= 3 && p.calls == AllCalls[..n] && p.passed == (n > 1)
  }

  /** A redirection was asked for, and followed so far. */
  predicate Redirecting(p: Parts, more: seq<CallEvent>) {
    exists n | 1 <= n <= 3 :: p.calls == AllCalls[..n] + more && p.passed == (n > 1)
  }

  /** User code was called between its two events, or there was a redirection. */
  predicate Called(p: Parts) {
    Begun(p, 3) || Redirecting(p, [DoRedirect, MethodRedirect])
  }

  function TurnPart(generator: bool): seq<TurnEvent> {
    if generator then [FirstObject, FirstYield] else [FirstObject]
  }

  /** What is there already is not made again. */
  function WritePart(there: (bool, bool)): seq<WriteEvent> {
    if there.1 then []
    else if there.0 then [MethodReturnDocument, CreateOutString, MethodReturnString]
    else [Serialize, MethodReturnDocument, CreateOutString, MethodReturnString]
  }

  function ErrorPart(there: (bool, bool)): seq<WriteEvent> {
    if there.1 then []
    else if there.0 then [MethodExceptionDocument, CreateOutString, MethodExceptionString]
    else [Serialize, MethodExceptionDocument, CreateOutString, MethodExceptionString]
  }

  function PackPart(c: Config): seq<PackEvent> {
    match (c.mtom, c.chunked)
    case (false, false) => [WsgiReturn, JoinText]
    case (false, true) => [WsgiReturn]
    case (true, false) => [ApplyMtom, WsgiReturn, JoinText]
    case (true, true) => [ApplyMtom, WsgiReturn]
  }

  // ---------- What holds on the way ----------

  /** A reply was begun. */
  predicate Replying(p: Parts) {
    p.ins == AllReads && Called(p) && p.turns == TurnPart(p.generator)
  }

  /** A fault was raised while the request was read or processed. */
  predicate Faulty(p: Parts) {
    || (p.calls == [] && !p.passed && 3 <= |p.ins| <= 6 && p.ins == AllReads[..|p.ins|])
    || (p.ins == AllReads && (Begun(p, 1) || Begun(p, 2) || Begun(p, 3)))
  }

  predicate RedirectFailed(p: Parts) {
    p.ins == AllReads && (Redirecting(p, [DoRedirect]) || Redirecting(p, [DoRedirect, MethodRedirect]))
  }

  /** How an error took over. */
  predicate Taken(p: Parts) {
    || (Faulty(p) && |p.turns| == 1 && p.turns[0].MethodExceptionObject? && p.writes == [])
    || (RedirectFailed(p) && p.turns == [MethodRedirectException] && p.writes == [])
    || (Replying(p) && p.writes != [] && p.writes <= WritePart(p.first))
  }

  predicate Fresh(p: Parts) {
    p.turns == [] && p.writes == []
  }

  predicate Unpacked(p: Parts) {
    p.packs == [] && p.starts == 0 && p.ends == []
  }

  /** Nothing or all of it is written. */
  predicate Written(p: Parts) {
    if p.taken then Taken(p) && p.rewrites == ErrorPart(p.second)
    else Replying(p) && p.writes == WritePart(p.first) && p.rewrites == []
  }

  ghost predicate TraceRead(e: ReadEvent, p: Parts) {
    !p.taken && p.ins == AllReads[..ReadRank(e)] && p.calls == [] && !p.passed && Fresh(p)
  }

  ghost predicate TraceCall(e: CallEvent, p: Parts) {
    && !p.taken && p.ins == AllReads && Fresh(p)
    && match e
       case MethodCall => p.calls == [] && !p.passed
       case UserCode => p.calls == [MethodCall] && p.passed
       case MethodReturnObject => p.calls == [MethodCall, UserCode] && p.passed
       case DoRedirect => Redirecting(p, [])
       case MethodRedirect => Redirecting(p, [DoRedirect])
  }

  ghost predicate TraceTurn(e: TurnEvent, p: Parts) {
    && !p.taken && p.writes == []
    && match e
       case MethodExceptionObject(_) => Faulty(p) && p.turns == []
       case MethodRedirectException => RedirectFailed(p) && p.turns == []
       case FirstObject => p.ins == AllReads && Called(p) && p.turns == []
       case FirstYield => p.ins == AllReads && Called(p) && p.turns == [FirstObject] && p.generator
  }

  ghost predicate TraceWrite(e: WriteEvent, p: Parts) {
    if p.taken then
      && Taken(p) && !p.second.1
      && exists n ::
           0 <= n < |ErrorPart(p.second)| && ErrorPart(p.second)[n] == e && p.rewrites == ErrorPart(p.second)[..n]
    else
      && Replying(p) && !p.first.1
      && exists n :: 0 <= n < |WritePart(p.first)| && WritePart(p.first)[n] == e && p.writes == WritePart(p.first)[..n]
  }

  ghost predicate TracePack(c: Config, e: PackEvent, p: Parts) {
    && Written(p)
    && if p.taken then
         (e.ListText? && p.packs == []) || (e.WsgiException? && p.packs == [ListText])
       else
         exists n :: 0 <= n < |PackPart(c)| && PackPart(c)[n] == e && p.packs == PackPart(c)[..n]
  }

  predicate Packed(c: Config, p: Parts) {
    Written(p) && p.packs == if p.taken then [ListText, WsgiException] else PackPart(c)
  }

  ghost predicate TraceEnd(c: Config, e: EndEvent, p: Parts) {
    && Packed(c, p) && p.starts == 1
    && match e
       case MethodContextClosed => p.ends == []
       case WsgiClose => p.ends == [MethodContextClosed]
       case _ => p.ends == if p.taken then [] else [MethodContextClosed, WsgiClose]
  }

  ghost predicate TraceInv(c: Config, s: State, p: Parts) {
    !s.due.Raised? ==>
      && p.taken == s.handling
      && (Early(s.due) || s.due.Write? ==> p.now == (s.reply.document, s.reply.text) && Unpacked(p))
      && (!s.handling ==> p.rewrites == [])
      && match s.due
         case Read(e) => TraceRead(e, p)
         case Call(e) => TraceCall(e, p)
         case Turn(e) => TraceTurn(e, p)
         case Write(e) => TraceWrite(e, p)
         case Pack(e) => TracePack(c, e, p) && p.starts == 0 && p.ends == []
         case StartResponse(_) => Packed(c, p) && p.starts == 0 && p.ends == []
         case End(e) => TraceEnd(c, e, p)
         case Over => Packed(c, p) && p.starts == 1 && p.ends == [MethodContextClosed, WsgiClose]
         case Raised => true
  }

  lemma TraceKeepsRead(c: Config, s: State, e: ReadEvent, o: Outcome, p: Parts)
    requires s.due == Read(e) && TraceInv(c, s, p)
    ensures TraceInv(c, Step(c, s, o), Add(p, s.due, o))
  {
    assert AllReads[ReadRank(e)] == e;
    NextOf(AllReads, ReadRank(e));
    assert Add(p, s.due, o).ins == AllReads[..ReadRank(e) + 1];
  }

  lemma TraceKeepsCall(c: Config, s: State, e: CallEvent, o: Outcome, p: Parts)
    requires s.due == Call(e) && TraceInv(c, s, p)
    ensures TraceInv(c, Step(c, s, o), Add(p, s.due, o))
  {
    assert AllCalls[..1] == [MethodCall] && AllCalls[..2] == [MethodCall, UserCode] && AllCalls[..3] == AllCalls;
    assert forall n | 1 <= n <= 3 :: AllCalls[..n] + [] == AllCalls[..n];
    assert forall n | 1 <= n <= 3 :: AllCalls[..n] + [] + [DoRedirect] == AllCalls[..n] + [DoRedirect];
    assert forall n | 1 <= n <= 3 ::
      AllCalls[..n] + [DoRedirect] + [MethodRedirect] == AllCalls[..n] + [DoRedirect, MethodRedirect];
  }

  /** A reply is begun. */
  lemma ReplyBegins(c: Config, s: State, p: Parts)
    requires !s.handling && !p.taken && Replying(p) && p.writes == [] && p.rewrites == [] && Unpacked(p)
    requires p.now == (s.reply.document, s.reply.text) && p.first == p.now
    ensures TraceInv(c, Reply200(c, s), p)
  {
    hide Replying;
    assert !p.first.1 ==> WritePart(p.first)[..0] == [];
    assert PackPart(c)[..0] == [];
  }

  /** An error takes over. */
  lemma ErrorBegins(c: Config, s: State, f: Fault, p: Parts)
    requires p.taken && Taken(p) && p.rewrites == [] && Unpacked(p)
    requires p.now == (s.reply.document, s.reply.text) && p.second == p.now
    ensures TraceInv(c, Handle(c, s, f), p)
  {
    hide Taken;
    assert !p.second.1 ==> ErrorPart(p.second)[..0] == [];
  }

  lemma TraceKeepsTurn(c: Config, s: State, e: TurnEvent, o: Outcome, p: Parts)
    requires s.due == Turn(e) && TraceInv(c, s, p)
    ensures TraceInv(c, Step(c, s, o), Add(p, s.due, o))
  {
    hide Called, Faulty, RedirectFailed, Handle, Reply200;
    var t := s.(reply := Touch(s.reply, o));
    var q := Add(p, s.due, o);
    TurnFacts(p, q);
    if o.kind.Done? {
      match e
      case MethodExceptionObject(f) => ErrorBegins(c, t, f, q);
      case MethodRedirectException => ErrorBegins(c, t, ServerFault, q);
      case FirstObject => if !o.generator { ReplyBegins(c, t, q); }
      case FirstYield => ReplyBegins(c, t, q);
    }
  }

  lemma TurnFacts(p: Parts, q: Parts)
    requires q.ins == p.ins && q.calls == p.calls && q.passed == p.passed
    ensures Called(q) == Called(p) && Faulty(q) == Faulty(p) && RedirectFailed(q) == RedirectFailed(p)
  {
  }

  /** Item `n` of a sequence is next. */
  lemma NextOf<T>(all: seq<T>, n: nat)
    requires n < |all|
    ensures all[..n] + [all[n]] == all[..n + 1]
    ensures n + 1 == |all| ==> all[..n + 1] == all
  {
  }

  lemma TraceKeepsWrite(c: Config, s: State, e: WriteEvent, o: Outcome, p: Parts)
    requires s.due == Write(e) && TraceInv(c, s, p)
    ensures TraceInv(c, Step(c, s, o), Add(p, s.due, o))
  {
    if p.taken { RewriteKeeps(c, s, e, o, p); } else { WriteKeeps(c, s, e, o, p); }
  }

  /** The events of writing, each with the one after it. */
  lemma WriteOrder(there: (bool, bool), n: nat)
    requires n < |WritePart(there)|
    ensures
      var e := WritePart(there)[n];
      && (n + 1 < |WritePart(there)| ==>
            !e.MethodReturnString? && !e.MethodExceptionString? && !e.MethodExceptionDocument?
            && WritePart(there)[n + 1] ==
                 if e.Serialize? then MethodReturnDocument
                 else if e.MethodReturnDocument? then CreateOutString else MethodReturnString)
      && (n + 1 == |WritePart(there)| ==> e.MethodReturnString?)
  {
  }

  lemma ErrorOrder(there: (bool, bool), n: nat)
    requires n < |ErrorPart(there)|
    ensures
      var e := ErrorPart(there)[n];
      && (n + 1 < |ErrorPart(there)| ==>
            !e.MethodReturnString? && !e.MethodExceptionString? && !e.MethodReturnDocument?
            && ErrorPart(there)[n + 1] ==
                 if e.Serialize? then MethodExceptionDocument
                 else if e.MethodExceptionDocument? then CreateOutString else MethodExceptionString)
      && (n + 1 == |ErrorPart(there)| ==> e.MethodExceptionString?)
  {
  }

  lemma RewriteKeeps(c: Config, s: State, e: WriteEvent, o: Outcome, p: Parts)
    requires s.due == Write(e) && TraceInv(c, s, p) && p.taken
    ensures TraceInv(c, Step(c, s, o), Add(p, s.due, o))
  {
    hide Replying, WritePart, ErrorPart, PackPart, Add, Taken;
    var n :| 0 <= n < |ErrorPart(p.second)| && ErrorPart(p.second)[n] == e && p.rewrites == ErrorPart(p.second)[..n];
    if o.kind.Done? { RewritesWell(c, s, e, o, p, n); }
  }

  lemma RewritesWell(c: Config, s: State, e: WriteEvent, o: Outcome, p: Parts, n: nat)
    requires s.due == Write(e) && TraceInv(c, s, p) && p.taken && o.kind.Done?
    requires n < |ErrorPart(p.second)| && ErrorPart(p.second)[n] == e && p.rewrites == ErrorPart(p.second)[..n]
    ensures TraceInv(c, Step(c, s, o), Add(p, s.due, o))
  {
    hide Replying, Handle, ErrorPart, WritePart, PackPart, Taken;
    var q := Add(p, s.due, o);
    NextOf(ErrorPart(p.second), n);
    ErrorOrder(p.second, n);
    TakenFacts(p, q);
    if n + 1 < |ErrorPart(p.second)| {
      GoesOn(c, Step(c, s, o), q, n + 1);
    } else {
      IsWritten(c, Step(c, s, o), q);
    }
  }

  /** Writing goes on with event `n`. */
  lemma GoesOn(c: Config, s: State, p: Parts, n: nat)
    requires p.taken == s.handling && p.now == (s.reply.document, s.reply.text) && Unpacked(p)
    requires p.taken ==>
      && Taken(p) && !p.second.1 && n < |ErrorPart(p.second)|
      && s.due == Write(ErrorPart(p.second)[n]) && p.rewrites == ErrorPart(p.second)[..n]
    requires !p.taken ==>
      && Replying(p) && !p.first.1 && n < |WritePart(p.first)| && p.rewrites == []
      && s.due == Write(WritePart(p.first)[n]) && p.writes == WritePart(p.first)[..n]
    ensures TraceInv(c, s, p)
  {
    hide Taken, Replying, ErrorPart, WritePart;
  }

  /** All is written. */
  lemma IsWritten(c: Config, s: State, p: Parts)
    requires p.taken == s.handling && Unpacked(p) && s.due == TextDone(c, s.handling)
    requires p.taken ==> Taken(p) && p.rewrites == ErrorPart(p.second)
    requires !p.taken ==> Replying(p) && p.rewrites == [] && p.writes == WritePart(p.first)
    ensures TraceInv(c, s, p)
  {
    hide Taken, Replying, ErrorPart, WritePart;
    assert PackPart(c)[..0] == [];
  }

  lemma TakenFacts(p: Parts, q: Parts)
    requires q.ins == p.ins && q.calls == p.calls && q.passed == p.passed && q.turns == p.turns && q.writes == p.writes
    requires q.generator == p.generator && q.first == p.first
    ensures Taken(q) == Taken(p) && Replying(q) == Replying(p)
  {
  }

  lemma WriteKeeps(c: Config, s: State, e: WriteEvent, o: Outcome, p: Parts)
    requires s.due == Write(e) && TraceInv(c, s, p) && !p.taken
    ensures TraceInv(c, Step(c, s, o), Add(p, s.due, o))
  {
    hide Replying, WritePart, ErrorPart, PackPart, Step, Add;
    var n :| 0 <= n < |WritePart(p.first)| && WritePart(p.first)[n] == e && p.writes == WritePart(p.first)[..n];
    if o.kind.Done? { WritesWell(c, s, e, o, p, n); } else { WritesBadly(c, s, e, o, p, n); }
  }

  lemma WritesBadly(c: Config, s: State, e: WriteEvent, o: Outcome, p: Parts, n: nat)
    requires s.due == Write(e) && TraceInv(c, s, p) && !p.taken && !o.kind.Done?
    requires n < |WritePart(p.first)| && WritePart(p.first)[n] == e && p.writes == WritePart(p.first)[..n]
    ensures TraceInv(c, Step(c, s, o), Add(p, s.due, o))
  {
    hide Faulty, RedirectFailed, Replying, Handle, WritePart, ErrorPart, PackPart;
    var q := Add(p, s.due, o);
    NextOf(WritePart(p.first), n);
    ReplyingFacts(p, q);
    assert q.writes == WritePart(p.first)[..n + 1];
    ErrorBegins(c, s.(reply := Touch(s.reply, o)), ServerFault, q);
  }

  lemma WritesWell(c: Config, s: State, e: WriteEvent, o: Outcome, p: Parts, n: nat)
    requires s.due == Write(e) && TraceInv(c, s, p) && !p.taken && o.kind.Done?
    requires n < |WritePart(p.first)| && WritePart(p.first)[n] == e && p.writes == WritePart(p.first)[..n]
    ensures TraceInv(c, Step(c, s, o), Add(p, s.due, o))
  {
    hide Taken, Replying, Handle, WritePart, ErrorPart, PackPart;
    var q := Add(p, s.due, o);
    NextOf(WritePart(p.first), n);
    WriteOrder(p.first, n);
    ReplyingFacts(p, q);
    if n + 1 < |WritePart(p.first)| {
      GoesOn(c, Step(c, s, o), q, n + 1);
    } else {
      IsWritten(c, Step(c, s, o), q);
    }
  }

  lemma ReplyingFacts(p: Parts, q: Parts)
    requires q.ins == p.ins && q.calls == p.calls && q.passed == p.passed && q.turns == p.turns
    requires q.generator == p.generator
    ensures Replying(q) == Replying(p)
  {
  }

  /** The events of packing, each with the one after it. */
  lemma PackOrder(c: Config, n: nat)
    requires n < |PackPart(c)|
    ensures
      var e := PackPart(c)[n];
      && !e.ListText? && !e.WsgiException?
      && (e.ApplyMtom? ==> n + 1 < |PackPart(c)| && PackPart(c)[n + 1] == WsgiReturn)
      && (e.WsgiReturn? ==>
            if c.chunked then n + 1 == |PackPart(c)| else n + 1 < |PackPart(c)| && PackPart(c)[n + 1] == JoinText)
      && (e.JoinText? ==> n + 1 == |PackPart(c)|)
  {
  }

  lemma TraceKeepsPack(c: Config, s: State, e: PackEvent, o: Outcome, p: Parts)
    requires s.due == Pack(e) && TraceInv(c, s, p)
    ensures TraceInv(c, Step(c, s, o), Add(p, s.due, o))
  {
    hide Written, PackPart, Add;
    if o.kind.Done? {
      if p.taken {
        ErrorPacks(c, s, e, o, p);
      } else {
        var n :| 0 <= n < |PackPart(c)| && PackPart(c)[n] == e && p.packs == PackPart(c)[..n];
        ReplyPacks(c, s, e, o, p, n);
      }
    }
  }

  lemma ErrorPacks(c: Config, s: State, e: PackEvent, o: Outcome, p: Parts)
    requires s.due == Pack(e) && TraceInv(c, s, p) && p.taken && o.kind.Done?
    ensures TraceInv(c, Step(c, s, o), Add(p, s.due, o))
  {
    hide Written, PackPart;
    WrittenFacts(p, Add(p, s.due, o));
  }

  lemma ReplyPacks(c: Config, s: State, e: PackEvent, o: Outcome, p: Parts, n: nat)
    requires s.due == Pack(e) && TraceInv(c, s, p) && !p.taken && o.kind.Done?
    requires n < |PackPart(c)| && PackPart(c)[n] == e && p.packs == PackPart(c)[..n]
    ensures TraceInv(c, Step(c, s, o), Add(p, s.due, o))
  {
    hide Written, PackPart;
    var q := Add(p, s.due, o);
    WrittenFacts(p, q);
    NextOf(PackPart(c), n);
    PackOrder(c, n);
    assert q.packs == PackPart(c)[..n + 1];
  }

  lemma WrittenFacts(p: Parts, q: Parts)
    requires q.ins == p.ins && q.calls == p.calls && q.passed == p.passed && q.turns == p.turns && q.writes == p.writes
    requires q.generator == p.generator && q.first == p.first && q.second == p.second && q.rewrites == p.rewrites
    requires q.taken == p.taken
    ensures Written(q) == Written(p)
  {
  }

  lemma TraceKeepsStart(c: Config, s: State, o: Outcome, p: Parts)
    requires s.due.StartResponse? && TraceInv(c, s, p)
    ensures TraceInv(c, Step(c, s, o), Add(p, s.due, o))
  {
    hide Written, PackPart;
    WrittenFacts(p, Add(p, s.due, o));
  }

  lemma TraceKeepsEnd(c: Config, s: State, e: EndEvent, o: Outcome, p: Parts)
    requires s.due == End(e) && TraceInv(c, s, p)
    ensures TraceInv(c, Step(c, s, o), Add(p, s.due, o))
  {
    hide Written, PackPart;
    WrittenFacts(p, Add(p, s.due, o));
  }

  lemma {:induction false} TraceAlways(c: Config, log: Log)
    requires Runs(c, log).Some?
    ensures TraceInv(c, Runs(c, log).value, PartsOf(log))
  {
    hide Step, Add, TraceInv;
    if log == [] {
      TraceBegins(c);
    } else {
      var front, o := log[..|log| - 1], log[|log| - 1].1;
      TraceAlways(c, front);
      var s, p := Runs(c, front).value, PartsOf(front);
      match s.due
      case Read(e) => TraceKeepsRead(c, s, e, o, p);
      case Call(e) => TraceKeepsCall(c, s, e, o, p);
      case Turn(e) => TraceKeepsTurn(c, s, e, o, p);
      case Write(e) => TraceKeepsWrite(c, s, e, o, p);
      case Pack(e) => TraceKeepsPack(c, s, e, o, p);
      case StartResponse(_) => TraceKeepsStart(c, s, o, p);
      case End(e) => TraceKeepsEnd(c, s, e, o, p);
    }
  }

  lemma TraceBegins(c: Config)
    ensures TraceInv(c, Begin(), NoParts)
  {
    assert AllReads[..0] == [];
  }

  // ---------- The order of the phases ----------

  function Phase(e: Event): nat {
    match e
    case Read(_) => 0
    case Call(_) => 1
    case Turn(_) => 2
    case Write(_) => 3
    case Pack(_) => 4
    case StartResponse(_) => 5
    case _ => 6
  }

  lemma PhaseGrows(c: Config, s: State, o: Outcome)
    requires !s.due.Over? && !s.due.Raised?
    ensures Phase(s.due) <= Phase(Step(c, s, o).due)
  {
  }

  /** The phases follow each other in every run. */
  lemma {:induction false} PhasesInOrder(c: Config, log: Log, i: nat, j: nat)
    requires Runs(c, log).Some? && i <= j < |log|
    ensures Phase(log[i].0) <= Phase(log[j].0)
    ensures Phase(log[j].0) <= Phase(Runs(c, log).value.due)
    decreases |log|
  {
    hide Step, Phase;
    var last := |log| - 1;
    PhaseGrows(c, Runs(c, log[..last]).value, log[last].1);
    if j < last {
      PhasesInOrder(c, log[..last], i, j);
    } else if i < last {
      PhasesInOrder(c, log[..last], i, i);
    }
  }

  // ---------- User code ----------

  function Uses(calls: seq<CallEvent>): nat {
    if calls == [] then 0 else Uses(calls[..|calls| - 1]) + if calls[|calls| - 1].UserCode? then 1 else 0
  }

  lemma {:induction false} UsesCounted(log: Log)
    ensures Sum(log).uses == Uses(PartsOf(log).calls)
  {
    hide InFault, OutFault, RedirectFailure, WriteFailure, TakesOver;
    if log != [] {
      UsesCounted(log[..|log| - 1]);
      var p, e := PartsOf(log[..|log| - 1]), log[|log| - 1].0;
      if e.Call? { assert (p.calls + [e.c])[..|p.calls|] == p.calls; }
    }
  }

  /** `method_call` was fired, and ended well. */
  ghost predicate Invoked(log: Log, well: bool) {
    exists i | 0 <= i < |log| :: log[i].0 == Call(MethodCall) && (well ==> log[i].1.kind.Done?)
  }

  lemma InvokedMore(log: Log, well: bool)
    requires log != []
    ensures Invoked(log, well) <==>
      || Invoked(log[..|log| - 1], well)
      || (log[|log| - 1].0 == Call(MethodCall) && (well ==> log[|log| - 1].1.kind.Done?))
  {
    var front := log[..|log| - 1];
    if Invoked(log, well) {
      var i :| 0 <= i < |log| && log[i].0 == Call(MethodCall) && (well ==> log[i].1.kind.Done?);
      if i < |front| { assert front[i] == log[i]; }
    }
    if Invoked(front, well) {
      var i :| 0 <= i < |front| && front[i].0 == Call(MethodCall) && (well ==> front[i].1.kind.Done?);
      assert log[i] == front[i];
    }
  }

  lemma {:induction false} PassedMeans(log: Log)
    ensures PartsOf(log).passed <==> Invoked(log, true)
  {
    hide TakesOver, Invoked;
    if log == [] {
      assert !Invoked(log, true) by { NotInvoked(log, true); }
    } else {
      PassedMeans(log[..|log| - 1]);
      InvokedMore(log, true);
    }
  }

  lemma NotInvoked(log: Log, well: bool)
    requires log == []
    ensures !Invoked(log, well)
  {
  }

  ghost predicate ReadInv(s: State, p: Parts, faults: nat, invoked: bool) {
    !s.due.Raised? ==>
      if s.due.Read? || s.due == Call(MethodCall) then faults == 0 && !invoked
      else invoked == (p.calls != []) && (faults == 0) == (p.calls != [])
  }

  lemma ReadStep(c: Config, s: State, o: Outcome, p: Parts, faults: nat, invoked: bool)
    requires TraceInv(c, s, p) && ReadInv(s, p, faults, invoked) && !s.due.Over? && !s.due.Raised?
    ensures ReadInv(Step(c, s, o), Add(p, s.due, o), faults + One(InFault(s.due, o)),
      invoked || s.due == Call(MethodCall))
  {
    hide Taken, Replying, WritePart, ErrorPart, PackPart, Handle, Reply200, TraceTurn, TraceWrite, TracePack, TraceEnd,
      TakesOver, Packed, Redirecting, Touch;
    match s.due
    case Read(e) => ReadStepRead(c, s, e, o, p, faults, invoked);
    case Call(e) => ReadStepCall(c, s, e, o, p, faults, invoked);
    case _ => LaterPhase(c, s, o);
  }

  lemma LaterPhase(c: Config, s: State, o: Outcome)
    requires !s.due.Read? && !s.due.Call? && !s.due.Over? && !s.due.Raised?
    ensures !Step(c, s, o).due.Read? && !Step(c, s, o).due.Call?
  {
  }

  lemma ReadStepRead(c: Config, s: State, e: ReadEvent, o: Outcome, p: Parts, faults: nat, invoked: bool)
    requires s.due == Read(e) && TraceRead(e, p) && ReadInv(s, p, faults, invoked)
    ensures ReadInv(Step(c, s, o), Add(p, s.due, o), faults + One(InFault(s.due, o)), invoked)
  {
  }

  lemma ReadStepCall(c: Config, s: State, e: CallEvent, o: Outcome, p: Parts, faults: nat, invoked: bool)
    requires s.due == Call(e) && TraceCall(e, p) && ReadInv(s, p, faults, invoked)
    ensures ReadInv(Step(c, s, o), Add(p, s.due, o), faults, invoked || e.MethodCall?)
  {
    hide Touch;
  }

  lemma {:induction false} ReadAlways(c: Config, log: Log)
    requires Runs(c, log).Some?
    ensures ReadInv(Runs(c, log).value, PartsOf(log), Sum(log).inFaults, Invoked(log, false))
  {
    hide Step, Add, TraceInv, ReadInv, Invoked, InFault, OutFault, RedirectFailure, WriteFailure;
    if log == [] {
      NotInvoked(log, false);
      ReadBegins(Begin(), NoParts);
    } else {
      var front := log[..|log| - 1];
      ReadAlways(c, front);
      TraceAlways(c, front);
      InvokedMore(log, false);
      ReadStep(c, Runs(c, front).value, log[|log| - 1].1, PartsOf(front), Sum(front).inFaults, Invoked(front, false));
    }
  }

  lemma ReadBegins(s: State, p: Parts)
    requires s.due.Read?
    ensures ReadInv(s, p, 0, false)
  {
  }

  /** In a run that returns, user code was called once if the request was read and `method_call` ended well,
      and not at all otherwise; `method_call` was fired exactly when the request was read. */
  lemma UsedExactly(c: Config, log: Log)
    requires Returned(c, log)
    ensures Sum(log).uses == if Invoked(log, true) then 1 else 0
    ensures Invoked(log, false) <==> Sum(log).inFaults == 0
  {
    hide Runs, Sum, PartsOf, Invoked, WritePart, ErrorPart, PackPart;
    TraceAlways(c, log);
    ReadAlways(c, log);
    UsesCounted(log);
    PassedMeans(log);
    var p := PartsOf(log);
    UsesRedirect();
    if !(p.calls == [] && !p.passed) {
      var n, more := CallsMade(p);
      UsesFront(n);
      UsesJoin(AllCalls[..n], more);
    }
  }

  lemma CallsMade(p: Parts) returns (n: nat, more: seq<CallEvent>)
    requires Written(p) && !(p.calls == [] && !p.passed)
    ensures 1 <= n <= 3 && (more == [] || more == [DoRedirect] || more == [DoRedirect, MethodRedirect])
    ensures p.calls == AllCalls[..n] + more && p.passed == (n > 1)
  {
    hide WritePart, ErrorPart;
    assert forall m | 1 <= m <= 3 :: AllCalls[..m] + [] == AllCalls[..m];
    if Begun(p, 1) {
      n, more := 1, [];
    } else if Begun(p, 2) {
      n, more := 2, [];
    } else if Begun(p, 3) {
      n, more := 3, [];
    } else if Redirecting(p, [DoRedirect]) {
      more := [DoRedirect];
      n :| 1 <= n <= 3 && p.calls == AllCalls[..n] + more && p.passed == (n > 1);
    } else {
      more := [DoRedirect, MethodRedirect];
      n :| 1 <= n <= 3 && p.calls == AllCalls[..n] + more && p.passed == (n > 1);
    }
  }

  lemma UsesFront(n: nat)
    requires 1 <= n <= 3
    ensures Uses(AllCalls[..n]) == if n > 1 then 1 else 0
  {
    assert AllCalls[..1] == [MethodCall] && Uses([]) == 0 && Uses([MethodCall]) == 0;
    if n > 1 { UsesOne(AllCalls[..1], UserCode, AllCalls[..2]); }
    if n > 2 { UsesOne(AllCalls[..2], MethodReturnObject, AllCalls[..3]); }
  }

  lemma UsesOne(calls: seq<CallEvent>, e: CallEvent, more: seq<CallEvent>)
    requires more == calls + [e]
    ensures Uses(more) == Uses(calls) + if e.UserCode? then 1 else 0
  {
    assert more[..|more| - 1] == calls;
  }

  lemma UsesRedirect()
    ensures Uses([]) == 0 && Uses([DoRedirect]) == 0 && Uses([DoRedirect, MethodRedirect]) == 0
  {
    UsesOne([], DoRedirect, [DoRedirect]);
    UsesOne([DoRedirect], MethodRedirect, [DoRedirect, MethodRedirect]);
  }

  lemma {:induction false} UsesJoin(a: seq<CallEvent>, b: seq<CallEvent>)
    ensures Uses(a + b) == Uses(a) + Uses(b)
  {
    if b == [] {
      assert a + b == a;
    } else {
      UsesJoin(a, b[..|b| - 1]);
      assert (a + b)[..|a + b| - 1] == a + b[..|b| - 1];
    }
  }

  // ---------- Replies and errors ----------

  /** Everything that happens in a run that replies: what is read, the calls between their events or up to a
      redirection that was followed, the document and its text where they were not there already, and the
      answer.  Auxiliary methods are left aside. */
  lemma ReplyTrace(c: Config, log: Log)
    requires Returned(c, log) && Sum(log).replies == 1
    ensures
      var p := PartsOf(log);
      && p.ins == [WsgiCall, ReadRequest, CreateInDocument, Decompose, GenerateMethodContexts, Deserialize]
      && (p.calls == [MethodCall, UserCode, MethodReturnObject]
          || p.calls == [MethodCall, DoRedirect, MethodRedirect]
          || p.calls == [MethodCall, UserCode, DoRedirect, MethodRedirect]
          || p.calls == [MethodCall, UserCode, MethodReturnObject, DoRedirect, MethodRedirect])
      && p.turns == (if p.generator then [FirstObject, FirstYield] else [FirstObject])
      && p.writes == (if p.first.1 then []
                      else (if p.first.0 then [] else [Serialize])
                           + [MethodReturnDocument, CreateOutString, MethodReturnString])
      && p.rewrites == []
      && p.packs == (if c.mtom then [ApplyMtom] else []) + [WsgiReturn] + (if c.chunked then [] else [JoinText])
      && p.starts == 1 && p.ends == [MethodContextClosed, WsgiClose]
  {
    hide Runs, Sum, PartsOf, Called;
    InvAlways(c, log);
    TraceAlways(c, log);
    CalledMeans(PartsOf(log));
  }

  lemma CalledMeans(p: Parts)
    requires Called(p)
    ensures
      || p.calls == [MethodCall, UserCode, MethodReturnObject]
      || p.calls == [MethodCall, DoRedirect, MethodRedirect]
      || p.calls == [MethodCall, UserCode, DoRedirect, MethodRedirect]
      || p.calls == [MethodCall, UserCode, MethodReturnObject, DoRedirect, MethodRedirect]
  {
    assert AllCalls[..1] == [MethodCall] && AllCalls[..2] == [MethodCall, UserCode] && AllCalls[..3] == AllCalls;
    if !Begun(p, 3) {
      var n :| 1 <= n <= 3 && p.calls == AllCalls[..n] + [DoRedirect, MethodRedirect];
      assert n == 1 || n == 2 || n == 3;
    }
  }

  /** Everything that happens after an error has taken over, and what came before: a fault while the request
      was read or processed, a redirection that failed, or a reply that could not be written. */
  lemma ErrorTrace(c: Config, log: Log)
    requires Returned(c, log) && Sum(log).errors == 1
    ensures
      var p := PartsOf(log);
      && p.rewrites == (if p.second.1 then []
                        else (if p.second.0 then [] else [Serialize])
                             + [MethodExceptionDocument, CreateOutString, MethodExceptionString])
      && p.packs == [ListText, WsgiException] && p.starts == 1 && p.ends == [MethodContextClosed, WsgiClose]
      && (|| (Faulty(p) && |p.turns| == 1 && p.turns[0].MethodExceptionObject? && p.writes == [])
          || (RedirectFailed(p) && p.turns == [MethodRedirectException] && p.writes == [])
          || (Called(p) && p.turns == TurnPart(p.generator) && p.writes != [] && p.writes <= WritePart(p.first)))
  {
    hide Runs, Sum, PartsOf, Called, Faulty, RedirectFailed, WritePart, PackPart;
    InvAlways(c, log);
    TraceAlways(c, log);
  }
}
