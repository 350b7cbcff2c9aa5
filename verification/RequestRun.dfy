/** The life of one request, as a state machine over what happens in it.

    Everything outside the dispatcher (protocol calls, event handlers, user code, the WSGI server) is an
    event with an arbitrary outcome, so a theorem about all accepted logs is one about all handlers,
    protocols and services. */
module RequestRun {
  import opened Wrappers

  /** A fault raised by someone, or the `Server` fault that is made for any other exception. */
  datatype Fault = Given(n: nat) | ServerFault

  /** HTTP status: 200, the one that the protocol has for a fault, or one chosen by a handler. */
  datatype Code = Http200 | OfFault(f: Fault) | Chosen(n: nat)

  /** `Redirect` is a kind of `Fault`; `Crashed` stands for any other exception. */
  datatype Kind = Done | Redirected(f: Fault) | Faulted(f: Fault) | Crashed

  predicate IsFault(k: Kind) {
    k.Redirected? || k.Faulted?
  }

  /** Whether `out_document` and `out_string` are set, and the status. */
  datatype Reply = Reply(document: bool, text: bool, code: Option<Code>)

  /** How a call ended, whether it left the reply's document and text set, and the status that it chose.
      The match of a method yields its auxiliary methods (whether each processes exceptions), the first
      object whether it is a generator. */
  datatype Outcome = Outcome(
    kind: Kind,
    leaves: Option<(bool, bool)>,
    code: Option<Code>,
    others: seq<bool>,
    generator: bool)

  datatype ReadEvent = WsgiCall | ReadRequest | CreateInDocument | Decompose | GenerateMethodContexts | Deserialize
  datatype CallEvent = MethodCall | UserCode | MethodReturnObject | DoRedirect | MethodRedirect
  datatype TurnEvent = MethodRedirectException | MethodExceptionObject(f: Fault) | FirstObject | FirstYield
  datatype WriteEvent =
    | Serialize | CreateOutString
    | MethodReturnDocument | MethodExceptionDocument | MethodReturnString | MethodExceptionString
  datatype PackEvent = ApplyMtom | WsgiReturn | JoinText | ListText | WsgiException
  datatype EndEvent = InitAux(i: nat) | RunAux(i: nat) | MethodContextClosed | WsgiClose

  /** What happens in a run: the request is read and processed, a turn is taken to the reply, the reply is
      written and packed, the server is answered and the run brought to its end.  `Over` and `Raised` stand
      for the end itself, by return or by an exception. */
  datatype Event =
    | Read(r: ReadEvent)
    | Call(c: CallEvent)
    | Turn(t: TurnEvent)
    | Write(w: WriteEvent)
    | Pack(p: PackEvent)
    | StartResponse(code: Option<Code>)
    | End(e: EndEvent)
    | Over
    | Raised

  type Log = seq<(Event, Outcome)>

  datatype Config = Config(mtom: bool, chunked: bool)

  /** `due` is the event that comes next; `handling` tells that `handle_error` has taken over. */
  datatype State = State(due: Event, reply: Reply, handling: bool, others: seq<bool>)

  function Begin(): State {
    State(Read(WsgiCall), Reply(false, false, None), false, [])
  }

  // ---------- One step ----------

  function Touch(r: Reply, o: Outcome): Reply {
    Reply(
      if o.leaves.Some? then o.leaves.value.0 else r.document,
      if o.leaves.Some? then o.leaves.value.1 else r.text,
      if o.code.Some? then o.code else r.code)
  }

  /** A status that was set before stays. */
  function WithCode(r: Reply, c: Code): Reply {
    if r.code.None? then r.(code := Some(c)) else r
  }

  /** `get_out_string`: text that is there is left alone, a document that is there is not made again. */
  function Respond(c: Config, handling: bool, r: Reply): Event {
    if r.text then TextDone(c, handling)
    else Write(if !r.document then Serialize else if handling then MethodExceptionDocument else MethodReturnDocument)
  }

  function TextDone(c: Config, handling: bool): Event {
    Pack(if handling then ListText else if c.mtom then ApplyMtom else WsgiReturn)
  }

  /** `handle_error` */
  function Handle(c: Config, s: State, f: Fault): State {
    var r := WithCode(s.reply, OfFault(f));
    State(Respond(c, true, r), r, true, s.others)
  }

  function Reply200(c: Config, s: State): State {
    var r := WithCode(s.reply, Http200);
    s.(due := Respond(c, s.handling, r), reply := r)
  }

  /** An exception that nobody catches ends the run. */
  function On(s: State, o: Outcome, next: Event): State {
    s.(due := if o.kind.Done? then next else Raised)
  }

  /** Faults while the request is read are kept for the reply. */
  function StepRead(s: State, e: ReadEvent, o: Outcome): State {
    if IsFault(o.kind) && !e.WsgiCall? && !e.ReadRequest? then s.(due := Turn(MethodExceptionObject(o.kind.f)))
    else
      match e
      case WsgiCall => On(s, o, Read(ReadRequest))
      case ReadRequest => On(s, o, Read(CreateInDocument))
      case CreateInDocument => On(s, o, Read(Decompose))
      case Decompose => On(s, o, Read(GenerateMethodContexts))
      case GenerateMethodContexts => On(s.(others := o.others), o, Read(Deserialize))
      case Deserialize => On(s, o, Call(MethodCall))
  }

  /** `process_request` */
  function StepCall(s: State, e: CallEvent, o: Outcome): State {
    match e
    case DoRedirect => s.(due := if o.kind.Done? then Call(MethodRedirect) else Turn(MethodRedirectException))
    case MethodRedirect => s.(due := Turn(if o.kind.Done? then FirstObject else MethodRedirectException))
    case _ =>
      match o.kind
      case Redirected(_) => s.(due := Call(DoRedirect))
      case Faulted(f) => s.(due := Turn(MethodExceptionObject(f)))
      case Crashed => s.(due := Turn(MethodExceptionObject(ServerFault)))
      case Done =>
        s.(due := if e.MethodCall? then Call(UserCode) else if e.UserCode? then Call(MethodReturnObject)
                  else Turn(FirstObject))
  }

  function StepTurn(c: Config, s: State, e: TurnEvent, o: Outcome): State {
    if !o.kind.Done? then s.(due := Raised)
    else
      match e
      case MethodRedirectException => Handle(c, s, ServerFault)
      case MethodExceptionObject(f) => Handle(c, s, f)
      case FirstObject => if o.generator then s.(due := Turn(FirstYield)) else Reply200(c, s)
      case FirstYield => Reply200(c, s)
  }

  /** An exception while the reply is written is reported once, not twice. */
  function StepWrite(c: Config, s: State, e: WriteEvent, o: Outcome): State {
    if !o.kind.Done? then (if s.handling then s.(due := Raised) else Handle(c, s, ServerFault))
    else
      match e
      case Serialize => s.(due := Write(if s.handling then MethodExceptionDocument else MethodReturnDocument))
      case MethodReturnDocument => s.(due := Write(CreateOutString))
      case MethodExceptionDocument => s.(due := Write(CreateOutString))
      case CreateOutString => s.(due := Write(if s.handling then MethodExceptionString else MethodReturnString))
      case _ => s.(due := TextDone(c, s.handling), reply := s.reply.(text := true))
  }

  function StepPack(c: Config, s: State, e: PackEvent, o: Outcome): State {
    On(s, o,
      match e
      case ApplyMtom => Pack(WsgiReturn)
      case WsgiReturn => if c.chunked then StartResponse(s.reply.code) else Pack(JoinText)
      case JoinText => StartResponse(s.reply.code)
      case ListText => Pack(WsgiException)
      case WsgiException => StartResponse(s.reply.code))
  }

  function HelpFrom(s: State, i: nat): Event {
    if i < |s.others| then End(InitAux(i)) else Helped(s)
  }

  /** After an error the context is closed last, otherwise before the auxiliary methods. */
  function Helped(s: State): Event {
    if s.handling then End(MethodContextClosed) else Over
  }

  function StepStart(s: State, o: Outcome): State {
    On(s, o, if s.handling then HelpFrom(s, 0) else End(MethodContextClosed))
  }

  /** An exception from an auxiliary method skips the rest of them. */
  function StepEnd(s: State, e: EndEvent, o: Outcome): State {
    match e
    case InitAux(i) =>
      s.(due := if !o.kind.Done? then Helped(s)
                else if s.handling && !(i < |s.others| && s.others[i]) then HelpFrom(s, i + 1)
                else End(RunAux(i)))
    case RunAux(i) => s.(due := if o.kind.Done? then HelpFrom(s, i + 1) else Helped(s))
    case MethodContextClosed => On(s, o, End(WsgiClose))
    case WsgiClose => On(s, o, if s.handling then Over else HelpFrom(s, 0))
  }

  /** The state after the due event. */
  function Step(c: Config, s: State, o: Outcome): State {
    var t := s.(reply := Touch(s.reply, o));
    match s.due
    case Read(e) => StepRead(t, e, o)
    case Call(e) => StepCall(t, e, o)
    case Turn(e) => StepTurn(c, t, e, o)
    case Write(e) => StepWrite(c, t, e, o)
    case Pack(e) => StepPack(c, t, e, o)
    case StartResponse(_) => StepStart(t, o)
    case End(e) => StepEnd(t, e, o)
    case _ => s
  }

  /** The state after a log, if every event of it was due. */
  function Runs(c: Config, log: Log): Option<State> {
    if log == [] then Some(Begin())
    else
      var (e, o) := log[|log| - 1];
      match Runs(c, log[..|log| - 1])
      case None => None
      case Some(s) => if s.due == e && !e.Over? && !e.Raised? then Some(Step(c, s, o)) else None
  }

  function One(b: bool): nat {
    if b then 1 else 0
  }

  predicate Early(e: Event) {
    e.Read? || e.Call? || e.Turn?
  }

  /** After `start_response`. */
  predicate Started(e: Event) {
    e.End? || e.Over?
  }

  // ---------- What a log amounts to ----------

  /** A fault while the request is read. */
  predicate InFault(e: Event, o: Outcome) {
    e.Read? && !e.r.WsgiCall? && !e.r.ReadRequest? && IsFault(o.kind)
  }

  /** An exception while the request is processed, other than a redirection. */
  predicate OutFault(e: Event, o: Outcome) {
    e.Call? && !e.c.DoRedirect? && !e.c.MethodRedirect? && (o.kind.Faulted? || o.kind.Crashed?)
  }

  predicate RedirectFailure(e: Event, o: Outcome) {
    e.Call? && (e.c.DoRedirect? || e.c.MethodRedirect?) && !o.kind.Done?
  }

  /** An exception while a reply that is no error is written. */
  predicate WriteFailure(e: Event, o: Outcome, handling: bool) {
    e.Write? && !handling && !o.kind.Done?
  }

  function FaultOf(k: Kind): Fault {
    if IsFault(k) then k.f else ServerFault
  }

  /** Counts of notable events.  `blames` is `method_exception_object`; `cause` is the first fault that
      the reply has to report, `sent` the status that was sent, `chose` whether a handler chose a status.
      Auxiliary methods are counted when they run before or after the context is closed, though they do not
      process exceptions, and out of order. */
  datatype Summary = Summary(
    starts: nat, closes: nat, replies: nat, errors: nat,
    uses: nat, inFaults: nat, outFaults: nat, blames: nat, redirects: nat, writes: nat,
    cause: Option<Fault>, sent: Option<Option<Code>>, chose: bool,
    others: seq<bool>, nextAux: nat, auxBefore: nat, auxAfter: nat, auxRefusing: nat, auxDisordered: nat)

  function Nothing(): Summary {
    Summary(0, 0, 0, 0, 0, 0, 0, 0, 0, 0, None, None, false, [], 0, 0, 0, 0, 0)
  }

  function NextAux(k: Summary, e: Event): nat {
    if e.End? && e.e.RunAux? then e.e.i + 1 else k.nextAux
  }

  function Note(k: Summary, e: Event, o: Outcome): Summary {
    var aux := e.End? && e.e.RunAux?;
    var handling := k.inFaults + k.outFaults + k.redirects + k.writes > 0;
    Summary(
      k.starts + One(e.StartResponse?), k.closes + One(e.End? && e.e.MethodContextClosed?),
      k.replies + One(e.Pack? && e.p.WsgiReturn?), k.errors + One(e.Pack? && e.p.WsgiException?),
      k.uses + One(e.Call? && e.c.UserCode?),
      k.inFaults + One(InFault(e, o)), k.outFaults + One(OutFault(e, o)),
      k.blames + One(e.Turn? && e.t.MethodExceptionObject?),
      k.redirects + One(RedirectFailure(e, o)), k.writes + One(WriteFailure(e, o, handling)),
      if k.cause.Some? then k.cause
      else if InFault(e, o) || OutFault(e, o) then Some(FaultOf(o.kind))
      else if RedirectFailure(e, o) then Some(ServerFault)
      else None,
      if e.StartResponse? then Some(e.code) else k.sent,
      k.chose || o.code.Some?,
      if e.Read? && e.r.GenerateMethodContexts? && o.kind.Done? then o.others else k.others,
      NextAux(k, e),
      k.auxBefore + One(aux && k.closes == 0), k.auxAfter + One(aux && k.closes > 0),
      k.auxRefusing + One(aux && !(e.e.i < |k.others| && k.others[e.e.i])),
      k.auxDisordered + One(aux && e.e.i < k.nextAux))
  }

  function Sum(log: Log): Summary {
    if log == [] then Nothing() else Note(Sum(log[..|log| - 1]), log[|log| - 1].0, log[|log| - 1].1)
  }

  // ---------- What holds in every state of every run ----------

  predicate Closed(s: State) {
    s.due.Over? || (s.due.End? && (s.due.e.WsgiClose? || (!s.due.e.MethodContextClosed? && !s.handling)))
  }

  ghost predicate Always(s: State, k: Summary) {
    && k.starts <= 1 && k.closes <= k.starts && k.replies + k.errors <= 1
    && k.uses <= 1 && (k.inFaults > 0 ==> k.uses == 0)
    && k.inFaults + k.outFaults + k.redirects + k.writes <= 1 && k.blames <= k.inFaults + k.outFaults
    && k.auxDisordered == 0
    && (if s.handling then k.auxAfter == 0 && k.auxRefusing == 0 else k.auxBefore == 0)
  }

  /** Answering, closing and announcing. */
  ghost predicate Flows(s: State, k: Summary) {
    && k.starts == One(Started(s.due)) && k.closes == One(Closed(s))
    && k.replies + k.errors == One((s.due.Pack? && s.due.p.JoinText?) || s.due.StartResponse? || Started(s.due))
    && (k.replies > 0 ==> !s.handling) && (k.errors > 0 ==> s.handling)
    && (s.due.Pack? ==> s.handling == (s.due.p.ListText? || s.due.p.WsgiException?))
    && (Early(s.due) ==> !s.handling)
  }

  /** Faults and their events. */
  ghost predicate Blames(s: State, k: Summary) {
    var blaming := s.due.Turn? && s.due.t.MethodExceptionObject?;
    var failed := s.due.Turn? && s.due.t.MethodRedirectException?;
    && k.blames == (if blaming then 0 else k.inFaults + k.outFaults)
    && (s.due.Read? || (s.due.Call? && (s.due.c.MethodCall? || s.due.c.UserCode?)) ==> k.uses == 0)
    && if s.handling then k.inFaults + k.outFaults + k.redirects + k.writes == 1
       else k.inFaults + k.outFaults == One(blaming) && k.redirects == One(failed) && k.writes == 0
  }

  /** The status, as long as no handler chooses it. */
  ghost predicate Reports(s: State, k: Summary) {
    && (Early(s.due) ==>
          && s.reply.code.None?
          && k.cause == if !s.due.Turn? then None
                        else match s.due.t
                             case MethodExceptionObject(f) => Some(f)
                             case MethodRedirectException => Some(ServerFault)
                             case _ => None)
    && (!Early(s.due) ==> s.reply.code == Some(if k.cause.Some? then OfFault(k.cause.value) else Http200))
    && (s.due.StartResponse? ==> s.due.code == s.reply.code)
    && (Started(s.due) ==> k.sent == Some(s.reply.code))
  }

  ghost predicate Helps(s: State, k: Summary) {
    && k.others == s.others
    && (s.due.End? && s.due.e.InitAux? ==> k.nextAux <= s.due.e.i < |s.others|)
    && (s.due.End? && s.due.e.RunAux? ==> k.nextAux <= s.due.e.i < |s.others| && (s.handling ==> s.others[s.due.e.i]))
    && (!Started(s.due) || (!s.handling && s.due.End? && (s.due.e.MethodContextClosed? || s.due.e.WsgiClose?)) ==>
          k.nextAux == 0 && k.auxBefore == 0 && k.auxAfter == 0 && k.auxRefusing == 0)
  }

  ghost predicate Inv(s: State, k: Summary) {
    && Always(s, k)
    && (!s.due.Raised? ==> Flows(s, k) && Blames(s, k) && (!k.chose ==> Reports(s, k)) && Helps(s, k))
  }

  lemma KeepsRead(s: State, e: ReadEvent, o: Outcome, k: Summary)
    requires s.due == Read(e) && Inv(s, k)
    ensures Inv(StepRead(s, e, o), Note(k, Read(e), o))
  {
  }

  lemma KeepsCall(s: State, e: CallEvent, o: Outcome, k: Summary)
    requires s.due == Call(e) && Inv(s, k)
    ensures Inv(StepCall(s, e, o), Note(k, Call(e), o))
  {
  }

  lemma KeepsTurn(c: Config, s: State, e: TurnEvent, o: Outcome, k: Summary)
    requires s.due == Turn(e) && Inv(s, k)
    ensures Inv(StepTurn(c, s, e, o), Note(k, Turn(e), o))
  {
  }

  lemma KeepsWrite(c: Config, s: State, e: WriteEvent, o: Outcome, k: Summary)
    requires s.due == Write(e) && Inv(s, k)
    ensures Inv(StepWrite(c, s, e, o), Note(k, Write(e), o))
  {
  }

  lemma KeepsPack(c: Config, s: State, e: PackEvent, o: Outcome, k: Summary)
    requires s.due == Pack(e) && Inv(s, k)
    ensures Inv(StepPack(c, s, e, o), Note(k, Pack(e), o))
  {
  }

  lemma KeepsStart(s: State, code: Option<Code>, o: Outcome, k: Summary)
    requires s.due == StartResponse(code) && Inv(s, k)
    ensures Inv(StepStart(s, o), Note(k, StartResponse(code), o))
  {
  }

  lemma KeepsEnd(s: State, e: EndEvent, o: Outcome, k: Summary)
    requires s.due == End(e) && Inv(s, k)
    ensures Inv(StepEnd(s, e, o), Note(k, End(e), o))
  {
  }

  lemma KeepsInv(c: Config, s: State, o: Outcome, k: Summary)
    requires Inv(s, k) && !s.due.Over? && !s.due.Raised?
    ensures Inv(Step(c, s, o), Note(k, s.due, o))
  {
    hide StepRead, StepCall, StepTurn, StepWrite, StepPack, StepStart, StepEnd, Always, Flows, Blames, Helps,
      InFault, OutFault;
    var t := s.(reply := Touch(s.reply, o));
    var j := k.(chose := k.chose || o.code.Some?);
    TouchKeeps(s, o, k);
    match s.due
    case Read(e) => KeepsRead(t, e, o, j);
    case Call(e) => KeepsCall(t, e, o, j);
    case Turn(e) => KeepsTurn(c, t, e, o, j);
    case Write(e) => KeepsWrite(c, t, e, o, j);
    case Pack(e) => KeepsPack(c, t, e, o, j);
    case StartResponse(code) => KeepsStart(t, code, o, j);
    case End(e) => KeepsEnd(t, e, o, j);
  }

  lemma TouchKeeps(s: State, o: Outcome, k: Summary)
    requires Inv(s, k)
    ensures Inv(s.(reply := Touch(s.reply, o)), k.(chose := k.chose || o.code.Some?))
  {
  }

  lemma {:induction false} InvAlways(c: Config, log: Log)
    requires Runs(c, log).Some?
    ensures Inv(Runs(c, log).value, Sum(log))
  {
    hide Step, Note, Inv;
    if log == [] {
      InvBegins(Begin(), Nothing());
    } else {
      InvAlways(c, log[..|log| - 1]);
      KeepsInv(c, Runs(c, log[..|log| - 1]).value, log[|log| - 1].1, Sum(log[..|log| - 1]));
    }
  }

  lemma InvBegins(s: State, k: Summary)
    requires s.due.Read? && s.reply.code.None? && !s.handling && s.others == [] && k == Nothing()
    ensures Inv(s, k)
  {
    assert k.inFaults == 0 && k.outFaults == 0 && k.redirects == 0 && k.writes == 0 && k.uses == 0 && k.blames == 0;
    assert Blames(s, k) by { hide Nothing; }
  }

  // ---------- The promises of the dispatcher ----------

  /** The log of a request that was answered, and whose handling returned normally. */
  ghost predicate Returned(c: Config, log: Log) {
    Runs(c, log).Some? && Runs(c, log).value.due.Over?
  }

  /** A run that returns has answered once, closed the context once, and announced a reply or an error;
      an error if and only if something failed on the way. */
  lemma AnsweredOnce(c: Config, log: Log)
    requires Returned(c, log)
    ensures
      var k := Sum(log);
      && k.starts == 1 && k.closes == 1 && k.replies + k.errors == 1
      && (k.errors == 1 <==> k.inFaults + k.outFaults + k.redirects + k.writes > 0)
  {
    hide Runs, Sum;
    InvAlways(c, log);
  }

  /** However a run ends, and at any point of it: no second answer, and no closing before the answer. */
  lemma NeverTwice(c: Config, log: Log)
    requires Runs(c, log).Some?
    ensures Sum(log).starts <= 1 && Sum(log).closes <= Sum(log).starts && Sum(log).uses <= 1
  {
    hide Runs, Sum;
    InvAlways(c, log);
  }

  /** User code does not see a request that could not be read. */
  lemma NoUseAfterInError(c: Config, log: Log)
    requires Runs(c, log).Some? && Sum(log).inFaults > 0
    ensures Sum(log).uses == 0
  {
    hide Runs, Sum;
    InvAlways(c, log);
  }

  /** `method_exception_object` is fired at most once; in a run that returns, exactly when a fault arose
      before serialisation outside of a redirection. */
  lemma BlamedExactly(c: Config, log: Log)
    requires Runs(c, log).Some?
    ensures Sum(log).blames <= Sum(log).inFaults + Sum(log).outFaults <= 1
    ensures Returned(c, log) ==> Sum(log).blames == Sum(log).inFaults + Sum(log).outFaults
  {
    hide Runs, Sum;
    InvAlways(c, log);
  }

  /** As long as no handler chooses a status, it is the one of the first fault before serialisation, or of
      the `Server` fault for a failed redirection, and 200 otherwise. */
  lemma StatusExact(c: Config, log: Log)
    requires Returned(c, log) && !Sum(log).chose
    ensures
      var k := Sum(log);
      && k.sent == Some(Some(if k.cause.Some? then OfFault(k.cause.value) else Http200))
      && (k.cause.Some? <==> k.inFaults + k.outFaults + k.redirects > 0)
  {
    hide Runs;
    InvAlways(c, log);
    CauseIsFault(log);
  }

  lemma {:induction false} CauseIsFault(log: Log)
    ensures Sum(log).cause.Some? <==> Sum(log).inFaults + Sum(log).outFaults + Sum(log).redirects > 0
  {
    hide InFault, OutFault, RedirectFailure;
    if log != [] {
      CauseIsFault(log[..|log| - 1]);
    }
  }

  /** The error for a reply that could not be written is sent with status 200. */
  lemma WriteFailureSays200(c: Config, log: Log)
    requires Returned(c, log) && !Sum(log).chose && Sum(log).writes > 0
    ensures Sum(log).errors == 1 && Sum(log).sent == Some(Some(Http200))
  {
    hide Runs, Sum;
    InvAlways(c, log);
    StatusExact(c, log);
  }

  // ---------- A run in which the reply cannot be written ----------

  lemma Next(c: Config, log: Log, s: State, o: Outcome) returns (more: Log)
    requires Runs(c, log) == Some(s) && !s.due.Over? && !s.due.Raised?
    ensures more == log + [(s.due, o)] && Runs(c, more) == Some(Step(c, s, o))
    ensures Sum(more).writes == Sum(log).writes + One(WriteFailure(s.due, o, s.handling))
    ensures Sum(more).chose == (Sum(log).chose || o.code.Some?)
  {
    hide Step, InFault, OutFault, RedirectFailure;
    more := log + [(s.due, o)];
    assert more[..|log|] == log;
    if s.due.Write? { WritesAsHandled(c, log); }
  }

  lemma WritesAsHandled(c: Config, log: Log)
    requires Runs(c, log).Some? && Runs(c, log).value.due.Write?
    ensures
      var k := Sum(log);
      Runs(c, log).value.handling <==> k.inFaults + k.outFaults + k.redirects + k.writes > 0
  {
    hide Runs, Sum;
    InvAlways(c, log);
  }

  /** A log of events at state `s`, in which nothing was chosen and `n` failures to write. */
  ghost predicate At(c: Config, log: Log, s: State, n: nat) {
    Runs(c, log) == Some(s) && Sum(log).writes == n && !Sum(log).chose
  }

  const Fine: Outcome := Outcome(Done, None, None, [], false)

  /** The due event goes well. */
  lemma Well(c: Config, log: Log, s: State, n: nat, t: State) returns (more: Log)
    requires At(c, log, s, n) && !s.due.Over? && !s.due.Raised? && t == Step(c, s, Fine)
    ensures At(c, more, t, n)
  {
    hide Step;
    more := Next(c, log, s, Fine);
  }

  lemma ReadWell(c: Config) returns (log: Log)
    ensures At(c, log, State(Call(MethodCall), Reply(false, false, None), false, []), 0)
  {
    hide Runs, Sum;
    var s := Begin();
    log := [];
    assert At(c, log, s, 0) by { EmptyLog(c); }
    log := Well(c, log, s, 0, s.(due := Read(ReadRequest)));
    log := Well(c, log, s.(due := Read(ReadRequest)), 0, s.(due := Read(CreateInDocument)));
    log := Well(c, log, s.(due := Read(CreateInDocument)), 0, s.(due := Read(Decompose)));
    log := Well(c, log, s.(due := Read(Decompose)), 0, s.(due := Read(GenerateMethodContexts)));
    log := Well(c, log, s.(due := Read(GenerateMethodContexts)), 0, s.(due := Read(Deserialize)));
    log := Well(c, log, s.(due := Read(Deserialize)), 0, s.(due := Call(MethodCall)));
  }

  lemma EmptyLog(c: Config)
    ensures At(c, [], Begin(), 0)
  {
    hide Step, Note, Begin;
  }

  lemma CallWell(c: Config) returns (log: Log)
    ensures At(c, log, State(Write(Serialize), Reply(false, false, Some(Http200)), false, []), 0)
  {
    hide Runs, Sum;
    log := ReadWell(c);
    var s := State(Call(MethodCall), Reply(false, false, None), false, []);
    log := Well(c, log, s, 0, s.(due := Call(UserCode)));
    log := Well(c, log, s.(due := Call(UserCode)), 0, s.(due := Call(MethodReturnObject)));
    log := Well(c, log, s.(due := Call(MethodReturnObject)), 0, s.(due := Turn(FirstObject)));
    log := Well(c, log, s.(due := Turn(FirstObject)), 0,
      State(Write(Serialize), Reply(false, false, Some(Http200)), false, []));
  }

  lemma WriteBadly(c: Config) returns (log: Log)
    ensures At(c, log, State(Pack(ListText), Reply(false, true, Some(Http200)), true, []), 1)
  {
    hide Runs, Sum;
    log := CallWell(c);
    var s := State(Write(Serialize), Reply(false, false, Some(Http200)), false, []);
    var t := s.(handling := true);
    log := Next(c, log, s, Fine.(kind := Crashed));
    log := Well(c, log, t, 1, t.(due := Write(MethodExceptionDocument)));
    log := Well(c, log, t.(due := Write(MethodExceptionDocument)), 1, t.(due := Write(CreateOutString)));
    log := Well(c, log, t.(due := Write(CreateOutString)), 1, t.(due := Write(MethodExceptionString)));
    log := Well(c, log, t.(due := Write(MethodExceptionString)), 1,
      t.(due := Pack(ListText), reply := Reply(false, true, Some(Http200))));
  }

  /** It happens, under every configuration: everything goes well but the first call of the serialiser. */
  lemma WriteFailureHappens(c: Config) returns (log: Log)
    ensures Returned(c, log) && !Sum(log).chose && Sum(log).writes == 1
  {
    hide Runs, Sum;
    log := WriteBadly(c);
    var s := State(Pack(ListText), Reply(false, true, Some(Http200)), true, []);
    log := Well(c, log, s, 1, s.(due := Pack(WsgiException)));
    log := Well(c, log, s.(due := Pack(WsgiException)), 1, s.(due := StartResponse(Some(Http200))));
    log := Well(c, log, s.(due := StartResponse(Some(Http200))), 1, s.(due := End(MethodContextClosed)));
    log := Well(c, log, s.(due := End(MethodContextClosed)), 1, s.(due := End(WsgiClose)));
    log := Well(c, log, s.(due := End(WsgiClose)), 1, s.(due := Over));
  }

  /** Auxiliary methods run without an error after the context is closed; after an error, before that, and
      only those that process exceptions. */
  lemma AuxiliariesInOrder(c: Config, log: Log)
    requires Returned(c, log)
    ensures
      var k := Sum(log);
      && k.auxDisordered == 0
      && if k.errors == 1 then k.auxAfter == 0 && k.auxRefusing == 0 else k.auxBefore == 0
  {
    hide Runs, Sum;
    InvAlways(c, log);
  }

  /** The auxiliary methods that ran, in order. */
  function AuxRuns(log: Log): seq<nat> {
    if log == [] then []
    else
      var e := log[|log| - 1].0;
      AuxRuns(log[..|log| - 1]) + if e.End? && e.e.RunAux? then [e.e.i] else []
  }

  /** How far the auxiliary methods got, if one of them failed: a failure to set one up leaves it out. */
  function AuxStop(log: Log): Option<nat> {
    if log == [] then None
    else
      var (e, o) := log[|log| - 1];
      if e.End? && e.e.InitAux? && !o.kind.Done? then Some(e.e.i)
      else if e.End? && e.e.RunAux? && !o.kind.Done? then Some(e.e.i + 1)
      else AuxStop(log[..|log| - 1])
  }

  /** Of the first `n` auxiliary methods, all, or after an error those that process exceptions. */
  function Eligible(others: seq<bool>, handling: bool, n: nat): seq<nat>
    requires n <= |others|
  {
    if n == 0 then []
    else Eligible(others, handling, n - 1) + if !handling || others[n - 1] then [n - 1] else []
  }

  ghost predicate AuxInv(s: State, done: seq<nat>, stop: Option<nat>) {
    if s.due.Raised? then true
    else if !Started(s.due) || (!s.handling && s.due.End? && (s.due.e.MethodContextClosed? || s.due.e.WsgiClose?)) then
      done == [] && stop == None
    else if s.due.End? && s.due.e.InitAux? then
      s.due.e.i < |s.others| && stop == None && done == Eligible(s.others, s.handling, s.due.e.i)
    else if s.due.End? && s.due.e.RunAux? then
      && s.due.e.i < |s.others| && (!s.handling || s.others[s.due.e.i])
      && stop == None && done == Eligible(s.others, s.handling, s.due.e.i)
    else if stop == None then done == Eligible(s.others, s.handling, |s.others|)
    else stop.value <= |s.others| && done == Eligible(s.others, s.handling, stop.value)
  }

  lemma AuxEnd(s: State, e: EndEvent, o: Outcome, done: seq<nat>, stop: Option<nat>)
    requires s.due == End(e) && AuxInv(s, done, stop)
    ensures AuxInv(StepEnd(s, e, o), done + (if e.RunAux? then [e.i] else []),
      if e.InitAux? && !o.kind.Done? then Some(e.i) else if e.RunAux? && !o.kind.Done? then Some(e.i + 1) else stop)
  {
  }

  lemma AuxEarlier(c: Config, s: State, o: Outcome, done: seq<nat>, stop: Option<nat>)
    requires !s.due.End? && !s.due.Over? && !s.due.Raised? && AuxInv(s, done, stop)
    ensures AuxInv(Step(c, s, o), done, stop)
  {
    hide Eligible;
    var t := s.(reply := Touch(s.reply, o));
    match s.due
    case Read(e) => AuxRead(t, e, o);
    case Call(e) => assert !Started(StepCall(t, e, o).due);
    case Turn(e) => assert !Started(StepTurn(c, t, e, o).due);
    case Write(e) => assert !Started(StepWrite(c, t, e, o).due);
    case Pack(e) => assert !Started(StepPack(c, t, e, o).due);
    case StartResponse(_) => AuxStart(t, o);
  }

  lemma AuxRead(s: State, e: ReadEvent, o: Outcome)
    ensures !Started(StepRead(s, e, o).due)
  {
  }

  lemma AuxStart(s: State, o: Outcome)
    ensures AuxInv(StepStart(s, o), [], None)
  {
  }

  lemma {:induction false} AuxAlways(c: Config, log: Log)
    requires Runs(c, log).Some?
    ensures AuxInv(Runs(c, log).value, AuxRuns(log), AuxStop(log))
  {
    hide StepRead, StepCall, StepTurn, StepWrite, StepPack, StepStart, StepEnd, AuxInv;
    if log == [] {
      AuxBegins();
    } else {
      var front := log[..|log| - 1];
      var (e, o) := log[|log| - 1];
      AuxAlways(c, front);
      var s := Runs(c, front).value;
      if e.End? {
        AuxTouched(s, o, AuxRuns(front), AuxStop(front));
        AuxEnd(s.(reply := Touch(s.reply, o)), e.e, o, AuxRuns(front), AuxStop(front));
      } else {
        AuxEarlier(c, s, o, AuxRuns(front), AuxStop(front));
        assert AuxRuns(log) == AuxRuns(front) && AuxStop(log) == AuxStop(front);
      }
    }
  }

  lemma AuxBegins()
    ensures AuxInv(Begin(), [], None)
  {
  }

  lemma AuxTouched(s: State, o: Outcome, done: seq<nat>, stop: Option<nat>)
    requires AuxInv(s, done, stop)
    ensures AuxInv(s.(reply := Touch(s.reply, o)), done, stop)
  {
  }

  /** In a run that returns, the auxiliary methods that ran are exactly the eligible ones, each once and in
      order, up to the first that failed. */
  lemma AuxiliariesExactly(c: Config, log: Log)
    requires Returned(c, log)
    ensures
      var k := Sum(log);
      var n := if AuxStop(log) == None then |k.others| else AuxStop(log).value;
      n <= |k.others| && AuxRuns(log) == Eligible(k.others, k.errors == 1, n)
  {
    hide Runs, Sum, Eligible;
    InvAlways(c, log);
    AuxAlways(c, log);
  }
}
