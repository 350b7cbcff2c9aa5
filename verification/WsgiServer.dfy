/** The dispatcher of the WSGI server as it runs, with the fields of the primary method context. */
module WsgiServer {
  import opened Wrappers
  import opened RequestRun

  /** One request.  `outcomes` decides what every call out of the dispatcher does, by its place in the log. */
  class Request {
    const cfg: Config
    const outcomes: nat -> Outcome
    var log: Log
    var reply: Reply
    var inError: Option<Fault>
    var outError: Option<Fault>
    var others: seq<bool>
    /** Whether `handle_error` runs. */
    ghost var handling: bool

    constructor (cfg: Config, outcomes: nat -> Outcome)
      ensures log == [] && inError == None && outError == None && At(Read(WsgiCall))
    {
      this.cfg, this.outcomes := cfg, outcomes;
      log, reply, inError, outError, others, handling := [], Begin().reply, None, None, [], false;
    }

    ghost function Here(due: Event): State
      reads this
    {
      State(due, reply, handling, others)
    }

    /** The log is that of a run, in which `due` comes next. */
    ghost predicate At(due: Event)
      reads this
    {
      Runs(cfg, log) == Some(Here(due))
    }

    /** The run has come to state `s`. */
    ghost predicate Came(s: State)
      reads this
    {
      Runs(cfg, log) == Some(s)
    }

    /** Calls out: whatever is called may set the document, the text and the status of the reply. */
    method Fire(e: Event) returns (o: Outcome)
      requires At(e) && !e.Over? && !e.Raised?
      modifies this`log, this`reply
      ensures reply == Touch(old(reply), o)
      ensures Came(Step(cfg, old(Here(e)), o))
    {
      hide Step;
      o := outcomes(|log|);
      ghost var before := log;
      log := log + [(e, o)];
      assert log[..|log| - 1] == before;
      reply := Touch(reply, o);
    }

    /** An exception has ended the run. */
    ghost predicate Broke()
      reads this
    {
      Runs(cfg, log).Some? && Runs(cfg, log).value.due.Raised?
    }

    /** `handle_error` is next, to report fault `f`. */
    ghost predicate Failing(f: Fault)
      reads this
    {
      Came(Handle(cfg, Here(Raised), f))
    }

    // ---------- server/_base.py, application.py ----------

    /** A fault becomes `in_error` and `out_error`, and there are no auxiliary contexts then. */
    method GenerateContexts() returns (raised: bool)
      requires At(Read(CreateInDocument)) && inError.None? && outError.None? && !handling
      modifies this`log, this`reply, this`inError, this`outError, this`others
      ensures raised ==> Broke()
      ensures !raised ==> inError == outError
      ensures !raised ==> if inError.None? then At(Read(Deserialize)) else Failing(inError.value)
    {
      var o := Fire(Read(CreateInDocument));
      if o.kind.Done? {
        o := Fire(Read(Decompose));
        if o.kind.Done? {
          o := Fire(Read(GenerateMethodContexts));
          if o.kind.Done? {
            others := o.others;
          }
        }
      }
      if IsFault(o.kind) {
        raised := Blame(o.kind.f);
        inError := outError;
      } else {
        raised := o.kind.Crashed?;
      }
    }

    method GetInObject() returns (raised: bool)
      requires At(Read(Deserialize)) && inError.None? && outError.None? && !handling
      modifies this`log, this`reply, this`inError, this`outError
      ensures raised ==> Broke()
      ensures !raised ==> inError == outError
      ensures !raised ==> if inError.None? then At(Call(MethodCall)) else Failing(inError.value)
    {
      var o := Fire(Read(Deserialize));
      if IsFault(o.kind) {
        raised := Blame(o.kind.f);
        inError := outError;
      } else {
        raised := o.kind.Crashed?;
      }
    }

    /** Sets `out_error` and tells the listeners. */
    method Blame(f: Fault) returns (raised: bool)
      requires At(Turn(MethodExceptionObject(f))) && !handling
      modifies this`log, this`reply, this`outError
      ensures outError == Some(f)
      ensures if raised then Broke() else Failing(f)
    {
      outError := Some(f);
      var o := Fire(Turn(MethodExceptionObject(f)));
      raised := !o.kind.Done?;
    }

    /** A redirection is caught first, then a fault, then anything else. */
    method ProcessRequest() returns (raised: bool)
      requires At(Call(MethodCall)) && outError.None? && !handling
      modifies this`log, this`reply, this`outError
      ensures raised ==> Broke()
      ensures !raised ==> if outError.None? then At(Turn(FirstObject)) else Failing(outError.value)
    {
      var o := Fire(Call(MethodCall));
      if o.kind.Done? {
        o := Fire(Call(UserCode));
        if o.kind.Done? {
          o := Fire(Call(MethodReturnObject));
        }
      }
      match o.kind
      case Done =>
        raised := false;
      case Redirected(_) =>
        raised := Redirect();
      case Faulted(f) =>
        raised := Blame(f);
      case Crashed =>
        raised := Blame(ServerFault);
    }

    method Redirect() returns (raised: bool)
      requires At(Call(DoRedirect)) && outError.None? && !handling
      modifies this`log, this`reply, this`outError
      ensures raised ==> Broke()
      ensures !raised ==> if outError.None? then At(Turn(FirstObject)) else Failing(outError.value)
    {
      var o := Fire(Call(DoRedirect));
      if o.kind.Done? {
        o := Fire(Call(MethodRedirect));
      }
      if o.kind.Done? {
        return false;
      }
      outError := Some(ServerFault);
      o := Fire(Turn(MethodRedirectException));
      raised := !o.kind.Done?;
    }

    /** `get_out_string_pull` with `finalize_context` */
    method GetOutString() returns (raised: bool)
      requires At(Respond(cfg, handling, reply)) && handling == outError.Some?
      modifies this`log, this`reply
      ensures !raised ==> At(TextDone(cfg, handling)) && reply.text
      ensures raised ==> if handling then Broke() else Failing(ServerFault)
    {
      if reply.text {
        return false;
      }
      var o: Outcome;
      if !reply.document {
        o := Fire(Write(Serialize));
        if !o.kind.Done? {
          return true;
        }
      }
      raised := FinalizeContext();
    }

    method FinalizeContext() returns (raised: bool)
      requires At(Write(if handling then MethodExceptionDocument else MethodReturnDocument))
      requires handling == outError.Some?
      modifies this`log, this`reply
      ensures !raised ==> At(TextDone(cfg, handling)) && reply.text
      ensures raised ==> if handling then Broke() else Failing(ServerFault)
    {
      var o := Fire(Write(if outError.Some? then MethodExceptionDocument else MethodReturnDocument));
      if !o.kind.Done? {
        return true;
      }
      o := Fire(Write(CreateOutString));
      if !o.kind.Done? {
        return true;
      }
      o := Fire(Write(if outError.Some? then MethodExceptionString else MethodReturnString));
      if !o.kind.Done? {
        return true;
      }
      reply := reply.(text := true);
      return false;
    }

    // ---------- server/wsgi.py ----------

    /** `process_contexts`; exceptions end the loop and go no further. */
    method ProcessContexts(error: bool)
      requires At(HelpFrom(Here(Over), 0)) && error == handling
      modifies this`log, this`reply
      ensures At(Helped(Here(Over)))
    {
      hide Runs;
      var i := 0;
      while i < |others|
        invariant 0 <= i <= |others| && At(HelpFrom(Here(Over), i))
      {
        var failed := ProcessContext(i, error);
        if failed {
          return;
        }
        i := i + 1;
      }
    }

    method ProcessContext(i: nat, error: bool) returns (failed: bool)
      requires i < |others| && At(End(InitAux(i))) && error == handling
      modifies this`log, this`reply
      ensures At(if failed then Helped(Here(Over)) else HelpFrom(Here(Over), i + 1))
    {
      hide Runs;
      var o := Fire(End(InitAux(i)));
      if o.kind.Done? && (!error || others[i]) {
        o := Fire(End(RunAux(i)));
      }
      failed := !o.kind.Done?;
    }

    method Finalize() returns (raised: bool)
      requires At(End(MethodContextClosed))
      modifies this`log, this`reply
      ensures raised ==> Broke()
      ensures !raised ==> At(if handling then Over else HelpFrom(Here(Over), 0))
    {
      var o := Fire(End(MethodContextClosed));
      if !o.kind.Done? {
        return true;
      }
      o := Fire(End(WsgiClose));
      raised := !o.kind.Done?;
    }

    method Answer() returns (raised: bool)
      requires At(StartResponse(reply.code))
      modifies this`log, this`reply
      ensures raised ==> Broke()
      ensures !raised ==> At(if handling then HelpFrom(Here(Over), 0) else End(MethodContextClosed))
    {
      var o := Fire(StartResponse(reply.code));
      raised := !o.kind.Done?;
    }

    method HandleError(f: Fault) returns (raised: bool)
      requires Failing(f) && outError == Some(f)
      modifies this`log, this`reply, this`handling
      ensures if raised then Broke() else At(Over)
    {
      handling := true;
      if reply.code.None? {
        reply := reply.(code := Some(OfFault(f)));
      }
      raised := GetOutString();
      if raised {
        return;
      }
      var o := Fire(Pack(ListText));
      if !o.kind.Done? {
        return true;
      }
      o := Fire(Pack(WsgiException));
      if !o.kind.Done? {
        return true;
      }
      raised := Answer();
      if raised {
        return;
      }
      ProcessContexts(true);
      raised := Finalize();
    }

    /** The whole request: its log is a run of the state machine, to the end.  When it returns, the server
        was answered once, the context closed once, and user code called only for a request that was read. */
    method HandleRpc() returns (raised: bool)
      requires log == [] && At(Read(WsgiCall)) && inError.None? && outError.None? && !handling
      modifies this
      ensures if raised then Broke() else Returned(cfg, log)
      ensures !raised ==> Sum(log).starts == 1 && Sum(log).closes == 1
      ensures Sum(log).inFaults > 0 ==> Sum(log).uses == 0
    {
      raised := Run();
      if !raised {
        AnsweredOnce(cfg, log);
      }
      if Sum(log).inFaults > 0 {
        NoUseAfterInError(cfg, log);
      }
    }

    method Run() returns (raised: bool)
      requires log == [] && At(Read(WsgiCall)) && inError.None? && outError.None? && !handling
      modifies this
      ensures if raised then Broke() else At(Over)
    {
      var o := Fire(Read(WsgiCall));
      if !o.kind.Done? {
        return true;
      }
      o := Fire(Read(ReadRequest));
      if !o.kind.Done? {
        return true;
      }
      raised := GenerateContexts();
      if raised {
        return;
      }
      if inError.Some? {
        raised := HandleError(inError.value);
        return;
      }
      raised := GetInObject();
      if raised {
        return;
      }
      if inError.Some? {
        raised := HandleError(inError.value);
        return;
      }
      raised := ProcessRequest();
      if raised {
        return;
      }
      if outError.Some? {
        raised := HandleError(outError.value);
        return;
      }
      raised := Deliver();
    }

    /** The part of `handle_rpc` that deals with a result. */
    method Deliver() returns (raised: bool)
      requires At(Turn(FirstObject)) && outError.None? && !handling
      modifies this
      ensures if raised then Broke() else At(Over)
    {
      var o := Fire(Turn(FirstObject));
      if !o.kind.Done? {
        return true;
      }
      if o.generator {
        o := Fire(Turn(FirstYield));
        if !o.kind.Done? {
          return true;
        }
      }
      if reply.code.None? {
        reply := reply.(code := Some(Http200));
      }
      raised := GetOutString();
      if raised {
        outError := Some(ServerFault);
        raised := HandleError(ServerFault);
        return;
      }
      raised := PackAndAnswer();
    }

    method PackAndAnswer() returns (raised: bool)
      requires At(TextDone(cfg, false)) && !handling
      modifies this`log, this`reply
      ensures if raised then Broke() else At(Over)
    {
      var o: Outcome;
      if cfg.mtom {
        o := Fire(Pack(ApplyMtom));
        if !o.kind.Done? {
          return true;
        }
      }
      o := Fire(Pack(WsgiReturn));
      if !o.kind.Done? {
        return true;
      }
      if !cfg.chunked {
        o := Fire(Pack(JoinText));
        if !o.kind.Done? {
          return true;
        }
      }
      raised := Answer();
      if raised {
        return;
      }
      raised := Finalize();
      if raised {
        return;
      }
      ProcessContexts(false);
    }
  }
}
