/** The JSON-RPC server of the language server (internal/lsp/jsonrpc2/server.go and
    handlers.go): the main loop that reads one request at a time and decides what becomes of
    it, the lifecycle of the "Lifecycle Messages" of the Language Server Protocol 3.17
    (initialize, initialized, shutdown, exit), the table of running requests and
    `$/cancelRequest` from its "Cancellation Support".

    The connection, JSON decoding and the initializer are given to the model: a request
    arrives already read (or as a read error), decoding is a function of the raw params, and
    the initializer a function from the root path to an optional error. Request handlers run
    in goroutines in the code; here starting one is recorded, and `Finish` is the end of its
    goroutine. What a request handler does and the goroutine that writes queued responses are
    not part of this model. */
module Jsonrpc2 {
  import opened Wrappers
  import Protocol

  type Bytes = seq<bv8>

  /** The handlers the server can be given: the three lifecycle handlers of handlers.go and
      the request handlers of the rest of the server, told apart by a name. */
  datatype Handler = InitializeHandler | InitializedHandler | ShutdownHandler | RequestHandler(name: string)

  /** What the server is given when it is created. `decodeInit` yields the root path of an
      initialize request, `decodeCancel` the id of a cancel request, `decodeParams` whether
      `DecodeParams` accepts the params of a request handler's method; `capabilities` is the
      outcome of marshalling the initialize response. */
  datatype Env = Env(initializer: string -> Option<string>, capabilities: Result<Bytes>,
                     decodeInit: Bytes -> Option<string>, decodeCancel: Bytes -> Option<int>,
                     decodeParams: (string, Option<Bytes>) -> bool)

  /** The server's state: the handler tables, the lifecycle flags, the ids of running requests,
      and what has been observed so far: the ids whose cancel function was called, the
      responses written to the connection and those put on the response queue, the root paths
      the initializer was called with, the request handlers started, and whether a handler
      crashed the process. */
  datatype State = State(lifecycle: map<string, Handler>, handlers: map<string, Handler>,
                         isInitialized: bool, isShutdown: bool, active: set<int>,
                         cancelled: seq<int>, written: seq<Protocol.Response>, queued: seq<Protocol.Response>,
                         initCalls: seq<string>, started: seq<(string, int)>, crashed: bool)

  /** The state `NewServer` creates. */
  const Initial: State := State(map[], map[], false, false, {}, [], [], [], [], [], false)

  const Exit: string := "exit"
  const Initialize: string := "initialize"
  const CancelRequest: string := "$/cancelRequest"

  // The messages of the error responses the main loop writes.
  const InitializerFailed: string := "error calling initializer"
  const MissingInitParams: string := "initialize request missing params"
  const InitDecodeFailed: string := "initialize request decode error"
  const NotReady: string := "received request after shutdown"
  const ConvertFailed: string := "error converting request to "

  /** The record a request handler's params are decoded into, for the methods whose params
      the main loop decodes. */
  function ParamsRecord(name: string): Option<string> {
    if name == "textDocument/didOpen" then Some("DidOpenRequest")
    else if name == "textDocument/didChange" then Some("DidChangeRequest")
    else if name == "textDocument/didClose" then Some("DidCloseRequest")
    else if name == "textDocument/hover" then Some("HoverRequest")
    else if name == "textDocument/diagnostic" then Some("DiagnosticRequest")
    else None
  }

  /** What the main loop does with one request. */
  datatype Action =
    | Stop                                  // `exit`: the loop returns
    | InitializeMissingParams               // an InvalidParams error, the handler is not called
    | InitializeDecodeError                 // likewise, for params that do not decode
    | RunLifecycle(rootPath: Option<string>) // the lifecycle handler runs, with the root path for `initialize`
    | RejectNotReady                        // an InvalidRequest error: before `initialized` or after `shutdown`
    | Cancel                                // `$/cancelRequest`
    | ParamsError(record: string)           // an InvalidParams error on the response queue
    | Start                                 // the request handler starts
    | Unhandled                             // no handler: no response at all

  /** The dispatch decision of the main loop of `ListenAndServe`. */
  function Decide(s: State, env: Env, req: Protocol.Request): Action {
    if req.name == Exit then Stop
    else if req.name in s.lifecycle then
      if req.name != Initialize then RunLifecycle(None)
      else if req.params.None? then InitializeMissingParams
      else
        var p := env.decodeInit(req.params.value);
        if p.None? then InitializeDecodeError else RunLifecycle(Some(p.value))
    else if !s.isInitialized || s.isShutdown then RejectNotReady
    else if req.name == CancelRequest then Cancel
    else if req.name in s.handlers then
      var rec := ParamsRecord(req.name);
      if rec.Some? && !env.decodeParams(req.name, req.params) then ParamsError(rec.value) else Start
    else Unhandled
  }

  /** What a lifecycle handler does when the main loop runs it for request `id`. */
  function RunHandler(s: State, env: Env, h: Handler, rootPath: Option<string>, id: int): State {
    match h
    case InitializeHandler =>
      if rootPath.None? then s.(crashed := true)
      else
        var s1 := s.(initCalls := s.initCalls + [rootPath.value]);
        if env.initializer(rootPath.value).Some? then
          s1.(written := s1.written + [Protocol.NewResponseError(id, Protocol.ResponseError(Protocol.ErrorCodeInternalError, InitializerFailed))])
        else if env.capabilities.Err? then s1
        else s1.(written := s1.written + [Protocol.NewResponse(id, env.capabilities.value)])
    case InitializedHandler => s.(isInitialized := true)
    case ShutdownHandler => s.(isShutdown := true, written := s.written + [Protocol.NewResponse(id, [])])
    case RequestHandler(_) => s
  }

  /** `Cancel`: the cancel function of a running request is called and the request leaves
      the table; params that are missing or do not decode, or an id that is not running,
      change nothing. */
  function CancelState(s: State, env: Env, req: Protocol.Request): State {
    if req.params.None? then s
    else
      var id := env.decodeCancel(req.params.value);
      if id.None? || id.value !in s.active then s
      else s.(cancelled := s.cancelled + [id.value], active := s.active - {id.value})
  }

  /** The state after the main loop has handled one request. */
  function Next(s: State, env: Env, req: Protocol.Request): State {
    match Decide(s, env, req)
    case Stop => s
    case InitializeMissingParams =>
      s.(written := s.written + [Protocol.NewResponseError(req.id, Protocol.ResponseError(Protocol.ErrorCodeInvalidParams, MissingInitParams))])
    case InitializeDecodeError =>
      s.(written := s.written + [Protocol.NewResponseError(req.id, Protocol.ResponseError(Protocol.ErrorCodeInvalidParams, InitDecodeFailed))])
    case RunLifecycle(rootPath) => RunHandler(s, env, s.lifecycle[req.name], rootPath, req.id)
    case RejectNotReady =>
      s.(written := s.written + [Protocol.NewResponseError(req.id, Protocol.ResponseError(Protocol.ErrorCodeInvalidRequest, NotReady))])
    case Cancel => CancelState(s, env, req)
    case ParamsError(record) =>
      s.(active := s.active + {req.id},
         queued := s.queued + [Protocol.NewResponseError(req.id, Protocol.ResponseError(Protocol.ErrorCodeInvalidParams, ConvertFailed + record))])
    case Start => s.(active := s.active + {req.id}, started := s.started + [(req.name, req.id)])
    case Unhandled => s
  }

  /** The outcome of the main loop over a stream of reads (`None` for a read error): where it
      stopped, and whether it stopped at `exit`. A crash ends the loop too. */
  datatype Outcome = Outcome(state: State, exited: bool, consumed: nat)

  /** The main loop from read `i` on. */
  function RunFrom(s: State, env: Env, input: seq<Option<Protocol.Request>>, i: nat): (o: Outcome)
    requires i <= |input|
    ensures i <= o.consumed <= |input|
    decreases |input| - i
  {
    if i == |input| || s.crashed then Outcome(s, false, i)
    else if input[i].None? then RunFrom(s, env, input, i + 1)
    else if Decide(s, env, input[i].value) == Stop then Outcome(s, true, i + 1)
    else RunFrom(Next(s, env, input[i].value), env, input, i + 1)
  }

  /** `exit` ends the loop in every state, with nothing written. */
  lemma ExitStops(s: State, env: Env, req: Protocol.Request)
    requires req.name == Exit
    ensures Decide(s, env, req) == Stop && Next(s, env, req) == s
  {
  }

  /** Registered lifecycle methods are dispatched before the gate: their handler runs (or,
      for `initialize` without usable params, an InvalidParams error is written) whatever
      the lifecycle flags. */
  lemma LifecycleBeforeGate(s: State, env: Env, req: Protocol.Request)
    requires req.name != Exit && req.name in s.lifecycle
    ensures Decide(s, env, req).RunLifecycle? || Decide(s, env, req).InitializeMissingParams? || Decide(s, env, req).InitializeDecodeError?
    ensures !Decide(s, env, req).RunLifecycle? ==>
              && req.name == Initialize
              && Next(s, env, req).initCalls == s.initCalls
              && |Next(s, env, req).written| == |s.written| + 1
              && Next(s, env, req).written[|s.written|].error.value.code == Protocol.ErrorCodeInvalidParams
    ensures req.name == Initialize && req.params.None? ==> Decide(s, env, req) == InitializeMissingParams
  {
  }

  /** Before `initialized` and after `shutdown`, every request that is neither `exit` nor a
      registered lifecycle method is answered with an InvalidRequest error and goes no further. */
  lemma GateRejects(s: State, env: Env, req: Protocol.Request)
    requires req.name != Exit && req.name !in s.lifecycle
    requires !s.isInitialized || s.isShutdown
    ensures var t := Next(s, env, req);
            && t == s.(written := s.written + [t.written[|s.written|]])
            && t.written[|s.written|].id == req.id
            && t.written[|s.written|].error.Some?
            && t.written[|s.written|].error.value.code == Protocol.ErrorCodeInvalidRequest
  {
  }

  /** `$/cancelRequest` is handled after the gate and never starts a request handler, even
      when one is registered under that name. */
  lemma CancelNeverDispatched(s: State, env: Env, req: Protocol.Request)
    requires req.name == CancelRequest && req.name !in s.lifecycle
    ensures Next(s, env, req).started == s.started
    ensures s.isInitialized && !s.isShutdown ==> Next(s, env, req) == CancelState(s, env, req)
  {
  }

  /** A request handler starts only when the server is initialized and not shut down, and
      its id is then in the table of running requests. */
  lemma StartOnlyWhenReady(s: State, env: Env, req: Protocol.Request)
    ensures |Next(s, env, req).started| > |s.started| ==>
              && s.isInitialized && !s.isShutdown && req.name in s.handlers
              && req.name != CancelRequest && req.name !in s.lifecycle
              && Next(s, env, req).started == s.started + [(req.name, req.id)]
              && req.id in Next(s, env, req).active
  {
    NextStarted(s, env, req);
  }

  /** Only the `Start` decision adds to the started request handlers, and it records the
      request as running. */
  lemma NextStarted(s: State, env: Env, req: Protocol.Request)
    ensures Next(s, env, req).started == if Decide(s, env, req).Start? then s.started + [(req.name, req.id)] else s.started
    ensures Decide(s, env, req).Start? ==> req.id in Next(s, env, req).active
  {
    var a := Decide(s, env, req);
    if a.RunLifecycle? {
      RunHandlerKeeps(s, env, s.lifecycle[req.name], a.rootPath, req.id);
    }
  }

  /** A method with neither a lifecycle nor a request handler, once the server is ready,
      gets no response at all. */
  lemma UnhandledIsSilent(s: State, env: Env, req: Protocol.Request)
    requires req.name != Exit && req.name != CancelRequest
    requires req.name !in s.lifecycle && req.name !in s.handlers
    requires s.isInitialized && !s.isShutdown
    ensures Next(s, env, req) == s
  {
  }

  /** The lifecycle only moves forward: once initialized or shut down, a server stays so. */
  lemma LifecycleMonotone(s: State, env: Env, req: Protocol.Request)
    ensures var t := Next(s, env, req);
            && (s.isInitialized ==> t.isInitialized)
            && (s.isShutdown ==> t.isShutdown)
            && t.lifecycle == s.lifecycle && t.handlers == s.handlers
  {
    var a := Decide(s, env, req);
    if a.RunLifecycle? {
      RunHandlerKeeps(s, env, s.lifecycle[req.name], a.rootPath, req.id);
    }
  }

  lemma RunHandlerKeeps(s: State, env: Env, h: Handler, rootPath: Option<string>, id: int)
    ensures var t := RunHandler(s, env, h, rootPath, id);
            && (s.isInitialized ==> t.isInitialized)
            && (s.isShutdown ==> t.isShutdown)
            && t.lifecycle == s.lifecycle && t.handlers == s.handlers
            && t.active == s.active && t.started == s.started
  {
  }

  /** After `shutdown` has been handled, no request handler ever starts again, whatever
      arrives; the loop still stops at `exit`. */
  lemma {:induction false} NoStartAfterShutdown(s: State, env: Env, input: seq<Option<Protocol.Request>>, i: nat)
    requires i <= |input| && s.isShutdown
    ensures RunFrom(s, env, input, i).state.started == s.started
    ensures RunFrom(s, env, input, i).state.isShutdown
    decreases |input| - i
  {
    if i < |input| && !s.crashed && input[i].Some? && Decide(s, env, input[i].value) != Stop {
      StartOnlyWhenReady(s, env, input[i].value);
      LifecycleMonotone(s, env, input[i].value);
      NoStartAfterShutdown(Next(s, env, input[i].value), env, input, i + 1);
    } else if i < |input| && !s.crashed && input[i].None? {
      NoStartAfterShutdown(s, env, input, i + 1);
    }
  }

  /** `Cancel` of a running request calls its cancel function once and removes it; of an id
      that is not running, it changes nothing. */
  lemma CancelSpec(s: State, env: Env, req: Protocol.Request)
    requires req.params.Some? && env.decodeCancel(req.params.value).Some?
    ensures var id := env.decodeCancel(req.params.value).value;
            var t := CancelState(s, env, req);
            && (id in s.active ==> t.cancelled == s.cancelled + [id] && t.active == s.active - {id} && id !in t.active)
            && (id !in s.active ==> t == s)
  {
  }

  /** `Server`: the state of the main loop. */
  class Server {
    var lifecycleHandlers: map<string, Handler>
    var handlers: map<string, Handler>
    var isInitialized: bool
    var isShutdown: bool
    var active: set<int>
    var cancelled: seq<int>
    var written: seq<Protocol.Response>
    var queued: seq<Protocol.Response>
    var initCalls: seq<string>
    var started: seq<(string, int)>
    var crashed: bool
    const env: Env

    function Snapshot(): State
      reads this
    {
      State(lifecycleHandlers, handlers, isInitialized, isShutdown, active, cancelled, written, queued, initCalls, started, crashed)
    }

    constructor (env: Env)
      ensures Snapshot() == Initial && this.env == env
    {
      lifecycleHandlers := map[];
      handlers := map[];
      isInitialized := false;
      isShutdown := false;
      active := {};
      cancelled := [];
      written := [];
      queued := [];
      initCalls := [];
      started := [];
      crashed := false;
      this.env := env;
    }

    /** `HandleLifecycle`: register (or replace) the handler of a lifecycle method. */
    method HandleLifecycle(name: string, h: Handler)
      modifies this
      ensures Snapshot() == old(Snapshot()).(lifecycle := old(lifecycleHandlers)[name := h])
    {
      lifecycleHandlers := lifecycleHandlers[name := h];
    }

    /** `HandleRequest`: register (or replace) the handler of a request method. */
    method HandleRequest(name: string, h: Handler)
      modifies this
      ensures Snapshot() == old(Snapshot()).(handlers := old(handlers)[name := h])
    {
      handlers := handlers[name := h];
    }

    /** `endRequest`, at the end of a request handler's goroutine: the id leaves the table. */
    method Finish(id: int)
      modifies this
      ensures Snapshot() == old(Snapshot()).(active := old(active) - {id})
    {
      active := active - {id};
    }

    /** `Server.Cancel`. */
    method CancelReq(req: Protocol.Request)
      modifies this
      ensures Snapshot() == CancelState(old(Snapshot()), env, req)
    {
      if req.params.None? {
        return;
      }
      var id := env.decodeCancel(req.params.value);
      if id.None? {
        return;
      }
      if id.value in active {
        cancelled := cancelled + [id.value];
        active := active - {id.value};
      }
    }

    /** The handler returned by `Initialize`, `Initialized` or `Shutdown`, run for request `id`. */
    method Run(h: Handler, rootPath: Option<string>, id: int)
      modifies this
      ensures Snapshot() == RunHandler(old(Snapshot()), env, h, rootPath, id)
    {
      match h
      case InitializeHandler =>
        if rootPath.None? {
          crashed := true;
          return;
        }
        initCalls := initCalls + [rootPath.value];
        var err := env.initializer(rootPath.value);
        if err.Some? {
          written := written + [Protocol.NewResponseError(id, Protocol.ResponseError(Protocol.ErrorCodeInternalError, InitializerFailed))];
          return;
        }
        if env.capabilities.Err? {
          return;
        }
        written := written + [Protocol.NewResponse(id, env.capabilities.value)];
      case InitializedHandler =>
        isInitialized := true;
      case ShutdownHandler =>
        isShutdown := true;
        written := written + [Protocol.NewResponse(id, [])];
      case RequestHandler(_) =>
    }

    /** One turn of the main loop of `ListenAndServe` for a request that was read; `stop` is
        set for `exit`. */
    method Step(req: Protocol.Request) returns (stop: bool)
      modifies this
      ensures stop <==> Decide(old(Snapshot()), env, req) == Stop
      ensures Snapshot() == Next(old(Snapshot()), env, req)
    {
      if req.name == Exit {
        return true;
      }
      stop := false;
      if req.name in lifecycleHandlers {
        var rootPath: Option<string> := None;
        if req.name == Initialize {
          if req.params.None? {
            written := written + [Protocol.NewResponseError(req.id, Protocol.ResponseError(Protocol.ErrorCodeInvalidParams, MissingInitParams))];
            return;
          }
          var p := env.decodeInit(req.params.value);
          if p.None? {
            written := written + [Protocol.NewResponseError(req.id, Protocol.ResponseError(Protocol.ErrorCodeInvalidParams, InitDecodeFailed))];
            return;
          }
          rootPath := Some(p.value);
        }
        Run(lifecycleHandlers[req.name], rootPath, req.id);
        return;
      }
      if !isInitialized || isShutdown {
        written := written + [Protocol.NewResponseError(req.id, Protocol.ResponseError(Protocol.ErrorCodeInvalidRequest, NotReady))];
        return;
      }
      if req.name == CancelRequest {
        CancelReq(req);
        return;
      }
      if req.name in handlers {
        active := active + {req.id};
        var rec := ParamsRecord(req.name);
        if rec.Some? && !env.decodeParams(req.name, req.params) {
          queued := queued + [Protocol.NewResponseError(req.id, Protocol.ResponseError(Protocol.ErrorCodeInvalidParams, ConvertFailed + rec.value))];
          return;
        }
        started := started + [(req.name, req.id)];
        return;
      }
    }

    /** `ListenAndServe` over a stream of input: read errors are skipped, `exit` ends the loop,
        and so does a handler that crashes the process. */
    method ListenAndServe(input: seq<Option<Protocol.Request>>) returns (exited: bool, consumed: nat)
      modifies this
      ensures Outcome(Snapshot(), exited, consumed) == RunFrom(old(Snapshot()), env, input, 0)
    {
      var i := 0;
      while i < |input|
        invariant 0 <= i <= |input|
        invariant RunFrom(Snapshot(), env, input, i) == RunFrom(old(Snapshot()), env, input, 0)
      {
        if crashed {
          return false, i;
        }
        if input[i].None? {
          i := i + 1;
          continue;
        }
        var stop := Step(input[i].value);
        if stop {
          return true, i + 1;
        }
        i := i + 1;
      }
      return false, i;
    }
  }

  /** `NewServer`: an error without a connection; otherwise a server that is neither
      initialized nor shut down, with empty handler tables and no running request. */
  method NewServer(hasConn: bool, env: Env) returns (r: Result<Server>)
    ensures !hasConn ==> r == Err("no connection")
    ensures hasConn ==> r.Ok? && fresh(r.value) && r.value.Snapshot() == Initial && r.value.env == env
  {
    if !hasConn {
      return Err("no connection");
    }
    var s := new Server(env);
    return Ok(s);
  }
}
