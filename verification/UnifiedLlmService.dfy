/**
 * The browser-side switch between the local model and the server: a mode,
 * remembered in local storage, picks the service a message goes to, and a
 * failing local model falls back to the server once.
 *
 * Local storage is the field `stored` (the saved preference, if any) and
 * the outcome of reading it; the two services are function parameters from
 * the request to what they return.
 */
module UnifiedLlmService {
  import opened Js
  import opened LocalLlmService

  datatype Mode = LocalMode | ServerMode

  /** The text a mode is saved as. */
  function ModeName(m: Mode): string {
    match m
    case LocalMode => "local"
    case ServerMode => "server"
  }

  /** The mode a saved preference selects: only "server" and "local" are honoured. */
  function LoadedMode(saved: Result<Option<string>, Thrown>): (m: Mode)
    ensures m == ServerMode <==> saved.Ok? && saved.value == Some("server")
  {
    if saved.Ok? && saved.value == Some("server") then ServerMode else LocalMode
  }

  /** A saved mode is loaded back as itself. */
  lemma SavedModeRoundTrip(m: Mode)
    ensures LoadedMode(Ok(Some(ModeName(m)))) == m
  {
  }

  /** Which service a message was sent to. */
  datatype Attempt = AskedLocal | AskedServer

  /** `testAllConnections`: each probe's result, and false for a probe that threw. */
  function TestAllConnections(localProbe: Result<bool, Thrown>, serverProbe: Result<bool, Thrown>)
    : (r: (bool, bool))
    ensures r.0 <==> localProbe.Ok? && localProbe.value
    ensures r.1 <==> serverProbe.Ok? && serverProbe.value
  {
    (localProbe.Ok? && localProbe.value, serverProbe.Ok? && serverProbe.value)
  }

  class UnifiedLLMService {
    var mode: Mode
    var stored: Option<string>

    /** Starts in local mode unless the saved preference reads exactly "server" (or "local"). */
    constructor (saved: Option<string>, readable: bool)
      ensures stored == saved
      ensures mode == LoadedMode(if readable then Ok(saved) else Fail(NonError))
      ensures mode == ServerMode <==> readable && saved == Some("server")
    {
      stored := saved;
      mode := LocalMode;
      if readable && (saved == Some("server") || saved == Some("local")) {
        mode := if saved == Some("server") then ServerMode else LocalMode;
      }
    }

    /** `setMode`: switches mode and saves it; a storage that rejects the write keeps its old value. */
    method SetMode(m: Mode, writable: bool)
      modifies this
      ensures mode == m
      ensures writable ==> stored == Some(ModeName(m))
      ensures !writable ==> stored == old(stored)
    {
      mode := m;
      if writable {
        stored := Some(ModeName(m));
      }
    }

    function GetMode(): (m: Mode)
      reads this
      ensures m == mode
    {
      mode
    }

    /**
     * `sendMessage`: asks the service of the current mode. In local mode a
     * failure is followed by exactly one server attempt, whose answer is
     * returned; if that fails too, the local error is rethrown. In server
     * mode a failure is rethrown as it is.
     */
    method SendMessage(
      request: ClientRequest,
      local: ClientRequest -> Result<ClientResponse, Thrown>,
      server: ClientRequest -> Result<ClientResponse, Thrown>)
      returns (r: Result<ClientResponse, Thrown>, attempts: seq<Attempt>)
      ensures mode == ServerMode ==> r == server(request) && attempts == [AskedServer]
      ensures mode == LocalMode && local(request).Ok? ==> r == local(request) && attempts == [AskedLocal]
      ensures mode == LocalMode && local(request).Fail? ==>
        && attempts == [AskedLocal, AskedServer]
        && (server(request).Ok? ==> r == server(request))
        && (server(request).Fail? ==> r == local(request))
    {
      if mode == LocalMode {
        r := local(request);
        attempts := [AskedLocal];
        if r.Fail? {
          var fallback := server(request);
          attempts := attempts + [AskedServer];
          if fallback.Ok? {
            r := fallback;
          }
        }
      } else {
        r := server(request);
        attempts := [AskedServer];
      }
    }

    /** `testConnection`: the probe of the current mode, false when it throws. */
    function TestConnection(localProbe: Result<bool, Thrown>, serverProbe: Result<bool, Thrown>): (ok: bool)
      reads this
      ensures mode == LocalMode ==> (ok <==> localProbe.Ok? && localProbe.value)
      ensures mode == ServerMode ==> (ok <==> serverProbe.Ok? && serverProbe.value)
    {
      var probe := if mode == LocalMode then localProbe else serverProbe;
      probe.Ok? && probe.value
    }
  }

  /** A message fails in local mode only when both services fail, and then with the local error. */
  method LocalModeFailsOnlyIfBothFail(
    service: UnifiedLLMService, request: ClientRequest,
    local: ClientRequest -> Result<ClientResponse, Thrown>,
    server: ClientRequest -> Result<ClientResponse, Thrown>)
    returns (r: Result<ClientResponse, Thrown>)
    requires service.mode == LocalMode
    ensures r.Fail? <==> local(request).Fail? && server(request).Fail?
    ensures r.Fail? ==> r.error == local(request).error
  {
    var attempts;
    r, attempts := service.SendMessage(request, local, server);
  }

  /** The mode chosen with `setMode` is the one a later session starts in. */
  method ModeSurvivesReload(service: UnifiedLLMService, m: Mode) returns (reloaded: UnifiedLLMService)
    modifies service
    ensures reloaded.mode == m && service.mode == m
  {
    service.SetMode(m, true);
    reloaded := new UnifiedLLMService(service.stored, true);
  }
}
