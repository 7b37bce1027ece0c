/** Setting up and unloading a config entry, the host normalisation setup
    applies, and the services the integration registers
    (custom_components/nanokvm/__init__.py). */
module Integration {
  import opened Common
  import opened Device
  import opened Coordinator

  // ---- Host normalisation ----

  /** The host names a scheme. */
  predicate HasScheme(host: string) {
    StartsWith(host, "http://") || StartsWith(host, "https://")
  }

  /** Appending to a string keeps its prefixes. */
  lemma StartsWithAppend(s: string, prefix: string, t: string)
    requires StartsWith(s, prefix)
    ensures StartsWith(s + t, prefix)
  {
    assert (s + t)[..|prefix|] == s[..|prefix|];
  }

  /** Appending a suffix makes the string end with it. */
  lemma EndsWithAppend(s: string, t: string)
    ensures EndsWith(s + t, t)
  {
    assert (s + t)[|s + t| - |t|..] == t;
  }

  /** The base URL handed to the client: "http://" is prepended when the host
      names no scheme, and "/api/" is appended unless the host already ends
      with it. A host ending in "/" gets "/api/" appended too: both branches of
      the conditional append the same text. */
  function NormalizeHost(host: string): (url: string)
    ensures HasScheme(url) && EndsWith(url, "/api/")
  {
    var h := if HasScheme(host) then host else "http://" + host;
    assert HasScheme(h) by {
      if !HasScheme(host) {
        assert ("http://" + host)[..|"http://"|] == "http://";
      }
    }
    if EndsWith(h, "/api/") then h
    else
      assert HasScheme(h + "/api/") && EndsWith(h + "/api/", "/api/") by {
        EndsWithAppend(h, "/api/");
        if StartsWith(h, "http://") {
          StartsWithAppend(h, "http://", "/api/");
        } else {
          StartsWithAppend(h, "https://", "/api/");
        }
      }
      if EndsWith(h, "/") then h + "/api/" else h + "/api/"
  }

  /** Normalisation only adds text: the host, behind "http://" when it named no
      scheme, is a prefix of the URL, so a host naming "https://" keeps it. */
  lemma NormalizeHostExtends(host: string)
    ensures HasScheme(host) ==> StartsWith(NormalizeHost(host), host)
    ensures !HasScheme(host) ==> StartsWith(NormalizeHost(host), "http://" + host)
    ensures StartsWith(host, "https://") ==> StartsWith(NormalizeHost(host), "https://")
    ensures |NormalizeHost(host)| <= |host| + |"http://"| + |"/api/"|
  {
    var h := if HasScheme(host) then host else "http://" + host;
    assert h[..|h|] == h;
    if !EndsWith(h, "/api/") {
      assert StartsWith(h, h);
      StartsWithAppend(h, h, "/api/");
    }
    if StartsWith(host, "https://") {
      assert NormalizeHost(host)[..|host|][..|"https://"|] == host[..|"https://"|];
    }
  }

  /** A URL is left unchanged exactly when it already names a scheme and ends
      with "/api/". */
  lemma NormalizeHostFixedPoints(host: string)
    ensures NormalizeHost(host) == host <==> HasScheme(host) && EndsWith(host, "/api/")
  {
    if NormalizeHost(host) == host {
      assert HasScheme(host) && EndsWith(host, "/api/");
    }
  }

  /** Normalising twice is normalising once. */
  lemma NormalizeHostIdempotent(host: string)
    ensures NormalizeHost(NormalizeHost(host)) == NormalizeHost(host)
  {
    NormalizeHostFixedPoints(NormalizeHost(host));
  }

  /** A host with a scheme that ends in "/" but not in "/api/" ends up with a
      doubled slash before "api/". */
  lemma TrailingSlashDoubled(host: string)
    requires HasScheme(host) && EndsWith(host, "/") && !EndsWith(host, "/api/")
    ensures NormalizeHost(host) == host + "/api/"
    ensures EndsWith(NormalizeHost(host), "//api/")
  {
    var url := host + "/api/";
    assert url[|url| - 6..] == [host[|host| - 1]] + "/api/";
    assert host[|host| - 1..] == "/";
  }

  /** A host without a scheme is normalised as if it had been given with
      "http://". */
  lemma SchemelessHost(host: string)
    requires !HasScheme(host)
    ensures NormalizeHost(host) == NormalizeHost("http://" + host)
  {
    assert StartsWith("http://" + host, "http://");
  }

  // ---- Service parameter validation ----

  const DefaultDuration: int := 100
  const MinDuration: int := 100
  const MaxDuration: int := 5000

  /** The service data `PUSH_BUTTON_SCHEMA` lets through. */
  datatype PushButtonData = PushButtonData(buttonType: string, duration: int)

  /** `PUSH_BUTTON_SCHEMA`: `button_type` is required and one of "power" and
      "reset"; `duration` defaults to 100 and must lie in [100, 5000]. */
  function PushButtonSchema(buttonType: Option<string>, duration: Option<int>): (r: Option<PushButtonData>)
    ensures r.Some? <==>
              && buttonType.Some? && (buttonType.value == "power" || buttonType.value == "reset")
              && (duration.None? || 100 <= duration.value <= 5000)
    ensures r.Some? ==> r.value.buttonType == buttonType.value
    ensures r.Some? ==> r.value.duration == if duration.Some? then duration.value else 100
  {
    match buttonType
    case None => None
    case Some(t) =>
      if t != "power" && t != "reset" then None
      else
        var d := duration.GetOr(DefaultDuration);
        if d < MinDuration || MaxDuration < d then None else Some(PushButtonData(t, d))
  }

  /** The GPIO line a button type names: "power" the power line, anything else
      the reset line. */
  function GpioFor(buttonType: string): (g: GpioType)
    ensures g == Power <==> buttonType == "power"
  {
    if buttonType == "power" then Power else Reset
  }

  /** A service call as Home Assistant hands it over, before validation. */
  datatype ServiceCall =
    | PushButtonCall(buttonType: Option<string>, duration: Option<int>)
    | PasteTextCall(text: Option<string>)
    | RebootCall
    | ResetHdmiCall
    | ResetHidCall
    | WakeOnLanCall(mac: Option<string>)

  /** The client call a service makes on each loaded device, or None when the
      service's schema rejects the call data. `push_button` sends the validated
      duration (100 ms when none is given); `paste_text` and `wake_on_lan`
      require their text and MAC address and send them on; the other three
      services take no data. */
  function ServiceAction(call: ServiceCall): (a: Option<Action>)
    ensures a.None? <==>
              || (call.PushButtonCall? && PushButtonSchema(call.buttonType, call.duration).None?)
              || (call.PasteTextCall? && call.text.None?)
              || (call.WakeOnLanCall? && call.mac.None?)
    ensures a.Some? && call.PushButtonCall? ==>
              a.value.PushButton? &&
              (a.value.gpio == Power <==> call.buttonType == Some("power")) &&
              (a.value.gpio == Reset <==> call.buttonType == Some("reset")) &&
              MinDuration <= a.value.duration <= MaxDuration
    ensures a.Some? && call.PushButtonCall? ==>
              a.value == PushButton(GpioFor(call.buttonType.value), call.duration.GetOr(DefaultDuration))
    ensures call.PasteTextCall? && call.text.Some? ==> a == Some(PasteText(call.text.value))
    ensures call.WakeOnLanCall? && call.mac.Some? ==> a == Some(SendWakeOnLan(call.mac.value))
  {
    match call
    case PushButtonCall(buttonType, duration) =>
      var data := PushButtonSchema(buttonType, duration);
      if data.None? then None else Some(PushButton(GpioFor(data.value.buttonType), data.value.duration))
    case PasteTextCall(text) => if text.Some? then Some(PasteText(text.value)) else None
    case RebootCall => Some(RebootSystem)
    case ResetHdmiCall => Some(ResetHdmi)
    case ResetHidCall => Some(ResetHid)
    case WakeOnLanCall(mac) => if mac.Some? then Some(SendWakeOnLan(mac.value)) else None
  }

  // ---- Setting up a config entry ----

  /** What `async_setup_entry` ends with: it returns False, it raises
      `ConfigEntryNotReady`, or the entry is loaded with the URL its client
      uses and the data of the first refresh. */
  datatype SetupResult = Rejected | NotReady | Loaded(url: string, data: DeviceState)

  /** The refresh state right after setup's own two calls: a token, those two
      calls, and a coordinator holding only the device information. */
  function SetupSession(username: string, password: string, info: DeviceInfo): Session {
    Session(true, [AuthCall(username, password), ReadCall(GetInfo)], Unread(info))
  }

  /** Setup on a new client: authenticate, read the device information, build
      the coordinator with it and run the first refresh. An authentication
      failure of either call rejects the entry, any other failure of them, or a
      failed first refresh, leaves it not ready. */
  function FirstSetup(script: seq<Reply>, host: string, username: string, password: string): SetupResult {
    var auth := ReplyAt(script, 0);
    var info := ReplyAt(script, 1);
    if auth.Fail? then (if auth.error == AuthFailure then Rejected else NotReady)
    else if info.Fail? then (if info.error == AuthFailure then Rejected else NotReady)
    else
      var first := Update(script, username, password, SetupSession(username, password, info.report.deviceInfo));
      if first.outcome.Success? then Loaded(NormalizeHost(host), first.outcome.data) else NotReady
  }

  /** Setup rejects the entry exactly when one of its two calls is refused as
      unauthenticated; it loads the entry exactly when both calls are answered
      and the first refresh succeeds, with a normalised URL and that refresh's
      data. */
  lemma SetupOutcomes(script: seq<Reply>, host: string, username: string, password: string)
    ensures var r := FirstSetup(script, host, username, password);
            && (r == Rejected <==>
                  ReplyAt(script, 0) == Fail(AuthFailure) ||
                  (ReplyAt(script, 0).Answer? && ReplyAt(script, 1) == Fail(AuthFailure)))
            && (r.Loaded? ==>
                  && ReplyAt(script, 0).Answer? && ReplyAt(script, 1).Answer?
                  && Update(script, username, password, SetupSession(username, password, ReplyAt(script, 1).report.deviceInfo)).outcome
                     == Success(r.data)
                  && HasScheme(r.url) && EndsWith(r.url, "/api/"))
            && (ReplyAt(script, 0).Answer? && ReplyAt(script, 1).Answer?
                && Update(script, username, password, SetupSession(username, password, ReplyAt(script, 1).report.deviceInfo)).outcome.Success?
                ==> r == Loaded(NormalizeHost(host),
                                Update(script, username, password,
                                       SetupSession(username, password, ReplyAt(script, 1).report.deviceInfo)).outcome.data))
  {
  }

  /** On a device that answers the two setup calls and then every read with
      the parts of one report, setup loads the entry with that report. */
  lemma SetupOnAnsweringDevice(script: seq<Reply>, host: string, username: string, password: string, d: DeviceState)
    requires forall j :: 0 <= j < 2 + ReadCount ==> ReplyAt(script, j) == Answer(d)
    ensures FirstSetup(script, host, username, password) == Loaded(NormalizeHost(host), d)
  {
    assert ReplyAt(script, 0) == Answer(d) && ReplyAt(script, 1) == Answer(d);
    CompleteRefresh(script, username, password, SetupSession(username, password, d.deviceInfo), d);
  }

  /** What `async_unload_entry` ends with. Popping an entry id that is not
      stored raises `KeyError`. */
  datatype UnloadResult = Unloaded | KeptLoaded | MissingEntry

  /** Whether the call on an entry's client raises. */
  function Raises(raises: set<string>): string -> bool {
    id => id in raises
  }

  /** A call a service handler makes on the client of one loaded entry. */
  datatype Dispatch = Dispatch(entryId: string, action: Action)

  /** `hass.data[DOMAIN]`: the ids of the loaded entries, in the order in which
      they were stored (the order in which the dictionary yields them). */
  class Domain {
    var entries: seq<string>

    predicate Valid()
      reads this
    {
      Distinct(entries)
    }

    constructor ()
      ensures entries == [] && Valid()
    {
      entries := [];
    }

    /** `hass.data[DOMAIN][entry_id] = coordinator`: a new id goes last, a
        stored one keeps its place. */
    method Put(id: string)
      requires Valid()
      modifies this
      ensures Valid()
      ensures entries == if id in old(entries) then old(entries) else old(entries) + [id]
    {
      if id !in entries {
        entries := entries + [id];
      }
    }

    /** `async_setup_entry` for entry `id`, on a new client whose replies are
        `script`; a loaded entry is stored in the domain data. */
    method SetupEntry(id: string, host: string, username: string, password: string, script: seq<Reply>)
      returns (r: SetupResult)
      requires Valid()
      modifies this
      ensures Valid()
      ensures r == FirstSetup(script, host, username, password)
      ensures entries == if r.Loaded? && id !in old(entries) then old(entries) + [id] else old(entries)
    {
      var url := NormalizeHost(host);
      var client := new Client(script, false);
      var auth := client.Authenticate(username, password);
      if auth.Fail? {
        r := if auth.error == AuthFailure then Rejected else NotReady;
        return;
      }
      var info := client.Fetch(GetInfo);
      if info.Fail? {
        r := if info.error == AuthFailure then Rejected else NotReady;
        return;
      }
      assert auth == ReplyAt(script, 0) && info == ReplyAt(script, 1);
      var coordinator := new DataUpdateCoordinator(client, username, password, info.report.deviceInfo);
      assert coordinator.State() == SetupSession(username, password, info.report.deviceInfo);
      var outcome := coordinator.UpdateData();
      if outcome.UpdateFailed? {
        r := NotReady;
        return;
      }
      Put(id);
      r := Loaded(url, outcome.data);
    }

    /** A service handler: the action goes to the client of every loaded entry,
        in order; a call that raises is logged (`failed`) and the loop goes on
        with the next entry. */
    method Broadcast(action: Action, raises: set<string>) returns (sent: seq<Dispatch>, failed: seq<string>)
      ensures |sent| == |entries|
      ensures forall i :: 0 <= i < |entries| ==> sent[i] == Dispatch(entries[i], action)
      ensures failed == Filter(entries, Raises(raises))
    {
      var ids := entries;
      sent, failed := [], [];
      var i := 0;
      while i < |ids|
        invariant 0 <= i <= |ids|
        invariant |sent| == i
        invariant forall k {:trigger sent[k]} :: 0 <= k < i ==> sent[k] == Dispatch(ids[k], action)
        invariant failed == Filter(ids[..i], Raises(raises))
      {
        var id := ids[i];
        sent := sent + [Dispatch(id, action)];
        FilterSnoc(ids, i, Raises(raises));
        if id in raises {
          failed := failed + [id];
        }
        i := i + 1;
      }
      assert ids[..i] == ids;
    }

    /** A service call: a call the schema rejects reaches no device; any other
        is broadcast to every loaded entry. */
    method HandleService(call: ServiceCall, raises: set<string>) returns (sent: seq<Dispatch>)
      ensures ServiceAction(call).None? ==> sent == []
      ensures ServiceAction(call).Some? ==>
                |sent| == |entries| &&
                forall i :: 0 <= i < |entries| ==> sent[i] == Dispatch(entries[i], ServiceAction(call).value)
    {
      var action := ServiceAction(call);
      if action.None? {
        sent := [];
      } else {
        var failed;
        sent, failed := Broadcast(action.value, raises);
      }
    }

    /** `async_unload_entry`: when the platforms unload, the entry's id is
        popped from the domain data. */
    method Unload(id: string, platformsUnloaded: bool) returns (r: UnloadResult)
      requires Valid()
      modifies this
      ensures Valid()
      ensures r == if !platformsUnloaded then KeptLoaded else if id in old(entries) then Unloaded else MissingEntry
      ensures r == Unloaded ==> entries == Filter(old(entries), e => e != id)
      ensures r != Unloaded ==> entries == old(entries)
    {
      if !platformsUnloaded {
        return KeptLoaded;
      }
      if id !in entries {
        return MissingEntry;
      }
      FilterDistinct(entries, e => e != id);
      entries := Filter(entries, e => e != id);
      r := Unloaded;
    }
  }
}
