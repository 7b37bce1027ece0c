/** Adding a NanoKVM to Home Assistant: the manual user step, zeroconf
    discovery with its default-credential probe, and the confirmation step
    (custom_components/nanokvm/config_flow.py).

    The device is the oracle of `Coordinator`: the n-th call of a fresh client
    is answered by `ReplyAt(script, n)`, the first being the authentication and
    the second `get_info`. The entries already configured are the snapshot the
    flow sees in `entries`. */
module ConfigFlow {
  import opened Common
  import opened Device
  import opened Coordinator
  import opened Integration

  const DefaultUsername := "admin"
  const DefaultPassword := "admin"

  const UserStep := "user"
  const ConfirmStep := "zeroconf_confirm"
  const AlreadyConfigured := "already_configured"

  // ---- Discovery probe ----

  /** The URL the discovery probe builds from the announced address, with no
      further normalisation. */
  function ProbeUrl(host: string): string {
    "http://" + host + "/api/"
  }

  /** For a bare address (no '/' in it, as an announced IP address is) the
      probe's URL is the one `normalize_host` gives for that same address. The
      flow itself stores the announced host name, not this address, so the
      entry's client may reach the device under another name. */
  lemma ProbeUrlIsSetupUrl(host: string)
    requires forall i :: 0 <= i < |host| ==> host[i] != '/'
    ensures ProbeUrl(host) == NormalizeHost(host)
  {
    assert !HasScheme(host) by {
      if 7 <= |host| {
        assert host[..7][5] == host[5] != '/';
      }
      if 8 <= |host| {
        assert host[..8][6] == host[6] != '/';
      }
    }
    var h := "http://" + host;
    assert !EndsWith(h, "/api/") by {
      if host == [] {
        assert h[|h| - 5..][0] == 't';
      } else {
        assert h[|h| - 5..][4] == h[|h| - 1] == host[|host| - 1] != '/';
      }
    }
  }

  /** `_async_get_nanokvm_device_info`: authenticate with the default
      credentials and read the device information. Any refusal or connection
      failure yields nothing; on success the device key identifies the device. */
  function Probe(script: seq<Reply>): (r: Option<DeviceInfo>)
    ensures r.None? <==> ReplyAt(script, 0).Fail? || ReplyAt(script, 1).Fail?
    ensures r.Some? ==> r.value == ReplyAt(script, 1).report.deviceInfo
  {
    var auth := ReplyAt(script, 0);
    var info := ReplyAt(script, 1);
    if auth.Fail? || info.Fail? then None else Some(info.report.deviceInfo)
  }

  // ---- Input validation ----

  /** Why validation failed: `CannotConnect`, `InvalidAuth`, or any other
      exception (a host that is missing or `None` raises one before any call). */
  datatype FlowError = CannotConnect | InvalidAuth | Unexpected

  /** The keys the user form shows for each error. */
  function ErrorKey(e: FlowError): (key: string)
    ensures e == CannotConnect <==> key == "cannot_connect"
    ensures e == InvalidAuth <==> key == "invalid_auth"
    ensures e == Unexpected <==> key == "unknown"
  {
    match e
    case CannotConnect => "cannot_connect"
    case InvalidAuth => "invalid_auth"
    case Unexpected => "unknown"
  }

  /** The dictionary `validate_input` returns. */
  datatype Info = Info(title: string, deviceKey: string, uniqueId: string)

  /** The URL `validate_input` gives its client: a second copy of the
      normalisation setup applies. */
  function ValidationUrl(host: string): string {
    var h := if StartsWith(host, "http://") || StartsWith(host, "https://") then host else "http://" + host;
    if EndsWith(h, "/api/") then h else if EndsWith(h, "/") then h + "/api/" else h + "/api/"
  }

  /** The entry is validated against the URL setup will use. */
  lemma ValidationUrlIsSetupUrl(host: string)
    ensures ValidationUrl(host) == NormalizeHost(host)
    ensures HasScheme(ValidationUrl(host)) && EndsWith(ValidationUrl(host), "/api/")
  {
  }

  /** The entry title. */
  function Title(mdns: string): string {
    "NanoKVM (" + mdns + ")"
  }

  /** `validate_input`: connect with the given credentials and read the device
      information. A refused call is an authentication failure, a failed one a
      connection failure. */
  function ValidateInput(host: Option<string>, script: seq<Reply>): (r: Result<Info, FlowError>)
    ensures r == Err(Unexpected) <==> host.None?
    ensures host.Some? ==>
              (r == Err(InvalidAuth) <==>
                 ReplyAt(script, 0) == Fail(AuthFailure) ||
                 (ReplyAt(script, 0).Answer? && ReplyAt(script, 1) == Fail(AuthFailure)))
    ensures host.Some? ==>
              (r == Err(CannotConnect) <==>
                 ReplyAt(script, 0) == Fail(CommFailure) ||
                 (ReplyAt(script, 0).Answer? && ReplyAt(script, 1) == Fail(CommFailure)))
    ensures r.Ok? <==> host.Some? && Probe(script).Some?
    ensures r.Ok? ==> var device := Probe(script).value;
                      r.value == Info(Title(device.mdns), device.deviceKey, device.deviceKey)
  {
    if host.None? then Err(Unexpected)
    else
      var url := ValidationUrl(host.value);
      var auth := ReplyAt(script, 0);
      var info := ReplyAt(script, 1);
      if auth.Fail? then Err(if auth.error == AuthFailure then InvalidAuth else CannotConnect)
      else if info.Fail? then Err(if info.error == AuthFailure then InvalidAuth else CannotConnect)
      else
        var device := info.report.deviceInfo;
        Ok(Info(Title(device.mdns), device.deviceKey, device.deviceKey))
  }

  // ---- Discovery announcements ----

  /** `name.split(".")[0]`: the text before the first dot. */
  function BeforeFirstDot(name: string): (first: string)
    ensures |first| <= |name| && first == name[..|first|]
    ensures forall i :: 0 <= i < |first| ==> first[i] != '.'
    ensures |first| < |name| ==> name[|first|] == '.'
  {
    if name == [] || name[0] == '.' then []
    else [name[0]] + BeforeFirstDot(name[1..])
  }

  /** What a zeroconf announcement carries that the flow reads; `id` is the
      "id" property, if announced. */
  datatype Discovery = Discovery(host: string, hostname: string, name: string, id: Option<string>)

  /** The unique id a discovery is configured under: the announced id, or else
      the first label of the service name. */
  function DiscoveryUniqueId(discovery: Discovery): string {
    discovery.id.GetOr(BeforeFirstDot(discovery.name))
  }

  // ---- Entries and steps ----

  /** A configured entry: its unique id and the "unique_id" stored in its data. */
  datatype ConfigEntry = ConfigEntry(title: string, uniqueId: Option<string>, dataUniqueId: Option<string>)

  predicate HasUniqueId(entries: seq<ConfigEntry>, id: string) {
    exists i :: 0 <= i < |entries| && entries[i].uniqueId == Some(id)
  }

  /** An entry the zeroconf step recognises: by unique id or by data. */
  predicate Recognises(entry: ConfigEntry, id: string) {
    entry.uniqueId == Some(id) || entry.dataUniqueId == Some(id)
  }

  /** Index `m` is the first entry the zeroconf step recognises. */
  predicate FirstRecognised(entries: seq<ConfigEntry>, id: string, m: int) {
    0 <= m < |entries| && Recognises(entries[m], id) &&
    forall k :: 0 <= k < m ==> !Recognises(entries[k], id)
  }

  /** The user form's fields, together with what the confirmation step adds
      when it forwards a discovery; `password` is `None` when not given. */
  datatype UserInput = UserInput(
    host: Option<string>,
    username: string,
    password: Option<string>,
    discoveredViaZeroconf: bool,
    zeroconfUniqueId: Option<string>)

  /** The data of a created entry. The keys the confirmation step does not set
      read as `false` and `None`. */
  datatype EntryData = EntryData(
    host: Option<string>,
    username: string,
    password: string,
    uniqueId: Option<string>,
    discoveredViaZeroconf: bool,
    zeroconfUniqueId: Option<string>)

  datatype FlowResult =
    | ShowForm(stepId: string, error: Option<string>)
    | CreateEntry(title: string, data: EntryData)
    | Abort(reason: string)

  /** The unique id the user step configures: the forwarded zeroconf id when it
      is present and not empty, otherwise the device key. */
  function UserUniqueId(input: UserInput, info: Info): string {
    if input.discoveredViaZeroconf && input.zeroconfUniqueId.Some? && input.zeroconfUniqueId.value != ""
    then input.zeroconfUniqueId.value
    else info.deviceKey
  }

  /** The entries after the zeroconf step recognised entry `m`: its unique id
      becomes `id` when it was another one. */
  function Adopted(entries: seq<ConfigEntry>, m: nat, id: string): seq<ConfigEntry>
    requires m < |entries|
  {
    if entries[m].uniqueId == Some(id) then entries
    else entries[m := entries[m].(uniqueId := Some(id))]
  }

  /** One config flow. */
  class Flow {
    var discoveredHost: Option<string>
    var discoveredName: Option<string>
    var discoveredDeviceKey: Option<string>
    var discoveredUniqueId: Option<string>
    var defaultAuthSuccessful: bool
    /** The flow's unique id, `None` until a step sets it. */
    var uniqueId: Option<string>
    var entries: seq<ConfigEntry>

    /** While the flow goes on, a successful default authentication means the
        discovered unique id is the flow's and no entry holds it yet. */
    predicate Valid()
      reads this
    {
      defaultAuthSuccessful ==>
        && discoveredUniqueId.Some?
        && uniqueId == discoveredUniqueId
        && !HasUniqueId(entries, uniqueId.value)
    }

    constructor (entries: seq<ConfigEntry>)
      ensures this.entries == entries && uniqueId.None?
      ensures discoveredHost.None? && discoveredName.None? && discoveredDeviceKey.None? && discoveredUniqueId.None?
      ensures !defaultAuthSuccessful && Valid()
    {
      discoveredHost := None;
      discoveredName := None;
      discoveredDeviceKey := None;
      discoveredUniqueId := None;
      defaultAuthSuccessful := false;
      uniqueId := None;
      this.entries := entries;
    }

    /** `_abort_if_unique_id_configured`: with a unique id set, look for an
        entry holding it. */
    method AbortIfUniqueIdConfigured() returns (abort: bool)
      ensures abort <==> uniqueId.Some? && HasUniqueId(entries, uniqueId.value)
    {
      if uniqueId.None? {
        return false;
      }
      var i := 0;
      while i < |entries|
        invariant 0 <= i <= |entries|
        invariant forall k :: 0 <= k < i ==> entries[k].uniqueId != uniqueId
      {
        if entries[i].uniqueId == uniqueId {
          return true;
        }
        i := i + 1;
      }
      return false;
    }

    /** `async_step_user`: without input, show the form; otherwise validate,
        show the error on the form, or configure the device under its unique
        id and create the entry unless an entry holds that id. */
    method StepUser(input: Option<UserInput>, script: seq<Reply>) returns (r: FlowResult)
      modifies this
      ensures entries == old(entries) && defaultAuthSuccessful == old(defaultAuthSuccessful)
      ensures discoveredHost == old(discoveredHost) && discoveredName == old(discoveredName)
      ensures discoveredDeviceKey == old(discoveredDeviceKey) && discoveredUniqueId == old(discoveredUniqueId)
      ensures input.None? ==> r == ShowForm(UserStep, None) && uniqueId == old(uniqueId)
      ensures input.Some? ==>
                var v := ValidateInput(input.value.host, script);
                && (v.Err? ==> r == ShowForm(UserStep, Some(ErrorKey(v.error))) && uniqueId == old(uniqueId))
                && (v.Ok? ==>
                      var id := UserUniqueId(input.value, v.value);
                      && uniqueId == Some(id)
                      && (HasUniqueId(entries, id) ==> r == Abort(AlreadyConfigured))
                      && (!HasUniqueId(entries, id) ==>
                            r == CreateEntry(v.value.title,
                                             EntryData(input.value.host, input.value.username,
                                                       input.value.password.GetOr(""), Some(id),
                                                       input.value.discoveredViaZeroconf,
                                                       input.value.zeroconfUniqueId))))
      ensures r.CreateEntry? ==> uniqueId.Some? && !HasUniqueId(entries, uniqueId.value)
      ensures old(Valid()) && r.ShowForm? ==> Valid()
    {
      if input.None? {
        return ShowForm(UserStep, None);
      }
      var user := input.value;
      var password := user.password.GetOr("");
      var v := ValidateInput(user.host, script);
      if v.Err? {
        return ShowForm(UserStep, Some(ErrorKey(v.error)));
      }
      var id;
      if user.discoveredViaZeroconf && user.zeroconfUniqueId.Some? && user.zeroconfUniqueId.value != "" {
        id := user.zeroconfUniqueId.value;
      } else {
        id := v.value.deviceKey;
      }
      uniqueId := Some(id);
      var abort := AbortIfUniqueIdConfigured();
      if abort {
        return Abort(AlreadyConfigured);
      }
      var data := EntryData(user.host, user.username, password, Some(id),
                            user.discoveredViaZeroconf, user.zeroconfUniqueId);
      return CreateEntry(v.value.title, data);
    }

    /** `async_step_zeroconf_confirm`: until submitted, show the confirmation
        form. After a successful default authentication, validate the default
        credentials again and create the entry, aborting on failure; otherwise
        hand the discovery to the user step to ask for credentials. */
    method StepZeroconfConfirm(submitted: bool, script: seq<Reply>) returns (r: FlowResult)
      requires Valid()
      modifies this
      ensures entries == old(entries)
      ensures !submitted ==> r == ShowForm(ConfirmStep, None) && unchanged(this)
      ensures submitted && defaultAuthSuccessful ==>
                var v := ValidateInput(discoveredHost, script);
                && unchanged(this)
                && (v == Err(CannotConnect) ==> r == Abort("cannot_connect"))
                && (v == Err(InvalidAuth) || v == Err(Unexpected) ==> r == Abort("unknown"))
                && (v.Ok? ==>
                      r == CreateEntry(v.value.title,
                                       EntryData(discoveredHost, DefaultUsername, DefaultPassword,
                                                 discoveredUniqueId, false, None)))
      ensures submitted && !old(defaultAuthSuccessful) ==>
                var v := ValidateInput(old(discoveredHost), script);
                && defaultAuthSuccessful == old(defaultAuthSuccessful)
                && discoveredHost == old(discoveredHost) && discoveredName == old(discoveredName)
                && discoveredDeviceKey == old(discoveredDeviceKey) && discoveredUniqueId == old(discoveredUniqueId)
                && (v.Err? ==> r == ShowForm(UserStep, Some(ErrorKey(v.error))) && uniqueId == old(uniqueId))
                && (v.Ok? ==>
                      var id := UserUniqueId(UserInput(old(discoveredHost), DefaultUsername, None, true,
                                                       old(discoveredUniqueId)), v.value);
                      && uniqueId == Some(id)
                      && (r.CreateEntry? <==> !HasUniqueId(entries, id))
                      && (r.CreateEntry? ==> r.data.password == "" && r.data.uniqueId == Some(id))
                      && (HasUniqueId(entries, id) ==> r == Abort(AlreadyConfigured))
                      && (!HasUniqueId(entries, id) ==>
                            r == CreateEntry(v.value.title,
                                             EntryData(old(discoveredHost), DefaultUsername, "", Some(id), true,
                                                       old(discoveredUniqueId)))))
      ensures r.CreateEntry? ==> uniqueId.Some? && !HasUniqueId(entries, uniqueId.value)
      ensures r.ShowForm? ==> Valid()
    {
      if !submitted {
        return ShowForm(ConfirmStep, None);
      }
      if defaultAuthSuccessful {
        var data := EntryData(discoveredHost, DefaultUsername, DefaultPassword, discoveredUniqueId, false, None);
        var v := ValidateInput(data.host, script);
        match v
        case Err(CannotConnect) => return Abort("cannot_connect");
        case Err(InvalidAuth) => return Abort("unknown");
        case Err(Unexpected) => return Abort("unknown");
        case Ok(info) => return CreateEntry(info.title, data);
      }
      r := StepUser(Some(UserInput(discoveredHost, DefaultUsername, None, true, discoveredUniqueId)), script);
    }

    /** `async_step_zeroconf`: probe the announced address with the default
        credentials and take the discovery's unique id. After a successful
        probe, the first entry recognised by unique id or by data ends the flow,
        and one recognised only by data adopts the unique id first; after a
        failed probe, an entry holding the unique id ends the flow. Otherwise
        the confirmation form is shown. */
    method StepZeroconf(discovery: Discovery, script: seq<Reply>) returns (r: FlowResult)
      modifies this
      ensures var id := DiscoveryUniqueId(discovery);
              && uniqueId == Some(id)
              && discoveredHost == Some(discovery.hostname)
              && discoveredUniqueId == Some(id)
              && (defaultAuthSuccessful <==> Probe(script).Some?)
              && (Probe(script).Some? ==> discoveredName == Some(Probe(script).value.mdns)
                                          && discoveredDeviceKey == Some(Probe(script).value.deviceKey))
              && (Probe(script).None? ==> discoveredName == Some(BeforeFirstDot(discovery.name))
                                          && discoveredDeviceKey == Some(id))
      ensures var id := DiscoveryUniqueId(discovery);
              Probe(script).Some? ==>
                && (forall m :: FirstRecognised(old(entries), id, m) ==>
                      r == Abort(AlreadyConfigured) && entries == Adopted(old(entries), m, id))
                && ((forall k :: 0 <= k < |old(entries)| ==> !Recognises(old(entries)[k], id)) ==>
                      r == ShowForm(ConfirmStep, None) && entries == old(entries))
      ensures var id := DiscoveryUniqueId(discovery);
              Probe(script).None? ==>
                && entries == old(entries)
                && (r == Abort(AlreadyConfigured) <==> HasUniqueId(entries, id))
                && (!HasUniqueId(entries, id) ==> r == ShowForm(ConfirmStep, None))
      ensures r.ShowForm? ==> Valid()
    {
      var name := BeforeFirstDot(discovery.name);
      var id := discovery.id.GetOr(name);
      var result := Probe(script);
      discoveredHost := Some(discovery.hostname);
      if result.Some? {
        var device := result.value;
        discoveredName := Some(device.mdns);
        discoveredDeviceKey := Some(device.deviceKey);
        discoveredUniqueId := Some(id);
        defaultAuthSuccessful := true;
        uniqueId := Some(id);
        var i := 0;
        while i < |entries|
          invariant 0 <= i <= |entries| && entries == old(entries)
          invariant forall k :: 0 <= k < i ==> !Recognises(entries[k], id)
        {
          if entries[i].uniqueId == Some(id) {
            assert FirstRecognised(entries, id, i);
            return Abort(AlreadyConfigured);
          }
          if entries[i].dataUniqueId == Some(id) {
            assert FirstRecognised(entries, id, i);
            ghost var m := i;
            if entries[i].uniqueId != Some(id) {
              entries := entries[i := entries[i].(uniqueId := Some(id))];
            }
            assert entries == Adopted(old(entries), m, id);
            return Abort(AlreadyConfigured);
          }
          i := i + 1;
        }
        var abort := AbortIfUniqueIdConfigured();
        if abort {
          return Abort(AlreadyConfigured);
        }
      } else {
        discoveredName := Some(name);
        discoveredDeviceKey := Some(id);
        discoveredUniqueId := Some(id);
        defaultAuthSuccessful := false;
        uniqueId := Some(id);
        var abort := AbortIfUniqueIdConfigured();
        if abort {
          return Abort(AlreadyConfigured);
        }
      }
      r := StepZeroconfConfirm(false, []);
    }
  }
}
