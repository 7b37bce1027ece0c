/** The switches of custom_components/nanokvm/switch.py: a table of
    descriptions, the setup loop that gives the power switch its own class,
    and what turning a switch on or off does, including the power switch's
    wait for the machine to shut down. */
module Switch {
  import opened Common
  import opened Device
  import opened Entities

  /** The `key` of each description. */
  datatype SwitchKey = Ssh | Mdns | VirtualNetworkKey | VirtualDiskKey | PowerKey

  function KeyName(k: SwitchKey): string {
    match k
    case Ssh => "ssh"
    case Mdns => "mdns"
    case VirtualNetworkKey => "virtual_network"
    case VirtualDiskKey => "virtual_disk"
    case PowerKey => "power"
  }

  /** The attribute `value_fn` reads. */
  function Value(k: SwitchKey): Flag {
    match k
    case Ssh => SshEnabled
    case Mdns => MdnsEnabled
    case VirtualNetworkKey => VirtualNetwork
    case VirtualDiskKey => VirtualDisk
    case PowerKey => GpioPower
  }

  /** The length in milliseconds of the power switch's button press. */
  const SwitchPress := 200

  /** The control call `turn_on_fn` makes. */
  function TurnOnAction(k: SwitchKey): Action {
    match k
    case Ssh => EnableSsh
    case Mdns => EnableMdns
    case VirtualNetworkKey => UpdateVirtualDevice(Network)
    case VirtualDiskKey => UpdateVirtualDevice(Disk)
    case PowerKey => PushButton(Power, SwitchPress)
  }

  /** The control call `turn_off_fn` makes. */
  function TurnOffAction(k: SwitchKey): Action {
    match k
    case Ssh => DisableSsh
    case Mdns => DisableMdns
    case VirtualNetworkKey => UpdateVirtualDevice(Network)
    case VirtualDiskKey => UpdateVirtualDevice(Disk)
    case PowerKey => PushButton(Power, SwitchPress)
  }

  /** No description sets `available_fn`: every switch gets the default. */
  function AvailableWhen(k: SwitchKey): Availability {
    Always
  }

  /** The order of the table. */
  const Switches: seq<SwitchKey> := [Ssh, Mdns, VirtualNetworkKey, VirtualDiskKey, PowerKey]

  lemma TableKeysDistinct()
    ensures DistinctKeys(Switches, KeyName)
  {
  }

  /** Only the power switch has the key "power". */
  lemma PowerKeyName(k: SwitchKey)
    ensures KeyName(k) == "power" <==> k == PowerKey
  {
  }

  /** `is_on`: the attribute the description names. */
  function IsOn(k: SwitchKey, d: DeviceState): bool {
    FlagValue(Value(k), d)
  }

  /** The two switch classes. */
  datatype SwitchEntity = PlainSwitch(key: SwitchKey) | PowerSwitch(key: SwitchKey)

  /** `available_fn` of each description, for one device. */
  function Keep(d: DeviceState): SwitchKey -> bool {
    (k: SwitchKey) => Available(AvailableWhen(k), d)
  }

  /** `async_setup_entry`: walks the table, skips unavailable descriptions,
      and creates the power switch class for "power" and the plain class for
      every other key. */
  method SetupSwitches(d: DeviceState) returns (entities: seq<SwitchEntity>)
    ensures |entities| == |Filter(Switches, Keep(d))|
    ensures forall i :: 0 <= i < |entities| ==>
              && entities[i].key == Filter(Switches, Keep(d))[i]
              && (entities[i].PowerSwitch? <==> entities[i].key == PowerKey)
  {
    entities := [];
    ghost var selected: seq<SwitchKey> := [];
    var i := 0;
    while i < |Switches|
      invariant 0 <= i <= |Switches|
      invariant selected == Filter(Switches[..i], Keep(d))
      invariant |entities| == |selected|
      invariant forall m {:trigger entities[m]} :: 0 <= m < |entities| ==>
                  && entities[m].key == selected[m]
                  && (entities[m].PowerSwitch? <==> entities[m].key == PowerKey)
    {
      var k := Switches[i];
      FilterSnoc(Switches, i, Keep(d));
      assert Keep(d)(k);
      if !Available(AvailableWhen(k), d) {
        i := i + 1;
        continue;
      }
      PowerKeyName(k);
      if KeyName(k) == "power" {
        entities := entities + [PowerSwitch(k)];
      } else {
        entities := entities + [PlainSwitch(k)];
      }
      selected := selected + [k];
      i := i + 1;
    }
    assert Switches[..i] == Switches;
  }

  /** Every device gets all five switches, the power switch last and the only
      one of its class. */
  lemma AllSwitchesCreated(d: DeviceState)
    ensures Filter(Switches, Keep(d)) == Switches
  {
  }

  /** `async_turn_on`: the control call, then a refresh request; the power
      switch first waits one second. When the control call raises, the
      exception ends the turn-on right after it. */
  function TurnOn(e: SwitchEntity, raised: bool): seq<Effect> {
    if raised then [Invoke(TurnOnAction(e.key))]
    else
      match e
      case PlainSwitch(k) => [Invoke(TurnOnAction(k)), RequestRefresh]
      case PowerSwitch(k) => [Invoke(TurnOnAction(k)), Sleep(1), RequestRefresh]
  }

  /** `async_turn_off` of the plain class: the control call, then a refresh
      request unless the call raises. The power switch overrides it with
      `TurnOffPower`. */
  function TurnOff(e: SwitchEntity, raised: bool): seq<Effect>
    requires e.PlainSwitch?
  {
    if raised then [Invoke(TurnOffAction(e.key))] else [Invoke(TurnOffAction(e.key)), RequestRefresh]
  }

  /** Turning a switch on makes its control call first. It asks for exactly
      one refresh, last, when the call succeeds, and for none when it raises. */
  lemma TurnOnRefreshesOnce(e: SwitchEntity, raised: bool)
    ensures TurnOn(e, raised)[0] == Invoke(TurnOnAction(e.key))
    ensures RefreshCount(TurnOn(e, raised)) == if raised then 0 else 1
    ensures raised ==> TurnOn(e, raised) == [Invoke(TurnOnAction(e.key))]
    ensures !raised ==> TurnOn(e, raised)[|TurnOn(e, raised)| - 1] == RequestRefresh
  {
    var t := TurnOn(e, raised);
    if raised {
      assert t[1..] == [];
    } else if e.PowerSwitch? {
      assert t[1..][1..] == [RequestRefresh] && t[1..][1..][1..] == [];
      assert RefreshCount(t[1..][1..]) == 1;
    } else {
      assert t[1..] == [RequestRefresh] && t[1..][1..] == [];
      assert RefreshCount(t[1..]) == 1;
    }
  }

  /** Turning a plain switch off makes its control call first. It asks for
      exactly one refresh, last, when the call succeeds, and for none when it
      raises. */
  lemma TurnOffRefreshesOnce(e: SwitchEntity, raised: bool)
    requires e.PlainSwitch?
    ensures TurnOff(e, raised)[0] == Invoke(TurnOffAction(e.key))
    ensures RefreshCount(TurnOff(e, raised)) == if raised then 0 else 1
    ensures raised ==> TurnOff(e, raised) == [Invoke(TurnOffAction(e.key))]
    ensures !raised ==> TurnOff(e, raised)[|TurnOff(e, raised)| - 1] == RequestRefresh
  {
    var t := TurnOff(e, raised);
    if raised {
      assert t[1..] == [];
    } else {
      assert t[1..] == [RequestRefresh] && t[1..][1..] == [];
      assert RefreshCount(t[1..]) == 1;
    }
  }

  /** The virtual device switches and the power switch make the same call to
      turn on and to turn off: the device toggles. The SSH and mDNS switches
      make opposite calls. */
  lemma ToggleSwitches(k: SwitchKey)
    ensures TurnOnAction(k) == TurnOffAction(k) <==> k in {VirtualNetworkKey, VirtualDiskKey, PowerKey}
  {
  }

  // ---- The power switch's shutdown wait ----

  /** `SHUTDOWN_TIMEOUT` and `SHUTDOWN_POLL_INTERVAL`, in seconds. */
  const ShutdownTimeout: real := 300.0
  const PollInterval: int := 5

  /** The loop never runs more often than this. */
  const MaxPolls: nat := 60

  /** The event loop's clock: `now(0)` is the start time and `now(j)` the time
      the loop condition reads for the j-th time. The clock does not go back,
      and each poll ends with a five-second sleep. */
  ghost predicate ClockAdvances(now: nat -> real) {
    && now(0) <= now(1)
    && forall j: nat, k: nat :: 1 <= j && k == j + 1 ==> now(j) + PollInterval as real <= now(k)
  }

  /** At the j-th check, at least 5 * (j - 1) seconds have passed. */
  lemma {:induction false} ElapsedAtLeast(now: nat -> real, j: nat)
    requires ClockAdvances(now) && 1 <= j
    ensures now(j) - now(0) >= (PollInterval * (j - 1)) as real
  {
    if j > 1 {
      ElapsedAtLeast(now, j - 1);
      assert now(j - 1) + PollInterval as real <= now(j);
    }
  }

  /** So the loop body runs at most 60 times. */
  lemma WithinTimeout(now: nat -> real, j: nat)
    requires ClockAdvances(now) && 1 <= j && now(j) - now(0) < ShutdownTimeout
    ensures j <= MaxPolls
  {
    ElapsedAtLeast(now, j);
  }

  /** Whether the coordinator's GPIO information, read after the refresh of
      a poll, says the machine is off. */
  predicate ObservedOff(g: Option<GpioInfo>) {
    g.Some? && !g.value.pwr
  }

  /** The effects of the wait from the j-th check of the loop condition on,
      where `gpio(j)` is what the coordinator holds after the j-th poll's
      refresh. */
  function PollsFrom(now: nat -> real, gpio: nat -> Option<GpioInfo>, j: nat): seq<Effect>
    requires ClockAdvances(now) && 1 <= j <= MaxPolls + 1
    decreases MaxPolls + 1 - j
  {
    if now(j) - now(0) < ShutdownTimeout then
      WithinTimeout(now, j);
      if ObservedOff(gpio(j)) then [RequestRefresh, RequestRefresh]
      else [RequestRefresh, Sleep(PollInterval)] + PollsFrom(now, gpio, j + 1)
    else [RequestRefresh]
  }

  /** A poll that does not see the machine off: a refresh, a sleep, and the
      next check. */
  lemma KeepPolling(now: nat -> real, gpio: nat -> Option<GpioInfo>, j: nat, trace: seq<Effect>)
    requires ClockAdvances(now) && 1 <= j <= MaxPolls + 1
    requires now(j) - now(0) < ShutdownTimeout && !ObservedOff(gpio(j))
    ensures j + 1 <= MaxPolls + 1
    ensures (trace + [RequestRefresh, Sleep(PollInterval)]) + PollsFrom(now, gpio, j + 1)
            == trace + PollsFrom(now, gpio, j)
    ensures RefreshCount(trace + [RequestRefresh, Sleep(PollInterval)]) == RefreshCount(trace) + 1
  {
    WithinTimeout(now, j);
    var poll := [RequestRefresh, Sleep(PollInterval)];
    assert PollsFrom(now, gpio, j) == poll + PollsFrom(now, gpio, j + 1);
    assert (trace + poll) + PollsFrom(now, gpio, j + 1) == trace + (poll + PollsFrom(now, gpio, j + 1));
    RefreshCountAppend(trace, poll);
    assert poll[1..][1..] == [];
    assert RefreshCount(poll[1..]) == 0;
  }

  /** A poll that sees the machine off: two refreshes and the end. */
  lemma SeenOff(now: nat -> real, gpio: nat -> Option<GpioInfo>, j: nat, trace: seq<Effect>)
    requires ClockAdvances(now) && 1 <= j <= MaxPolls + 1
    requires now(j) - now(0) < ShutdownTimeout && ObservedOff(gpio(j))
    ensures j <= MaxPolls
    ensures trace + [RequestRefresh, RequestRefresh] == trace + PollsFrom(now, gpio, j)
    ensures RefreshCount(trace + [RequestRefresh, RequestRefresh]) == RefreshCount(trace) + 2
  {
    WithinTimeout(now, j);
    var last := [RequestRefresh, RequestRefresh];
    RefreshCountAppend(trace, last);
    assert last[1..][1..] == [];
    assert RefreshCount(last[1..]) == 1;
  }

  /** The check that finds the time up: one last refresh. */
  lemma TimeUp(now: nat -> real, gpio: nat -> Option<GpioInfo>, j: nat, trace: seq<Effect>)
    requires ClockAdvances(now) && 1 <= j <= MaxPolls + 1
    requires now(j) - now(0) >= ShutdownTimeout
    ensures trace + [RequestRefresh] == trace + PollsFrom(now, gpio, j)
    ensures RefreshCount(trace + [RequestRefresh]) == RefreshCount(trace) + 1
  {
    RefreshCountAppend(trace, [RequestRefresh]);
    assert [RequestRefresh][1..] == [];
  }

  /** `NanoKVMPowerSwitch.async_turn_off`: press the power button, then
      refresh every five seconds until the machine is seen off or 300 seconds
      have passed, and refresh once more. When pressing the button raises, the
      exception ends the turn-off before any poll. Returns the effects, the
      number of polls, and whether the machine was seen off. */
  method TurnOffPower(now: nat -> real, gpio: nat -> Option<GpioInfo>, raised: bool)
    returns (trace: seq<Effect>, polls: nat, confirmed: bool)
    requires ClockAdvances(now)
    ensures trace == [Invoke(TurnOffAction(PowerKey))] + (if raised then [] else PollsFrom(now, gpio, 1))
    ensures polls <= MaxPolls
    ensures raised ==> polls == 0
    ensures RefreshCount(trace) == if raised then 0 else polls + 1
    ensures confirmed <==> 1 <= polls && ObservedOff(gpio(polls))
    ensures forall j :: 1 <= j < polls ==> !ObservedOff(gpio(j))
    ensures !raised && !confirmed ==> now(polls + 1) - now(0) >= ShutdownTimeout
  {
    trace := [Invoke(TurnOffAction(PowerKey))];
    if raised {
      assert trace[1..] == [];
      return trace, 0, false;
    }
    ghost var whole := trace + PollsFrom(now, gpio, 1);
    var j := 1;
    while now(j) - now(0) < ShutdownTimeout
      invariant 1 <= j <= MaxPolls + 1
      invariant trace + PollsFrom(now, gpio, j) == whole
      invariant RefreshCount(trace) == j - 1
      invariant forall m :: 1 <= m < j ==> !ObservedOff(gpio(m))
      decreases MaxPolls + 1 - j
    {
      if ObservedOff(gpio(j)) {
        SeenOff(now, gpio, j, trace);
        trace := trace + [RequestRefresh, RequestRefresh];
        return trace, j, true;
      }
      KeepPolling(now, gpio, j, trace);
      trace := trace + [RequestRefresh, Sleep(PollInterval)];
      j := j + 1;
    }
    TimeUp(now, gpio, j, trace);
    trace := trace + [RequestRefresh];
    return trace, j - 1, false;
  }

  /** No two created switches share a key name. */
  lemma SetupKeysDistinct(d: DeviceState)
    ensures DistinctKeys(Filter(Switches, Keep(d)), KeyName)
  {
    TableKeysDistinct();
    FilterDistinctKeys(Switches, Keep(d), KeyName);
  }

  /** The unique ids of the created switches are pairwise distinct. */
  lemma UniqueIdsDistinct(deviceKey: string, d: DeviceState)
    ensures Distinct(EntityIds(deviceKey, SwitchPlatform, Filter(Switches, Keep(d)), KeyName))
  {
    SetupKeysDistinct(d);
    EntityIdsDistinct(deviceKey, SwitchPlatform, Filter(Switches, Keep(d)), KeyName);
  }
}
