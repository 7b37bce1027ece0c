/** What the four entity platforms share: the unique id every NanoKVM entity
    derives from the device key (`NanoKVMEntity` in
    custom_components/nanokvm/__init__.py), the coordinator attributes their
    tables read, and table-driven selection of the entities a platform creates.

    An entity reads the coordinator's current fields. Once the first refresh
    has succeeded every field holds a value and every later refresh keeps it
    so (`Coordinator.Update`), so the fields are taken here as one complete
    `DeviceState`. */
module Entities {
  import opened Common
  import opened Device

  // ---- Unique ids ----

  datatype Platform = BinarySensorPlatform | SensorPlatform | ButtonPlatform | SwitchPlatform

  /** The platform name each entity class puts before its key. */
  function PlatformName(p: Platform): (name: string)
    ensures 2 <= |name|
  {
    match p
    case BinarySensorPlatform => "binary_sensor"
    case SensorPlatform => "sensor"
    case ButtonPlatform => "button"
    case SwitchPlatform => "switch"
  }

  /** `f"{coordinator.device_info.device_key}_{unique_id_suffix}"`, where each
      platform passes `f"<platform>_{description.key}"` as the suffix. */
  function UniqueId(deviceKey: string, p: Platform, key: string): string {
    deviceKey + "_" + (PlatformName(p) + "_" + key)
  }

  /** The second letter tells the four platform names apart. */
  lemma PlatformNamesDiffer(p: Platform, q: Platform)
    requires PlatformName(p)[1] == PlatformName(q)[1]
    ensures p == q
  {
  }

  /** On one device, different entities get different unique ids: the id
      determines the platform and the key. */
  lemma UniqueIdInjective(deviceKey: string, p: Platform, k: string, q: Platform, l: string)
    requires UniqueId(deviceKey, p, k) == UniqueId(deviceKey, q, l)
    ensures p == q && k == l
  {
    var id := UniqueId(deviceKey, p, k);
    var n := |deviceKey| + 1;
    var s := PlatformName(p) + "_" + k;
    var t := PlatformName(q) + "_" + l;
    assert s == id[n..] == t;
    assert s[1] == PlatformName(p)[1] && t[1] == PlatformName(q)[1];
    PlatformNamesDiffer(p, q);
    var m := |PlatformName(p)| + 1;
    assert k == s[m..] == t[m..] == l;
  }

  /** The unique ids of the entities a platform creates, in creation order. */
  function EntityIds<T>(deviceKey: string, p: Platform, created: seq<T>, keyOf: T -> string): seq<string> {
    seq(|created|, i requires 0 <= i < |created| => UniqueId(deviceKey, p, keyOf(created[i])))
  }

  /** Entities of one platform with distinct keys have distinct unique ids. */
  lemma EntityIdsDistinct<T>(deviceKey: string, p: Platform, created: seq<T>, keyOf: T -> string)
    requires forall i, j :: 0 <= i < j < |created| ==> keyOf(created[i]) != keyOf(created[j])
    ensures Distinct(EntityIds(deviceKey, p, created, keyOf))
  {
    var ids := EntityIds(deviceKey, p, created, keyOf);
    forall i, j | 0 <= i < j < |ids| ensures ids[i] != ids[j] {
      if ids[i] == ids[j] {
        UniqueIdInjective(deviceKey, p, keyOf(created[i]), p, keyOf(created[j]));
      }
    }
  }

  /** Every unique id of a platform carries the second letter of the
      platform's name right after the device key and the underscore. */
  lemma EntityIdsMarked<T>(deviceKey: string, p: Platform, created: seq<T>, keyOf: T -> string)
    ensures forall i :: 0 <= i < |created| ==>
              && |deviceKey| + 2 < |EntityIds(deviceKey, p, created, keyOf)[i]|
              && EntityIds(deviceKey, p, created, keyOf)[i][|deviceKey| + 2] == PlatformName(p)[1]
  {
    forall i | 0 <= i < |created|
      ensures && |deviceKey| + 2 < |EntityIds(deviceKey, p, created, keyOf)[i]|
              && EntityIds(deviceKey, p, created, keyOf)[i][|deviceKey| + 2] == PlatformName(p)[1]
    {
      var suffix := PlatformName(p) + "_" + keyOf(created[i]);
      assert EntityIds(deviceKey, p, created, keyOf)[i] == deviceKey + "_" + suffix;
      assert suffix[1] == PlatformName(p)[1];
    }
  }

  // ---- What the tables read ----

  /** The boolean coordinator attributes the binary sensors and switches show. */
  datatype Flag =
    | GpioPower       // gpio_info.pwr
    | GpioHdd         // gpio_info.hdd
    | VirtualNetwork  // virtual_device_info.network
    | VirtualDisk     // virtual_device_info.disk
    | SshEnabled      // ssh_state.enabled
    | MdnsEnabled     // mdns_state.enabled
    | OledExists      // oled_info.exist
    | WifiSupported   // wifi_status.supported
    | WifiConnected   // wifi_status.connected
    | CdromActive     // cdrom_status.cdrom == 1

  function FlagValue(f: Flag, d: DeviceState): bool {
    match f
    case GpioPower => d.gpioInfo.pwr
    case GpioHdd => d.gpioInfo.hdd
    case VirtualNetwork => d.virtualDeviceInfo.network
    case VirtualDisk => d.virtualDeviceInfo.disk
    case SshEnabled => d.sshState.enabled
    case MdnsEnabled => d.mdnsState.enabled
    case OledExists => d.oledInfo.exist
    case WifiSupported => d.wifiStatus.supported
    case WifiConnected => d.wifiStatus.connected
    case CdromActive => d.cdromStatus.cdrom == 1
  }

  /** The `available_fn` predicates of the tables; `Always` is the default
      `lambda _: True`. */
  datatype Availability =
    | Always
    | HardwareVersionIs(version: string)  // hardware_info.version.value == version
    | WhenWifiSupported                   // wifi_status.supported
    | WhenOledExists                      // oled_info.exist
    | WhenImageMounted                    // mounted_image.file != ""

  predicate Available(a: Availability, d: DeviceState) {
    match a
    case Always => true
    case HardwareVersionIs(version) => d.hardwareInfo.version == version
    case WhenWifiSupported => d.wifiStatus.supported
    case WhenOledExists => d.oledInfo.exist
    case WhenImageMounted => d.mountedImage.file != ""
  }

  // ---- Selection ----

  /** No two elements share a key. */
  predicate DistinctKeys<T>(xs: seq<T>, keyOf: T -> string) {
    forall i, j :: 0 <= i < j < |xs| ==> keyOf(xs[i]) != keyOf(xs[j])
  }

  /** Selection keeps keys distinct. */
  lemma {:induction false} FilterDistinctKeys<T>(xs: seq<T>, keep: T -> bool, keyOf: T -> string)
    requires DistinctKeys(xs, keyOf)
    ensures DistinctKeys(Filter(xs, keep), keyOf)
  {
    if xs != [] {
      var rest := Filter(xs[1..], keep);
      assert DistinctKeys(xs[1..], keyOf) by {
        forall i, j | 0 <= i < j < |xs[1..]| ensures keyOf(xs[1..][i]) != keyOf(xs[1..][j]) {
          assert xs[1..][i] == xs[i + 1] && xs[1..][j] == xs[j + 1];
        }
      }
      FilterDistinctKeys(xs[1..], keep, keyOf);
      forall m | 0 <= m < |rest| ensures keyOf(rest[m]) != keyOf(xs[0]) {
        var k :| 0 <= k < |xs[1..]| && xs[1..][k] == rest[m];
        assert rest[m] == xs[k + 1];
      }
    }
  }
}
