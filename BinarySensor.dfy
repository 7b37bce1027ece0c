/** The binary sensors of custom_components/nanokvm/binary_sensor.py: a table
    of descriptions, each naming the coordinator attribute the sensor shows
    and when the sensor is created. */
module BinarySensor {
  import opened Common
  import opened Device
  import opened Entities

  /** The `key` of each description. */
  datatype BinarySensorKey =
    | PowerLed | HddLed | NetworkDevice | DiskDevice | SshEnabledKey
    | MdnsEnabledKey | OledPresent | WifiSupportedKey | WifiConnectedKey | CdromMode

  function KeyName(k: BinarySensorKey): string {
    match k
    case PowerLed => "power_led"
    case HddLed => "hdd_led"
    case NetworkDevice => "network_device"
    case DiskDevice => "disk_device"
    case SshEnabledKey => "ssh_enabled"
    case MdnsEnabledKey => "mdns_enabled"
    case OledPresent => "oled_present"
    case WifiSupportedKey => "wifi_supported"
    case WifiConnectedKey => "wifi_connected"
    case CdromMode => "cdrom_mode"
  }

  /** The attribute `value_fn` reads. */
  function Value(k: BinarySensorKey): Flag {
    match k
    case PowerLed => GpioPower
    case HddLed => GpioHdd
    case NetworkDevice => VirtualNetwork
    case DiskDevice => VirtualDisk
    case SshEnabledKey => SshEnabled
    case MdnsEnabledKey => MdnsEnabled
    case OledPresent => OledExists
    case WifiSupportedKey => WifiSupported
    case WifiConnectedKey => WifiConnected
    case CdromMode => CdromActive
  }

  /** When `available_fn` creates the sensor. */
  function AvailableWhen(k: BinarySensorKey): Availability {
    match k
    case HddLed => HardwareVersionIs("Alpha")
    case WifiConnectedKey => WhenWifiSupported
    case CdromMode => WhenImageMounted
    case _ => Always
  }

  /** The order of the table. */
  const BinarySensors: seq<BinarySensorKey> := [
    PowerLed, HddLed, NetworkDevice, DiskDevice, SshEnabledKey,
    MdnsEnabledKey, OledPresent, WifiSupportedKey, WifiConnectedKey, CdromMode
  ]

  lemma TableKeysDistinct()
    ensures DistinctKeys(BinarySensors, KeyName)
  {
  }

  /** `available_fn` of each description, for one device. */
  function Keep(d: DeviceState): BinarySensorKey -> bool {
    k => Available(AvailableWhen(k), d)
  }

  /** The binary sensors created for a device, in table order. */
  function Setup(d: DeviceState): seq<BinarySensorKey> {
    Filter(BinarySensors, Keep(d))
  }

  /** No two created sensors share a key name. */
  lemma SetupKeysDistinct(d: DeviceState)
    ensures DistinctKeys(Setup(d), KeyName)
  {
    TableKeysDistinct();
    FilterDistinctKeys(BinarySensors, Keep(d), KeyName);
  }

  /** `is_on`: the attribute the description names. */
  function IsOn(k: BinarySensorKey, d: DeviceState): bool {
    FlagValue(Value(k), d)
  }

  /** Every key is in the table. */
  lemma TableComplete(k: BinarySensorKey)
    ensures k in BinarySensors
  {
    match k
    case PowerLed => assert BinarySensors[0] == k;
    case HddLed => assert BinarySensors[1] == k;
    case NetworkDevice => assert BinarySensors[2] == k;
    case DiskDevice => assert BinarySensors[3] == k;
    case SshEnabledKey => assert BinarySensors[4] == k;
    case MdnsEnabledKey => assert BinarySensors[5] == k;
    case OledPresent => assert BinarySensors[6] == k;
    case WifiSupportedKey => assert BinarySensors[7] == k;
    case WifiConnectedKey => assert BinarySensors[8] == k;
    case CdromMode => assert BinarySensors[9] == k;
  }

  /** A sensor is created exactly when its description is available. */
  lemma Created(d: DeviceState, k: BinarySensorKey)
    ensures k in Setup(d) <==> Available(AvailableWhen(k), d)
  {
    TableComplete(k);
    if k in Setup(d) {
      var i :| 0 <= i < |Setup(d)| && Setup(d)[i] == k;
    }
  }

  /** What each `available_fn` asks of the device. */
  lemma AvailableWhenMeans(d: DeviceState)
    ensures Available(AvailableWhen(HddLed), d) <==> d.hardwareInfo.version == "Alpha"
    ensures Available(AvailableWhen(WifiConnectedKey), d) <==> d.wifiStatus.supported
    ensures Available(AvailableWhen(CdromMode), d) <==> d.mountedImage.file != ""
    ensures forall k :: k != HddLed && k != WifiConnectedKey && k != CdromMode ==> Available(AvailableWhen(k), d)
  {
  }

  /** Which sensors a device gets: the HDD LED only on Alpha hardware, the
      WiFi connection only where WiFi is supported, the CD-ROM mode only while
      an image is mounted, and every other sensor always. */
  lemma CreatedSensors(d: DeviceState)
    ensures HddLed in Setup(d) <==> d.hardwareInfo.version == "Alpha"
    ensures WifiConnectedKey in Setup(d) <==> d.wifiStatus.supported
    ensures CdromMode in Setup(d) <==> d.mountedImage.file != ""
    ensures forall k :: k != HddLed && k != WifiConnectedKey && k != CdromMode ==> k in Setup(d)
  {
    AvailableWhenMeans(d);
    Created(d, HddLed);
    Created(d, WifiConnectedKey);
    Created(d, CdromMode);
    forall k | k != HddLed && k != WifiConnectedKey && k != CdromMode ensures k in Setup(d) {
      Created(d, k);
    }
  }

  /** Each sensor is on exactly when its attribute says so. */
  lemma Readings(d: DeviceState)
    ensures IsOn(PowerLed, d) == d.gpioInfo.pwr
    ensures IsOn(HddLed, d) == d.gpioInfo.hdd
    ensures IsOn(NetworkDevice, d) == d.virtualDeviceInfo.network
    ensures IsOn(DiskDevice, d) == d.virtualDeviceInfo.disk
    ensures IsOn(SshEnabledKey, d) == d.sshState.enabled
    ensures IsOn(MdnsEnabledKey, d) == d.mdnsState.enabled
    ensures IsOn(OledPresent, d) == d.oledInfo.exist
    ensures IsOn(WifiSupportedKey, d) == d.wifiStatus.supported
    ensures IsOn(WifiConnectedKey, d) == d.wifiStatus.connected
    ensures IsOn(CdromMode, d) <==> d.cdromStatus.cdrom == 1
  {
  }

  /** The unique ids of the created sensors are pairwise distinct. */
  lemma UniqueIdsDistinct(deviceKey: string, d: DeviceState)
    ensures Distinct(EntityIds(deviceKey, BinarySensorPlatform, Setup(d), KeyName))
  {
    SetupKeysDistinct(d);
    EntityIdsDistinct(deviceKey, BinarySensorPlatform, Setup(d), KeyName);
  }
}
