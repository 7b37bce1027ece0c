/** What the NanoKVM device reports and what it can be told to do, as seen
    through its vendor client library. Only the attributes the integration
    reads are modelled. */
module Device {

  // ---- Sub-results of the eleven read calls ----

  datatype DeviceInfo = DeviceInfo(deviceKey: string, mdns: string, application: string)
  /** `hardware_info.version.value`, e.g. "Alpha", "Beta", "PCIE". */
  datatype HardwareInfo = HardwareInfo(version: string)
  datatype GpioInfo = GpioInfo(pwr: bool, hdd: bool)
  datatype VirtualDeviceInfo = VirtualDeviceInfo(network: bool, disk: bool)
  datatype SshState = SshState(enabled: bool)
  datatype MdnsState = MdnsState(enabled: bool)
  /** `hid_mode.mode.value` */
  datatype HidMode = HidMode(mode: string)
  datatype OledInfo = OledInfo(exist: bool, sleep: int)
  datatype WifiStatus = WifiStatus(supported: bool, connected: bool)
  datatype MountedImage = MountedImage(file: string)
  datatype CdromStatus = CdromStatus(cdrom: int)

  /** One complete set of answers to the eleven reads: the dictionary a
      successful refresh returns, and what the device reports when read. */
  datatype DeviceState = DeviceState(
    deviceInfo: DeviceInfo,
    hardwareInfo: HardwareInfo,
    gpioInfo: GpioInfo,
    virtualDeviceInfo: VirtualDeviceInfo,
    sshState: SshState,
    mdnsState: MdnsState,
    hidMode: HidMode,
    oledInfo: OledInfo,
    wifiStatus: WifiStatus,
    mountedImage: MountedImage,
    cdromStatus: CdromStatus)

  /** The number of reads of a refresh. */
  const ReadCount: nat := 11

  /** The read calls of the client, one per coordinator field, each identified
      by the place at which a refresh issues it. */
  type Read = r: nat | r < ReadCount

  const GetInfo: Read := 0
  const GetHardware: Read := 1
  const GetGpio: Read := 2
  const GetVirtualDeviceStatus: Read := 3
  const GetSshState: Read := 4
  const GetMdnsState: Read := 5
  const GetHidMode: Read := 6
  const GetOledInfo: Read := 7
  const GetWifiStatus: Read := 8
  const GetMountedImage: Read := 9
  const GetCdromStatus: Read := 10

  /** The value of one sub-result, tagged with the kind of sub-result it is. */
  datatype Value =
    | InfoValue(info: DeviceInfo)
    | HardwareValue(hardware: HardwareInfo)
    | GpioValue(gpio: GpioInfo)
    | VirtualDeviceValue(virtualDevice: VirtualDeviceInfo)
    | SshValue(ssh: SshState)
    | MdnsValue(mdns: MdnsState)
    | HidModeValue(hid: HidMode)
    | OledValue(oled: OledInfo)
    | WifiValue(wifi: WifiStatus)
    | MountedImageValue(image: MountedImage)
    | CdromValue(cdrom: CdromStatus)

  /** The read that returns values of the kind of `v`. */
  function Source(v: Value): Read {
    match v
    case InfoValue(_) => GetInfo
    case HardwareValue(_) => GetHardware
    case GpioValue(_) => GetGpio
    case VirtualDeviceValue(_) => GetVirtualDeviceStatus
    case SshValue(_) => GetSshState
    case MdnsValue(_) => GetMdnsState
    case HidModeValue(_) => GetHidMode
    case OledValue(_) => GetOledInfo
    case WifiValue(_) => GetWifiStatus
    case MountedImageValue(_) => GetMountedImage
    case CdromValue(_) => GetCdromStatus
  }

  /** The part of a device report that read `r` returns. */
  function Component(d: DeviceState, r: Read): (v: Value)
    ensures Source(v) == r
  {
    if r == GetInfo then InfoValue(d.deviceInfo)
    else if r == GetHardware then HardwareValue(d.hardwareInfo)
    else if r == GetGpio then GpioValue(d.gpioInfo)
    else if r == GetVirtualDeviceStatus then VirtualDeviceValue(d.virtualDeviceInfo)
    else if r == GetSshState then SshValue(d.sshState)
    else if r == GetMdnsState then MdnsValue(d.mdnsState)
    else if r == GetHidMode then HidModeValue(d.hidMode)
    else if r == GetOledInfo then OledValue(d.oledInfo)
    else if r == GetWifiStatus then WifiValue(d.wifiStatus)
    else if r == GetMountedImage then MountedImageValue(d.mountedImage)
    else CdromValue(d.cdromStatus)
  }

  /** A device state is determined by what the eleven reads return. */
  lemma ComponentsDetermineState(d: DeviceState, e: DeviceState)
    requires forall r: Read :: Component(d, r) == Component(e, r)
    ensures d == e
  {
    assert Component(d, GetInfo) == Component(e, GetInfo);
    assert Component(d, GetHardware) == Component(e, GetHardware);
    assert Component(d, GetGpio) == Component(e, GetGpio);
    assert Component(d, GetVirtualDeviceStatus) == Component(e, GetVirtualDeviceStatus);
    assert Component(d, GetSshState) == Component(e, GetSshState);
    assert Component(d, GetMdnsState) == Component(e, GetMdnsState);
    assert Component(d, GetHidMode) == Component(e, GetHidMode);
    assert Component(d, GetOledInfo) == Component(e, GetOledInfo);
    assert Component(d, GetWifiStatus) == Component(e, GetWifiStatus);
    assert Component(d, GetMountedImage) == Component(e, GetMountedImage);
    assert Component(d, GetCdromStatus) == Component(e, GetCdromStatus);
  }

  // ---- Control calls ----

  datatype GpioType = Power | Reset
  datatype VirtualDevice = Network | Disk

  /** The control calls of the client that the integration issues. */
  datatype Action =
    | EnableSsh | DisableSsh
    | EnableMdns | DisableMdns
    | UpdateVirtualDevice(device: VirtualDevice)
    | PushButton(gpio: GpioType, duration: int)
    | RebootSystem | ResetHdmi | ResetHid | UpdateApplication
    | PasteText(text: string)
    | SendWakeOnLan(mac: string)

  /** What an entity does, in order: a control call, a refresh request to the
      coordinator, or a pause of the given number of seconds. */
  datatype Effect = Invoke(action: Action) | RequestRefresh | Sleep(seconds: int)

  /** The number of refresh requests in a trace of effects. */
  function RefreshCount(trace: seq<Effect>): nat {
    if trace == [] then 0
    else (if trace[0] == RequestRefresh then 1 else 0) + RefreshCount(trace[1..])
  }

  lemma {:induction false} RefreshCountAppend(a: seq<Effect>, b: seq<Effect>)
    ensures RefreshCount(a + b) == RefreshCount(a) + RefreshCount(b)
  {
    if a == [] {
      assert a + b == b;
    } else {
      assert (a + b)[1..] == a[1..] + b;
      RefreshCountAppend(a[1..], b);
    }
  }
}
