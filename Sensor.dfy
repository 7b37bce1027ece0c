/** The sensors of custom_components/nanokvm/sensor.py: a table of
    descriptions, each naming the coordinator attribute the sensor reports
    and when the sensor is created. */
module Sensor {
  import opened Common
  import opened Device
  import opened Entities

  /** The `key` of each description. */
  datatype SensorKey = HidModeKey | OledSleep | HardwareVersion | ApplicationVersion | MountedImageKey

  function KeyName(k: SensorKey): string {
    match k
    case HidModeKey => "hid_mode"
    case OledSleep => "oled_sleep"
    case HardwareVersion => "hardware_version"
    case ApplicationVersion => "application_version"
    case MountedImageKey => "mounted_image"
  }

  /** A sensor's state: text, or a duration in seconds. */
  datatype Reading = Text(text: string) | Seconds(seconds: int)

  /** `native_value`: what `value_fn` reads from the coordinator. */
  function NativeValue(k: SensorKey, d: DeviceState): Reading {
    match k
    case HidModeKey => Text(d.hidMode.mode)
    case OledSleep => Seconds(d.oledInfo.sleep)
    case HardwareVersion => Text(d.hardwareInfo.version)
    case ApplicationVersion => Text(d.deviceInfo.application)
    case MountedImageKey => Text(d.mountedImage.file)
  }

  /** When `available_fn` creates the sensor. */
  function AvailableWhen(k: SensorKey): Availability {
    match k
    case OledSleep => WhenOledExists
    case MountedImageKey => WhenImageMounted
    case _ => Always
  }

  /** The order of the table. */
  const Sensors: seq<SensorKey> := [HidModeKey, OledSleep, HardwareVersion, ApplicationVersion, MountedImageKey]

  lemma TableKeysDistinct()
    ensures DistinctKeys(Sensors, KeyName)
  {
  }

  lemma TableComplete(k: SensorKey)
    ensures k in Sensors
  {
    match k
    case HidModeKey => assert Sensors[0] == k;
    case OledSleep => assert Sensors[1] == k;
    case HardwareVersion => assert Sensors[2] == k;
    case ApplicationVersion => assert Sensors[3] == k;
    case MountedImageKey => assert Sensors[4] == k;
  }

  /** `available_fn` of each description, for one device. */
  function Keep(d: DeviceState): SensorKey -> bool {
    (k: SensorKey) => Available(AvailableWhen(k), d)
  }

  /** The sensors created for a device, in table order. */
  function Setup(d: DeviceState): seq<SensorKey> {
    Filter(Sensors, Keep(d))
  }

  /** A sensor is created exactly when its description is available. */
  lemma Created(d: DeviceState, k: SensorKey)
    ensures k in Setup(d) <==> Available(AvailableWhen(k), d)
  {
    TableComplete(k);
    if k in Setup(d) {
      var i :| 0 <= i < |Setup(d)| && Setup(d)[i] == k;
    }
  }

  /** What each `available_fn` asks of the device. */
  lemma AvailableWhenMeans(d: DeviceState)
    ensures Available(AvailableWhen(OledSleep), d) <==> d.oledInfo.exist
    ensures Available(AvailableWhen(MountedImageKey), d) <==> d.mountedImage.file != ""
    ensures forall k :: k != OledSleep && k != MountedImageKey ==> Available(AvailableWhen(k), d)
  {
  }

  /** Which sensors a device gets: the OLED sleep timeout only where an OLED
      exists, the mounted image only while one is mounted, and the HID mode
      and the two versions always. */
  lemma CreatedSensors(d: DeviceState)
    ensures OledSleep in Setup(d) <==> d.oledInfo.exist
    ensures MountedImageKey in Setup(d) <==> d.mountedImage.file != ""
    ensures forall k :: k != OledSleep && k != MountedImageKey ==> k in Setup(d)
  {
    AvailableWhenMeans(d);
    Created(d, OledSleep);
    Created(d, MountedImageKey);
    forall k | k != OledSleep && k != MountedImageKey ensures k in Setup(d) {
      Created(d, k);
    }
  }

  /** A created mounted-image sensor never reports an empty file name. */
  lemma MountedImageNeverEmpty(d: DeviceState)
    requires MountedImageKey in Setup(d)
    ensures NativeValue(MountedImageKey, d) != Text("")
  {
    CreatedSensors(d);
  }

  /** No two created sensors share a key name. */
  lemma SetupKeysDistinct(d: DeviceState)
    ensures DistinctKeys(Setup(d), KeyName)
  {
    TableKeysDistinct();
    FilterDistinctKeys(Sensors, Keep(d), KeyName);
  }

  /** The unique ids of the created sensors are pairwise distinct. */
  lemma UniqueIdsDistinct(deviceKey: string, d: DeviceState)
    ensures Distinct(EntityIds(deviceKey, SensorPlatform, Setup(d), KeyName))
  {
    SetupKeysDistinct(d);
    EntityIdsDistinct(deviceKey, SensorPlatform, Setup(d), KeyName);
  }
}
