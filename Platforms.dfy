/** The four entity platforms of one device taken together. */
module Platforms {
  import opened Common
  import opened Device
  import opened Entities
  import BinarySensor
  import Sensor
  import Button
  import Switch

  /** The switches created for a device. */
  function SwitchSetup(d: DeviceState): seq<Switch.SwitchKey> {
    Filter(Switch.Switches, Switch.Keep(d))
  }

  /** The unique ids of every entity created for a device, platform by
      platform in the order the integration forwards the entry to them. */
  function AllUniqueIds(deviceKey: string, d: DeviceState): seq<string> {
    EntityIds(deviceKey, BinarySensorPlatform, BinarySensor.Setup(d), BinarySensor.KeyName)
    + EntityIds(deviceKey, SensorPlatform, Sensor.Setup(d), Sensor.KeyName)
    + EntityIds(deviceKey, ButtonPlatform, Button.Setup(d), Button.KeyName)
    + EntityIds(deviceKey, SwitchPlatform, SwitchSetup(d), Switch.KeyName)
  }

  /** The letter at position `at` of every element of `ids` lies in `marks`. */
  predicate MarkedWith(ids: seq<string>, at: nat, marks: set<char>) {
    forall i :: 0 <= i < |ids| ==> at < |ids[i]| && ids[i][at] in marks
  }

  lemma MarkedAppend(a: seq<string>, b: seq<string>, at: nat, marks: set<char>, more: set<char>)
    requires MarkedWith(a, at, marks) && MarkedWith(b, at, more)
    ensures MarkedWith(a + b, at, marks + more)
  {
    forall i | 0 <= i < |a + b| ensures at < |(a + b)[i]| && (a + b)[i][at] in marks + more {
      if i < |a| {
        assert (a + b)[i] == a[i];
      } else {
        assert (a + b)[i] == b[i - |a|];
      }
    }
  }

  /** Two duplicate-free id lists whose marks differ join without duplicates. */
  lemma JoinMarked(a: seq<string>, b: seq<string>, at: nat, marks: set<char>, more: set<char>)
    requires Distinct(a) && Distinct(b)
    requires MarkedWith(a, at, marks) && MarkedWith(b, at, more) && marks !! more
    ensures Distinct(a + b) && MarkedWith(a + b, at, marks + more)
  {
    forall i, j | 0 <= i < |a| && 0 <= j < |b| ensures a[i] != b[j] {
      assert a[i][at] in marks && b[j][at] in more;
    }
    DistinctAppend(a, b);
    MarkedAppend(a, b, at, marks, more);
  }

  /** The ids of one platform's entities: duplicate-free and marked with the
      platform. */
  lemma PlatformIds<T>(deviceKey: string, p: Platform, created: seq<T>, keyOf: T -> string)
    requires DistinctKeys(created, keyOf)
    ensures Distinct(EntityIds(deviceKey, p, created, keyOf))
    ensures MarkedWith(EntityIds(deviceKey, p, created, keyOf), |deviceKey| + 2, {PlatformName(p)[1]})
  {
    EntityIdsDistinct(deviceKey, p, created, keyOf);
    EntityIdsMarked(deviceKey, p, created, keyOf);
  }

  /** Four platforms' entities, each with distinct keys, get distinct ids. */
  lemma JoinPlatforms(deviceKey: string, b: seq<BinarySensor.BinarySensorKey>, s: seq<Sensor.SensorKey>,
                      t: seq<Button.ButtonKey>, w: seq<Switch.SwitchKey>)
    requires DistinctKeys(b, BinarySensor.KeyName) && DistinctKeys(s, Sensor.KeyName)
    requires DistinctKeys(t, Button.KeyName) && DistinctKeys(w, Switch.KeyName)
    ensures Distinct(EntityIds(deviceKey, BinarySensorPlatform, b, BinarySensor.KeyName)
                     + EntityIds(deviceKey, SensorPlatform, s, Sensor.KeyName)
                     + EntityIds(deviceKey, ButtonPlatform, t, Button.KeyName)
                     + EntityIds(deviceKey, SwitchPlatform, w, Switch.KeyName))
  {
    var at := |deviceKey| + 2;
    var bi := EntityIds(deviceKey, BinarySensorPlatform, b, BinarySensor.KeyName);
    var si := EntityIds(deviceKey, SensorPlatform, s, Sensor.KeyName);
    var ti := EntityIds(deviceKey, ButtonPlatform, t, Button.KeyName);
    var wi := EntityIds(deviceKey, SwitchPlatform, w, Switch.KeyName);
    PlatformIds(deviceKey, BinarySensorPlatform, b, BinarySensor.KeyName);
    PlatformIds(deviceKey, SensorPlatform, s, Sensor.KeyName);
    PlatformIds(deviceKey, ButtonPlatform, t, Button.KeyName);
    PlatformIds(deviceKey, SwitchPlatform, w, Switch.KeyName);
    JoinMarked(bi, si, at, {'i'}, {'e'});
    JoinMarked(bi + si, ti, at, {'i', 'e'}, {'u'});
    JoinMarked(bi + si + ti, wi, at, {'i', 'e', 'u'}, {'w'});
  }

  /** No two entities of a device share a unique id, within a platform or
      across platforms: the button "power" and the switch "power", say,
      differ by their platform name. */
  lemma AllUniqueIdsDistinct(deviceKey: string, d: DeviceState)
    ensures Distinct(AllUniqueIds(deviceKey, d))
  {
    BinarySensor.SetupKeysDistinct(d);
    Sensor.SetupKeysDistinct(d);
    Button.SetupKeysDistinct(d);
    Switch.SetupKeysDistinct(d);
    JoinPlatforms(deviceKey, BinarySensor.Setup(d), Sensor.Setup(d), Button.Setup(d), SwitchSetup(d));
  }

  /** The switches show the same attributes as the matching binary sensors. */
  lemma SwitchesShowSensorValues(d: DeviceState)
    ensures Switch.IsOn(Switch.Ssh, d) == BinarySensor.IsOn(BinarySensor.SshEnabledKey, d)
    ensures Switch.IsOn(Switch.Mdns, d) == BinarySensor.IsOn(BinarySensor.MdnsEnabledKey, d)
    ensures Switch.IsOn(Switch.VirtualNetworkKey, d) == BinarySensor.IsOn(BinarySensor.NetworkDevice, d)
    ensures Switch.IsOn(Switch.VirtualDiskKey, d) == BinarySensor.IsOn(BinarySensor.DiskDevice, d)
    ensures Switch.IsOn(Switch.PowerKey, d) == BinarySensor.IsOn(BinarySensor.PowerLed, d)
  {
  }
}
