/** The buttons of custom_components/nanokvm/button.py: a table of
    descriptions, each naming the control call a press makes and when the
    button is created. */
module Button {
  import opened Common
  import opened Device
  import opened Entities
  import opened Integration

  /** The `key` of each description. */
  datatype ButtonKey = PowerButton | ResetButton | Reboot | ResetHdmiKey | ResetHidKey | UpdateApplicationKey

  function KeyName(k: ButtonKey): string {
    match k
    case PowerButton => "power"
    case ResetButton => "reset"
    case Reboot => "reboot"
    case ResetHdmiKey => "reset_hdmi"
    case ResetHidKey => "reset_hid"
    case UpdateApplicationKey => "update_application"
  }

  /** The length in milliseconds of a press of the power or reset button. */
  const ButtonPress := 100

  /** The control call `press_fn` makes. */
  function PressAction(k: ButtonKey): Action {
    match k
    case PowerButton => PushButton(Power, ButtonPress)
    case ResetButton => PushButton(Reset, ButtonPress)
    case Reboot => RebootSystem
    case ResetHdmiKey => ResetHdmi
    case ResetHidKey => ResetHid
    case UpdateApplicationKey => UpdateApplication
  }

  /** When `available_fn` creates the button. */
  function AvailableWhen(k: ButtonKey): Availability {
    match k
    case ResetHdmiKey => HardwareVersionIs("PCIE")
    case _ => Always
  }

  /** The order of the table. */
  const Buttons: seq<ButtonKey> := [PowerButton, ResetButton, Reboot, ResetHdmiKey, ResetHidKey, UpdateApplicationKey]

  lemma TableKeysDistinct()
    ensures DistinctKeys(Buttons, KeyName)
  {
  }

  lemma TableComplete(k: ButtonKey)
    ensures k in Buttons
  {
    match k
    case PowerButton => assert Buttons[0] == k;
    case ResetButton => assert Buttons[1] == k;
    case Reboot => assert Buttons[2] == k;
    case ResetHdmiKey => assert Buttons[3] == k;
    case ResetHidKey => assert Buttons[4] == k;
    case UpdateApplicationKey => assert Buttons[5] == k;
  }

  /** `available_fn` of each description, for one device. */
  function Keep(d: DeviceState): ButtonKey -> bool {
    (k: ButtonKey) => Available(AvailableWhen(k), d)
  }

  /** The buttons created for a device, in table order. */
  function Setup(d: DeviceState): seq<ButtonKey> {
    Filter(Buttons, Keep(d))
  }

  /** A button is created exactly when its description is available. */
  lemma Created(d: DeviceState, k: ButtonKey)
    ensures k in Setup(d) <==> Available(AvailableWhen(k), d)
  {
    TableComplete(k);
    if k in Setup(d) {
      var i :| 0 <= i < |Setup(d)| && Setup(d)[i] == k;
    }
  }

  /** Which buttons a device gets: HDMI reset only on PCIe hardware, every
      other button always. */
  lemma CreatedButtons(d: DeviceState)
    ensures ResetHdmiKey in Setup(d) <==> d.hardwareInfo.version == "PCIE"
    ensures forall k :: k != ResetHdmiKey ==> k in Setup(d)
  {
    assert Available(AvailableWhen(ResetHdmiKey), d) <==> d.hardwareInfo.version == "PCIE";
    Created(d, ResetHdmiKey);
    forall k | k != ResetHdmiKey ensures k in Setup(d) {
      Created(d, k);
    }
  }

  /** `async_press`: the control call, then one refresh request. When the
      control call raises, the exception ends the press before the refresh. */
  function Press(k: ButtonKey, raised: bool): seq<Effect> {
    if raised then [Invoke(PressAction(k))] else [Invoke(PressAction(k)), RequestRefresh]
  }

  /** A press makes its control call first. It asks for exactly one refresh,
      after the call, when the call succeeds, and for none when it raises. */
  lemma PressRefreshesOnce(k: ButtonKey, raised: bool)
    ensures Press(k, raised)[0] == Invoke(PressAction(k))
    ensures RefreshCount(Press(k, raised)) == if raised then 0 else 1
    ensures raised ==> Press(k, raised) == [Invoke(PressAction(k))]
    ensures !raised ==> Press(k, raised)[|Press(k, raised)| - 1] == RequestRefresh
  {
    var t := Press(k, raised);
    if raised {
      assert t[1..] == [];
    } else {
      assert t[1..] == [RequestRefresh] && t[1..][1..] == [];
      assert RefreshCount(t[1..]) == 1;
    }
  }

  /** The buttons make the same control calls as the corresponding services
      with their default arguments. */
  lemma ButtonsMatchServices()
    ensures ServiceAction(PushButtonCall(Some("power"), None)) == Some(PressAction(PowerButton))
    ensures ServiceAction(PushButtonCall(Some("reset"), None)) == Some(PressAction(ResetButton))
    ensures ServiceAction(RebootCall) == Some(PressAction(Reboot))
    ensures ServiceAction(ResetHdmiCall) == Some(PressAction(ResetHdmiKey))
    ensures ServiceAction(ResetHidCall) == Some(PressAction(ResetHidKey))
  {
  }

  /** No two created buttons share a key name. */
  lemma SetupKeysDistinct(d: DeviceState)
    ensures DistinctKeys(Setup(d), KeyName)
  {
    TableKeysDistinct();
    FilterDistinctKeys(Buttons, Keep(d), KeyName);
  }

  /** The unique ids of the created buttons are pairwise distinct. */
  lemma UniqueIdsDistinct(deviceKey: string, d: DeviceState)
    ensures Distinct(EntityIds(deviceKey, ButtonPlatform, Setup(d), KeyName))
  {
    SetupKeysDistinct(d);
    EntityIdsDistinct(deviceKey, ButtonPlatform, Setup(d), KeyName);
  }
}
