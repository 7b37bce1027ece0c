# NanoKVM Home Assistant integration — a Dafny model

This project models the core of the Home Assistant custom component for the
Sipeed NanoKVM (`custom_components/nanokvm`), and proves properties of that
model:

- **Coordinator** (`Coordinator.dfy`): the `NanoKVMDataUpdateCoordinator`
  refresh. It authenticates when the client holds no token. It then reads the
  device's eleven sub-results one after another, assigning each coordinator
  attribute as its answer arrives, and returns the dictionary of all eleven.
  A rejected token leads to one more `authenticate` followed by a recursive
  refresh. Any other failure ends the refresh as `UpdateFailed`. The vendor
  client is an oracle: the n-th call the coordinator makes gets the n-th
  scripted reply. The imperative `DataUpdateCoordinator` class is proved
  equal, call for call and field for field, to the functional specification
  `Update`.
- **Integration** (`Integration.dfy`): `async_setup_entry`, `async_unload_entry`
  and the six domain services. Setup covers host normalisation, the first
  authentication and `get_info`, and the first refresh. The domain's table of
  loaded entries is a class whose methods keep it free of duplicates. A service
  call is broadcast to every loaded entry.
- **Entities** (`Entities.dfy`, `BinarySensor.dfy`, `Sensor.dfy`, `Button.dfy`,
  `Switch.dfy`, `Platforms.dfy`): the declarative entity tables of the four
  platforms. These cover which entities are created for a device, what each one
  shows, what pressing or switching does, and the unique ids built from the
  device key. They also cover the power switch's shutdown wait, which polls
  until the device reports power off or 300 seconds have passed.
- **Config flow** (`ConfigFlow.dfy`): the probe with default credentials,
  `validate_input`, the manual user step, zeroconf discovery (including the
  adoption of an entry that recorded the discovered id only in its data), and
  the discovery confirmation step.

`Common.dfy` holds the option, result and sequence helpers. `Device.dfy`
holds what the device reports and the control calls it accepts.

Two behaviours of the refresh are worth knowing:

- A refresh does not bound re-authentication. A token rejected during a
  refresh is retried by recursion, and
  `Coordinator.UnboundedReauthentication` shows that every number n of
  rejections followed by answers ends in success after n retries.
- A failed refresh keeps the attributes it already overwrote, because each
  coordinator attribute is assigned as soon as its read answers.
  `Coordinator.RefreshFailureKeepsPartialFields` states which attributes a
  failed refresh has already overwritten.

## Model

| member | source | states |
|---|---|---|
| Device.ComponentsDetermineState | custom_components/nanokvm/__init__.py:284-296 | two device reports that agree on all eleven reads are the same report, so the returned dictionary is determined by the reads |
| Coordinator.Unread | custom_components/nanokvm/__init__.py:240-253 | a new coordinator holds the device_info it was given and nothing for the ten other attributes |
| Coordinator.Publish | custom_components/nanokvm/__init__.py:284-296 | the dictionary a refresh returns holds exactly the value of every coordinator attribute |
| Coordinator.StoreAnswers | custom_components/nanokvm/__init__.py:271-282 | storing the answers from read i onwards leaves earlier attributes alone and never empties an attribute; when none of those reads fails, every attribute from i onwards holds a value |
| Coordinator.Authenticated | custom_components/nanokvm/__init__.py:265-267 | specifies one authenticate call; its effect on the token and the calls is stated by Coordinator.Client.Authenticate, which is proved to match it |
| Coordinator.FirstError | custom_components/nanokvm/__init__.py:271-282 | specifies the error a batch raises; Coordinator.FirstErrorAtStop states that it is the first failing read's error |
| Coordinator.FetchFrom | custom_components/nanokvm/__init__.py:269-282 | specifies a batch of reads; Coordinator.StoreAnswersField, Coordinator.FailedBatch and Coordinator.AnsweredBatchCalls state its calls and stored attributes |
| Coordinator.Attempt | custom_components/nanokvm/__init__.py:265-282 | a refresh attempt issues at least one call; when it raises nothing, every attribute holds a value; attributes that held values still do |
| Coordinator.Update | custom_components/nanokvm/__init__.py:262-307 | a successful refresh returns a dictionary equal to the attributes stored; a populated coordinator stays populated; the refresh fails with a communication error exactly when its attempt hit a non-authentication failure |
| Coordinator.ReadsIssued | custom_components/nanokvm/__init__.py:271-282 | a batch from read i issues at least one and at most 11 - i reads |
| Coordinator.StopIsFirstFailure | custom_components/nanokvm/__init__.py:271-282 | a batch stops at its first failing read: every read before it answered |
| Coordinator.FirstErrorAtStop | custom_components/nanokvm/__init__.py:271-282 | the error a batch raises is that of its first failing read, and none when all eleven answer |
| Coordinator.ReadsIssuedCount | custom_components/nanokvm/__init__.py:271-282 | a batch issues the answered reads plus the failing one, and nothing after it |
| Coordinator.ReadsIssuedInOrder | custom_components/nanokvm/__init__.py:271-282 | the reads are issued in the source's order, get_info first and get_cdrom_status last |
| Coordinator.StoreAnswersField | custom_components/nanokvm/__init__.py:271-282 | after a batch, an attribute holds its own part of its read's answer if that read answered, and is otherwise untouched |
| Coordinator.FailedBatch | custom_components/nanokvm/__init__.py:271-282 | a batch whose (k+1)-th read fails raises that error after k+1 calls, having overwritten exactly the first k attributes with their answers |
| Coordinator.StoredPrefix | custom_components/nanokvm/__init__.py:271-282 | a batch that stops after k answered reads has overwritten exactly the first k attributes |
| Coordinator.CommFailureEndsRefresh | custom_components/nanokvm/__init__.py:297-307 | a non-authentication failure while reading ends the refresh with a communication error and no retry |
| Coordinator.RefreshFailureKeepsPartialFields | custom_components/nanokvm/__init__.py:269-307 | a refresh whose (k+1)-th read fails reports a communication error, but the first k attributes already hold the new answers and the rest keep their old values |
| Coordinator.RejectedCredentialsEndRefresh | custom_components/nanokvm/__init__.py:265-305 | without a token, two rejected authentications end the refresh as an authentication failure after exactly those two calls, with the attributes unchanged |
| Coordinator.AnsweredBatchCalls | custom_components/nanokvm/__init__.py:271-282 | when all eleven reads answer, the batch raises nothing and issues exactly the eleven reads in order |
| Coordinator.AnsweredBatchFields | custom_components/nanokvm/__init__.py:271-282 | when all eleven reads return the same report, every attribute holds its part of it |
| Coordinator.CompleteRefresh | custom_components/nanokvm/__init__.py:262-296 | with a token and a device that answers, the refresh succeeds with the device's report after exactly the eleven reads |
| Coordinator.RejectedTokenRetries | custom_components/nanokvm/__init__.py:297-305 | a token rejected on the first read, followed by a successful authentication, makes the refresh the nested refresh when that one succeeds, and an authentication failure with the nested refresh's final state when it does not |
| Coordinator.RejectedTokenOutcome | custom_components/nanokvm/__init__.py:297-305 | after an authentication failure, the refresh fails as an authentication failure exactly when the re-authentication is rejected or the nested refresh does not succeed; otherwise it is the nested refresh |
| Coordinator.AttemptFirstCall | custom_components/nanokvm/__init__.py:265-271 | an attempt only adds calls, and its first call is authenticate without a token and get_info with one |
| Coordinator.UpdateExtendsAttempt | custom_components/nanokvm/__init__.py:262-305 | the calls of a refresh extend the calls of its first attempt |
| Coordinator.AuthenticatesExactlyWithoutToken | custom_components/nanokvm/__init__.py:265-271 | for every script, a refresh adds at least one call, and its first call is authenticate exactly when the client holds no token, get_info otherwise |
| Coordinator.UnboundedReauthentication | custom_components/nanokvm/__init__.py:297-305 | for every n, n token rejections each followed by a successful authentication end in success after n retry rounds, so the recursion has no bound |
| Coordinator.RetryRound | custom_components/nanokvm/__init__.py:297-305 | one rejected read and re-authentication followed by n - 1 more rounds succeeds after n retry rounds |
| Coordinator.Client.Authenticate | custom_components/nanokvm/__init__.py:265-267 | authenticating records one call, returns the scripted reply and leaves a token exactly when one was held or the reply answered |
| Coordinator.Client.Fetch | custom_components/nanokvm/__init__.py:271-281 | a read records one call, returns the scripted reply and keeps the token |
| Coordinator.DataUpdateCoordinator.constructor | custom_components/nanokvm/__init__.py:231-260 | a new coordinator holds its client, its credentials and only the device_info it was given |
| Coordinator.DataUpdateCoordinator.FetchOne | custom_components/nanokvm/__init__.py:271-281 | one read either fails, ending the batch with its error, or stores its answer and leaves the rest of the batch to the following reads |
| Coordinator.DataUpdateCoordinator.FetchAll | custom_components/nanokvm/__init__.py:269-282 | the loop over the eleven reads ends in the error and state that the batch specification gives |
| Coordinator.DataUpdateCoordinator.UpdateData | custom_components/nanokvm/__init__.py:262-307 | the imperative refresh returns the outcome, and leaves the client and attributes in the state, that `Update` specifies |
| Integration.NormalizeHost | custom_components/nanokvm/__init__.py:91-97 | the setup URL always has an http or https scheme and ends with "/api/" |
| Integration.NormalizeHostExtends | custom_components/nanokvm/__init__.py:91-97 | normalisation only adds: it keeps the host (prefixed with "http://" when it lacks a scheme), keeps https, and adds at most 12 characters |
| Integration.NormalizeHostFixedPoints | custom_components/nanokvm/__init__.py:91-97 | a host is left unchanged exactly when it already has a scheme and ends with "/api/" |
| Integration.NormalizeHostIdempotent | custom_components/nanokvm/__init__.py:91-97 | normalising twice equals normalising once |
| Integration.TrailingSlashDoubled | custom_components/nanokvm/__init__.py:96-97 | a host ending in "/" but not in "/api/" gets "/api/" appended after that slash, so the URL ends in "//api/" |
| Integration.SchemelessHost | custom_components/nanokvm/__init__.py:92-93 | a host without a scheme is normalised as if "http://" had been written before it |
| Integration.PushButtonSchema | custom_components/nanokvm/__init__.py:63-70 | a push_button call is accepted exactly when button_type is "power" or "reset" and any duration lies in 100..5000; a missing duration defaults to 100 |
| Integration.GpioFor | custom_components/nanokvm/__init__.py:133 | the power line is pushed exactly when button_type is "power" |
| Integration.ServiceAction | custom_components/nanokvm/__init__.py:128-195 | a service call maps to a control call unless its schema rejects it; push_button picks the power line for "power", the reset line for "reset", and sends the given duration (100 when none is given), which lies within bounds; paste_text sends the given text and wake_on_lan the given MAC address |
| Integration.FirstSetup | custom_components/nanokvm/__init__.py:85-123 | specifies setup on a new client; its outcomes are stated by Integration.SetupOutcomes |
| Integration.SetupOutcomes | custom_components/nanokvm/__init__.py:85-123 | setup is refused exactly when authentication or get_info is rejected; the entry is loaded exactly when both answer and the first refresh succeeds, and then with the normalised URL and that refresh's data |
| Integration.SetupOnAnsweringDevice | custom_components/nanokvm/__init__.py:85-123 | on a device that answers every call, setup loads with the normalised URL and the device's report |
| Integration.Domain.constructor | custom_components/nanokvm/__init__.py:122 | the domain's table of entries starts empty |
| Integration.Domain.Put | custom_components/nanokvm/__init__.py:122-123 | storing an entry adds it once and keeps the table free of duplicates |
| Integration.Domain.SetupEntry | custom_components/nanokvm/__init__.py:85-125 | an entry joins the table exactly when its setup loads; the result is the one `FirstSetup` specifies |
| Integration.Domain.Broadcast | custom_components/nanokvm/__init__.py:135-141 | a service is sent to every loaded entry in table order, and the entries whose call raised are exactly the failing ones, in order |
| Integration.Domain.HandleService | custom_components/nanokvm/__init__.py:128-195 | a rejected service call reaches no entry; an accepted one reaches every loaded entry with its control call |
| Integration.Domain.Unload | custom_components/nanokvm/__init__.py:219-225 | an entry leaves the table exactly when its platforms unloaded; otherwise the table is unchanged |
| Entities.UniqueId | custom_components/nanokvm/__init__.py:322 | builds an entity's unique id from the device key and the platform's suffix; Entities.UniqueIdInjective states that it identifies the entity |
| Entities.UniqueIdInjective | custom_components/nanokvm/__init__.py:322 | on one device, the unique id determines both the platform and the key |
| Entities.EntityIdsDistinct | custom_components/nanokvm/__init__.py:322 | entities of one platform with distinct keys get distinct unique ids |
| BinarySensor.TableKeysDistinct | custom_components/nanokvm/binary_sensor.py:41-115 | the ten binary sensor keys are distinct |
| BinarySensor.Created | custom_components/nanokvm/binary_sensor.py:126-133 | a binary sensor is created exactly when its availability predicate holds for the coordinator |
| BinarySensor.AvailableWhenMeans | custom_components/nanokvm/binary_sensor.py:41-115 | hdd_led needs "Alpha" hardware, wifi_connected needs WiFi support, cdrom_mode needs a mounted image, and all others are always available |
| BinarySensor.CreatedSensors | custom_components/nanokvm/binary_sensor.py:41-133 | the binary sensors created for a device are exactly those three conditional ones whose condition holds, plus the seven unconditional ones |
| BinarySensor.Setup | custom_components/nanokvm/binary_sensor.py:126-133 | specifies the binary sensors created for a device; BinarySensor.CreatedSensors and BinarySensor.SetupKeysDistinct state which ones |
| BinarySensor.IsOn | custom_components/nanokvm/binary_sensor.py:154-157 | specifies a binary sensor's state; BinarySensor.Readings states which attribute it shows |
| BinarySensor.Readings | custom_components/nanokvm/binary_sensor.py:41-157 | each binary sensor shows its own coordinator attribute, and cdrom_mode is on exactly when cdrom equals 1 |
| BinarySensor.SetupKeysDistinct | custom_components/nanokvm/binary_sensor.py:126-133 | the created binary sensors have distinct keys |
| BinarySensor.UniqueIdsDistinct | custom_components/nanokvm/binary_sensor.py:147-151 | the created binary sensors have pairwise distinct unique ids |
| Sensor.TableKeysDistinct | custom_components/nanokvm/sensor.py:38-79 | the five sensor keys are distinct |
| Sensor.Created | custom_components/nanokvm/sensor.py:90-97 | a sensor is created exactly when its availability predicate holds |
| Sensor.AvailableWhenMeans | custom_components/nanokvm/sensor.py:38-79 | oled_sleep needs an OLED, mounted_image needs a mounted file, and the rest are always available |
| Sensor.CreatedSensors | custom_components/nanokvm/sensor.py:38-97 | the created sensors are exactly the conditional ones whose condition holds plus the unconditional ones |
| Sensor.Setup | custom_components/nanokvm/sensor.py:90-97 | specifies the sensors created for a device; Sensor.CreatedSensors and Sensor.SetupKeysDistinct state which ones |
| Sensor.NativeValue | custom_components/nanokvm/sensor.py:38-79 | specifies a sensor's value; Sensor.MountedImageNeverEmpty states that a created mounted_image sensor never shows an empty name |
| Sensor.MountedImageNeverEmpty | custom_components/nanokvm/sensor.py:71-78 | a created mounted_image sensor never shows the empty file name |
| Sensor.SetupKeysDistinct | custom_components/nanokvm/sensor.py:90-97 | the created sensors have distinct keys |
| Sensor.UniqueIdsDistinct | custom_components/nanokvm/sensor.py:111-115 | the created sensors have pairwise distinct unique ids |
| Button.TableKeysDistinct | custom_components/nanokvm/button.py:34-75 | the six button keys are distinct |
| Button.Created | custom_components/nanokvm/button.py:86-93 | a button is created exactly when its availability predicate holds |
| Button.CreatedButtons | custom_components/nanokvm/button.py:34-93 | reset_hdmi is created exactly on "PCIE" hardware, and every other button always |
| Button.Press | custom_components/nanokvm/button.py:114-117 | specifies a press, including a control call that raises; Button.PressRefreshesOnce states its effects |
| Button.PressRefreshesOnce | custom_components/nanokvm/button.py:114-117 | pressing issues the button's control call first; when the call raises, that is all, and otherwise the press ends with the only refresh request it makes |
| Button.ButtonsMatchServices | custom_components/nanokvm/button.py:35-67 | the power, reset, reboot, reset_hdmi and reset_hid buttons issue the same control calls as the matching domain services with default arguments |
| Button.SetupKeysDistinct | custom_components/nanokvm/button.py:86-93 | the created buttons have distinct keys |
| Button.UniqueIdsDistinct | custom_components/nanokvm/button.py:107-111 | the created buttons have pairwise distinct unique ids |
| Switch.TableKeysDistinct | custom_components/nanokvm/switch.py:41-86 | the five switch keys are distinct |
| Switch.PowerKeyName | custom_components/nanokvm/switch.py:102 | the key name is "power" exactly for the power switch |
| Switch.SetupSwitches | custom_components/nanokvm/switch.py:89-118 | setup creates one entity per available switch, in table order, and the power switch alone gets the power-switch behaviour |
| Switch.AllSwitchesCreated | custom_components/nanokvm/switch.py:41-86 | no switch has an availability condition, so all five are created |
| Switch.IsOn | custom_components/nanokvm/switch.py:139-142 | specifies a switch's state; Platforms.SwitchesShowSensorValues states that it agrees with the matching binary sensors |
| Switch.TurnOn | custom_components/nanokvm/switch.py:144-162 | specifies turning on, including a control call that raises; Switch.TurnOnRefreshesOnce states its effects |
| Switch.TurnOff | custom_components/nanokvm/switch.py:149-152 | specifies turning off an entity of the plain class (the power entity overrides it, see Switch.TurnOffPower), including a control call that raises; Switch.TurnOffRefreshesOnce states its effects |
| Switch.TurnOnRefreshesOnce | custom_components/nanokvm/switch.py:144-162 | turning on issues the switch's on call first; when the call raises, that is all, and otherwise turning on ends with the only refresh request it makes |
| Switch.TurnOffRefreshesOnce | custom_components/nanokvm/switch.py:149-152 | turning a plain switch off issues its off call first; when the call raises, that is all, and otherwise it ends with the only refresh request it makes |
| Switch.ToggleSwitches | custom_components/nanokvm/switch.py:60-85 | on and off issue the same call exactly for the virtual network, virtual disk and power switches, which toggle |
| Switch.ElapsedAtLeast | custom_components/nanokvm/switch.py:173-179 | with polls at least five seconds apart, the j-th poll comes at least 5(j-1) seconds after the start |
| Switch.WithinTimeout | custom_components/nanokvm/switch.py:169-173 | a poll that starts within the 300-second timeout is among the first 60 |
| Switch.PollsFrom | custom_components/nanokvm/switch.py:169-183 | specifies the effects of the shutdown wait; Switch.KeepPolling, Switch.SeenOff and Switch.TimeUp state its three cases |
| Switch.KeepPolling | custom_components/nanokvm/switch.py:173-179 | a poll that still sees power on requests a refresh, waits five seconds and continues with the next poll |
| Switch.SeenOff | custom_components/nanokvm/switch.py:174-178 | a poll that sees power off requests two refreshes and ends the wait |
| Switch.TimeUp | custom_components/nanokvm/switch.py:173-183 | once the timeout has passed, the wait ends with a single final refresh request |
| Switch.TurnOffPower | custom_components/nanokvm/switch.py:164-183 | turning power off pushes the power button; when that call raises, nothing follows; otherwise it polls at most 60 times; it confirms exactly when the last poll saw power off, no earlier poll did, and otherwise 300 seconds have passed; it makes one refresh request per poll plus one |
| Switch.SetupKeysDistinct | custom_components/nanokvm/switch.py:89-118 | the created switches have distinct keys |
| Switch.UniqueIdsDistinct | custom_components/nanokvm/switch.py:132-136 | the created switches have pairwise distinct unique ids |
| Platforms.JoinPlatforms | custom_components/nanokvm/__init__.py:322 | entities of the four platforms with distinct keys per platform get distinct unique ids across all platforms |
| Platforms.AllUniqueIdsDistinct | custom_components/nanokvm/__init__.py:322 | all entities created for one device have pairwise distinct unique ids |
| Platforms.SwitchesShowSensorValues | custom_components/nanokvm/switch.py:47-82 | the ssh, mdns, virtual network, virtual disk and power switches show the same attribute as the matching binary sensors |
| ConfigFlow.ProbeUrlIsSetupUrl | custom_components/nanokvm/config_flow.py:33 | for a bare address, the probe's URL is the URL that setup's normalisation gives for that same address |
| ConfigFlow.Probe | custom_components/nanokvm/config_flow.py:29-62 | the probe yields a device exactly when the default-credential authentication and get_info both answer, and then yields get_info's answer |
| ConfigFlow.ErrorKey | custom_components/nanokvm/config_flow.py:166-172 | the three flow errors show as "cannot_connect", "invalid_auth" and "unknown", one key each |
| ConfigFlow.ValidationUrlIsSetupUrl | custom_components/nanokvm/config_flow.py:88-94 | validation normalises the host exactly as setup does |
| ConfigFlow.ValidationUrl | custom_components/nanokvm/config_flow.py:88-94 | specifies the URL validation uses; ConfigFlow.ValidationUrlIsSetupUrl states that it equals setup's |
| ConfigFlow.ValidateInput | custom_components/nanokvm/config_flow.py:80-113 | a missing host is an unexpected error; a rejected authentication or get_info is invalid auth; any other failure of either is cannot-connect; otherwise the result is titled after the mDNS name and identified by the device key |
| ConfigFlow.BeforeFirstDot | custom_components/nanokvm/config_flow.py:208 | the discovered name is the part of the service name before its first dot |
| ConfigFlow.DiscoveryUniqueId | custom_components/nanokvm/config_flow.py:208-211 | specifies a discovery's unique id: the announced id, or else the service name's first label, as ConfigFlow.BeforeFirstDot states |
| ConfigFlow.UserUniqueId | custom_components/nanokvm/config_flow.py:175-195 | specifies the user step's unique id; ConfigFlow.Flow.StepUser states how it is used |
| ConfigFlow.Adopted | custom_components/nanokvm/config_flow.py:247-265 | specifies the adoption of an entry's unique id; ConfigFlow.Flow.StepZeroconf states when it happens |
| ConfigFlow.Flow.constructor | custom_components/nanokvm/config_flow.py:121-127 | a new flow has nothing discovered, no unique id and no successful default authentication |
| ConfigFlow.Flow.AbortIfUniqueIdConfigured | custom_components/nanokvm/config_flow.py:130-142 | the flow aborts exactly when it has a unique id and an existing entry carries that id |
| ConfigFlow.Flow.StepUser | custom_components/nanokvm/config_flow.py:144-201 | no input shows the form; a validation error shows the form with that error's key; otherwise the unique id becomes the zeroconf id or the device key, and the step aborts if an entry has it and creates the entry otherwise; an entry is created only for an unused id |
| ConfigFlow.Flow.StepZeroconf | custom_components/nanokvm/config_flow.py:203-295 | records the discovery; after a successful probe, the first entry that knows the id aborts the flow and is adopted under it, and with no such entry the confirm form is shown; after a failed probe, the flow aborts exactly when an entry has the id |
| ConfigFlow.Flow.StepZeroconfConfirm | custom_components/nanokvm/config_flow.py:297-344 | without input it shows the confirm form; after default authentication it validates and creates the entry with the default credentials and the discovered id, or aborts; otherwise it hands the discovered host to the user step with username "admin", no password and the discovery flags: a validation error shows the user form, a taken id aborts as already configured, and otherwise the entry is created with the validated title, the discovered host, "admin", an empty password, the unique id and the discovery flags |

## Left out

- The Home Assistant framework is not modelled: forms and their schemas,
  translations, `title_placeholders`, the abort of a flow whose unique id is
  already in progress in another flow, the scheduling of refreshes every 30
  seconds, and the debouncing of refresh requests. A refresh request appears
  only as an effect in a trace.
- The vendor client library and the network are not modelled. Every call
  yields the next reply of a script. Credentials, hosts and SSL settings
  influence only which script a caller passes in. `ignore_ssl` and client
  sessions are left out.
- A script is finite, and every call past its end fails with a communication
  error. A device that rejects every token forever, on which the refresh at
  `__init__.py:297-305` would recurse without end, is therefore not
  representable: the model's recursion stops when the script runs out.
  `Coordinator.UnboundedReauthentication` covers every finite number of
  rejections.
- The 10-second timeout around the eleven reads is folded into
  communication failure: a read that would time out is a scripted
  `Fail(CommFailure)`.
- Logging, icons, entity categories, device classes, units, names and the
  `device_info` registry property (`__init__.py:324-333`) are left out.
- The clock is a parameter: the power switch's shutdown wait takes the time of
  each poll as a function `now`. It also takes the coordinator's GPIO
  attribute at each poll as a function `gpio`, which hides how the requested
  refreshes change it.
- Switch.TurnOffPower: assumes that polls start at least five seconds apart,
  so it does not model a clock that stalls.
- The paste_text and wake_on_lan services are reduced to whether their
  argument is present. The content of the text and the MAC address is passed
  on unchecked.
- An exception in a service handler other than the device's own errors is
  not modelled separately; it counts as the entry failing.
- Entries added or removed by other flows between the steps of one config
  flow are not modelled: a flow sees one fixed list of existing entries.
- ConfigFlow.Probe: an exception other than the client's authentication,
  connection and device errors, which the source would let propagate, is
  not modelled.
- A missing key in the user input reads as absent (`None`), and a missing
  `discovered_via_zeroconf` flag reads as false, as `dict.get` does.
- `sensor.py:17` imports `EntityCategoryry`, a name that does not exist. The
  model assumes the module loads.
- The discovery probe reaches the announced address (`config_flow.py:207`),
  but the flow stores the announced host name as the entry's host
  (`config_flow.py:217`). The model keeps both as given and does not relate a
  host name to an address.
- The user step checks only each entry's unique id and not the `unique_id`
  stored in its data. The confirm step's default-credential path creates the
  entry without checking again and relies on the check made in the zeroconf
  step. Both are modelled as written.
