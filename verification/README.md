# Voximplant React Native bridge: listener registry and legacy argument defaulting

This project models the two parts of the React Native Voximplant bridge that
do more than forward a call to a native module:

- **`AudioDeviceManager`** (`audio_device_manager.dfy`, module `AudioDevices`):
  a singleton whose `listeners` table maps an event name to the set of handlers
  registered for it. `on` and `off` update the table in place. `_emit` calls
  every handler in the set for an event with the event's arguments. The two
  native callbacks `_onDeviceChanged` and `_onDeviceListChanged` re-emit their
  payload under `DeviceChanged` and `DeviceListChanged`. The manager is a class
  with a `listeners: map<string, seq<H>>` field. A JavaScript `Set` keeps each
  element once, in insertion order, and iterates in that order, so a handler
  set is a sequence without duplicates. Handlers are opaque values compared by
  identity (type parameter `H`); payloads are opaque (`P`). `_emit` returns
  the calls it makes, as `Invocation(handler, args)` values. The static
  `_instance` field and `getInstance` live on a second class,
  `ManagerSingleton`, because Dafny classes have no static mutable fields.
- **The legacy facade** (`legacy.dfy`, module `Legacy`, over the JavaScript
  values of `js_values.dfy`, module `JsValues`): `init`, `connect`,
  `createCall`, `startCall`, `disconnectCall`, `declineCall`, `answerCall` and
  `sendInfo` become functions. `init` and `connect` take the platform
  (`Android`, `IOS` or `Other`), because only they branch on `Platform.OS`.
  They return a `Result<Forwarded>`: the options object as they leave it
  (they write defaults into the caller's object), plus the call made, if
  any. The other six take only their possibly-undefined arguments. They
  return the `NativeCall` (method name and argument list) handed to
  `VoxImplantModule`. The facade runs in strict
  mode, so writing a default into a truthy primitive passed as `options`
  (a string, a number, `true`) throws a `TypeError`. The model returns that
  error as `Result.TypeError`.

Three facts about the code shape the model:

- `_emit` has no `try`/`catch` (src/hardware/AudioDeviceManager.js:90-92),
  so a throwing handler stops delivery to the rest; handler failures are not
  modelled and no isolation is claimed.
- A `Set` iterates in insertion order, so the model fixes the call order.
- The constructor throws only once `getInstance` has recorded an instance
  (src/hardware/AudioDeviceManager.js:49); it records nothing itself, so
  `ConstructBeforeGetInstance` shows two managers can exist.

The code's field name is used over its documentation's:

- A doc comment names the field `provideLocalFramesInByteBuffers`
  (src/Legacy.js:495), but the code reads and writes
  `provideLocalFramesInByteBuffer` (src/Legacy.js:27-28). The model uses the
  code's name.

On the path where `customData` is the callback, `createCall` forwards `video`
as given, without defaulting an undefined `video` to `false`
(src/Legacy.js:73-78). `CreateCallKeepsUndefinedVideo` records this behaviour.

## Model

| member | source | states |
|---|---|---|
| `JsValues.ValueOr` | src/Legacy.js:151 | `v === undefined ? d : v`: a supplied value (including `null`) passes unchanged; only `undefined` is replaced; the result is never undefined when the default is not |
| `Legacy.OptionsOrEmpty` | src/Legacy.js:23 | a falsy `options` becomes `{}`; a truthy one is kept; the result is always truthy |
| `Legacy.SetIfUndefined` | src/Legacy.js:25-29 | the write of one default succeeds exactly on objects (strict mode throws on primitives); it fills the field only when undefined, returns the object unchanged when the field is set, and leaves every other field and the object's kind alone |
| `Legacy.FilledOnlyStep` | src/Legacy.js:25-29 | each further default statement on a field not yet defaulted extends the set of filled fields by that one field and changes nothing else |
| `Legacy.InitAndroid` | src/Legacy.js:24-34 | on an object, fills only the undefined fields among the four Android options and forwards their resulting values in order; on a primitive, throws |
| `Legacy.InitIOS` | src/Legacy.js:35-38 | on an object, fills only an undefined `logLevel` with `'info'` and forwards that one value; on a primitive, throws |
| `Legacy.Init` | src/Legacy.js:22-39 | throws exactly when the platform is Android or iOS and `options` is a truthy non-object; on Android fills only the undefined fields among `enableVideo`, `enableHWAcceleration`, `provideLocalFramesInByteBuffer`, `enableDebugLogging` (defaults true, true, false, false) and forwards those four values in order; on iOS fills only `logLevel` (default `'info'`) and forwards it; elsewhere forwards nothing and changes nothing |
| `Legacy.Connect` | src/Legacy.js:45-55 | throws exactly when `options` is a truthy non-object, on every platform; always fills only an undefined `connectivityCheck` (default true); on Android also fills `servers` (default `[]`) and forwards both; on iOS forwards `connectivityCheck` alone; elsewhere forwards nothing |
| `Legacy.InitIdempotent` | src/Legacy.js:22-39 | calling `init` again with the options object it left behind changes nothing further and forwards the same call |
| `Legacy.ConnectIdempotent` | src/Legacy.js:45-55 | calling `connect` again with the options object it left behind changes nothing further and forwards the same call |
| `Legacy.CreateCall` | src/Legacy.js:65-85 | always forwards four arguments with `to` first; if `video` is a function, forwards `(to, false, "", video)` whatever the others are; else if `customData` is a function, forwards `(to, video, "", customData)`; else forwards the arguments positionally, with undefined `video`, `customData` and `callback` replaced by `false`, `""` and a no-op function, and supplied values passed through |
| `Legacy.CreateCallCallbackSlot` | src/Legacy.js:65-85 | the video and custom-data slots never carry a function; the callback slot carries one exactly when a function was supplied in some callback position or the callback was left out |
| `Legacy.CreateCallShapes` | src/Legacy.js:65-85 | the historical call shapes `(to, cb)`, `(to, video, cb)`, `(to, video, customData, cb)` and `(to)` resolve to the expected four-argument calls |
| `Legacy.CreateCallKeepsUndefinedVideo` | src/Legacy.js:73-78 | when the callback comes third, an undefined `video` is forwarded as undefined |
| `Legacy.StartCall` | src/Legacy.js:150-152 | forwards `(callId, headers)`, with `{}` for undefined headers and supplied headers unchanged; never forwards undefined headers |
| `Legacy.DisconnectCall` | src/Legacy.js:170-172 | forwards `(callId, headers)`, with `{}` for undefined headers and supplied headers unchanged |
| `Legacy.DeclineCall` | src/Legacy.js:180-182 | forwards `(callId, headers)`, with `{}` for undefined headers and supplied headers unchanged |
| `Legacy.AnswerCall` | src/Legacy.js:190-194 | forwards `(callId, customData, headers)`, with `null` for undefined custom data and `{}` for undefined headers; supplied values unchanged |
| `Legacy.SendInfo` | src/Legacy.js:214-216 | forwards `(callId, mimeType, content, headers)` with the first three unchanged, `{}` for undefined headers and supplied headers unchanged |
| `AudioDevices.Insert` | src/hardware/AudioDeviceManager.js:69 | `Set.add`: the handler is present afterwards, nothing else is added, an already-present handler changes nothing, the existing order is kept, and no duplicate is created |
| `AudioDevices.Delete` | src/hardware/AudioDeviceManager.js:80 | `Set.delete`: the handler is absent afterwards, every other handler remains, nothing is added, an absent handler changes nothing, and no duplicate is created |
| `AudioDevices.DeleteAt` | src/hardware/AudioDeviceManager.js:80 | on a duplicate-free set, deleting the handler at position `k` yields the set without that position, every other handler kept in its order |
| `AudioDevices.Subscribe` | src/hardware/AudioDeviceManager.js:65-70 | after `on(e, h)` the table has an entry for `e` (created if absent) containing `h` and exactly the old handlers plus `h`; re-adding `h` leaves the entry unchanged; every other event's set is untouched; sets stay duplicate-free |
| `AudioDevices.Unsubscribe` | src/hardware/AudioDeviceManager.js:78-82 | after `off(e, h)` the table has the same events (no entry is created or removed); `h` is not registered for `e`; all other handlers of `e` remain; other events are untouched; an unknown event or handler changes nothing |
| `AudioDevices.SubscribeIdempotent` | src/hardware/AudioDeviceManager.js:69 | `on(e, h)` twice leaves the same table as `on(e, h)` once |
| `AudioDevices.OnAfterOffSameHandlers` | src/hardware/AudioDeviceManager.js:65-82 | `off(e, h)` then `on(e, h)` leaves `e` with the same handlers as `on(e, h)` alone |
| `AudioDevices.Fanout` | src/hardware/AudioDeviceManager.js:90-92 | the loop makes one call per handler, in iteration order, each with the same arguments |
| `AudioDevices.FanoutExactlyOnce` | src/hardware/AudioDeviceManager.js:87-94 | over a duplicate-free set, each registered handler is called exactly once with the emitted arguments, and no other call is made |
| `AudioDevices.EmitAfterOnCallsOnce` | src/hardware/AudioDeviceManager.js:65-94 | after `on(e, h)`, emitting `e` calls `h` exactly once, however often it was registered |
| `AudioDevices.EmitAfterOffSkips` | src/hardware/AudioDeviceManager.js:78-94 | after `off(e, h)`, emitting `e` never calls `h` and still calls every other handler of `e` exactly once |
| `AudioDevices.AudioDeviceManager.constructor` | src/hardware/AudioDeviceManager.js:52 | a new manager starts with an empty, well-formed table |
| `AudioDevices.AudioDeviceManager.On` | src/hardware/AudioDeviceManager.js:65-70 | updates `listeners` in place to `Subscribe` of the old table, keeping every set duplicate-free |
| `AudioDevices.AudioDeviceManager.Off` | src/hardware/AudioDeviceManager.js:78-82 | updates `listeners` in place to `Unsubscribe` of the old table, keeping every set duplicate-free |
| `AudioDevices.AudioDeviceManager.Emit` | src/hardware/AudioDeviceManager.js:87-94 | makes no call for an event without a set; otherwise calls each handler of the set once, in order, with `args`, i.e. returns exactly `Fanout` of the current set, so `FanoutExactlyOnce` applies to it; modifies nothing, so the table is unchanged |
| `AudioDevices.AudioDeviceManager.OnDeviceChanged` | src/hardware/AudioDeviceManager.js:127-130 | re-emits the native payload unchanged, as the one argument, under `DeviceChanged` |
| `AudioDevices.AudioDeviceManager.OnDeviceListChanged` | src/hardware/AudioDeviceManager.js:135-138 | re-emits the native payload unchanged, as the one argument, under `DeviceListChanged` |
| `AudioDevices.ManagerSingleton.constructor` | src/hardware/AudioDeviceManager.js:31 | no instance is recorded at start |
| `AudioDevices.ManagerSingleton.Construct` | src/hardware/AudioDeviceManager.js:48-55 | throws the misuse error when an instance is recorded; otherwise yields a fresh manager with an empty table and records nothing |
| `AudioDevices.ManagerSingleton.GetInstance` | src/hardware/AudioDeviceManager.js:38-43 | the first call constructs, records and returns a fresh manager; every later call returns the recorded instance |
| `AudioDevices.SingletonScenario` | src/hardware/AudioDeviceManager.js:38-51 | two `getInstance` calls return the same manager, and a direct construction after them throws |
| `AudioDevices.ConstructBeforeGetInstance` | src/hardware/AudioDeviceManager.js:38-51 | a direct construction before the first `getInstance` succeeds, and `getInstance` then returns a different manager |
| `AudioDevices.DeviceChangedScenario` | src/hardware/AudioDeviceManager.js:65-130 | a handler registered for `DeviceChanged` is called once with the native payload; after `off` it is not called |

## Left out

- Every call to `VoxImplantModule` and `AudioDeviceModule` is a foreign native call. The model records it as a `NativeCall` value, or omits it. It does not model the promises those calls return, such as `getActiveDevice` and `getAudioDevices`, or the value that `createCall` returns.
- `selectAudioDevice`, `login`, `loginUsingOneTimeKey`, `loginUsingAccessToken`, `refreshToken`, `requestOneTimeKey`, `closeConnection`, `sendDTMF`, `sendMessage`, `setMute`, `setUseLoudspeaker`, `setVideoResizeMode`, `sendVideo`, `setCameraResolution` and `switchToCamera` are left out. So are the push-notification methods. Each one forwards its arguments unchanged and has nothing to state.
- The `NativeEventEmitter`/`DeviceEventEmitter` wiring, `Platform.select` and `console.log` are left out. They are framework plumbing and I/O.
- The constant tables (`Events`, `VideoResizeMode`, `CameraType`, `LogLevel`) and the empty config objects are left out. They are plain data.
- The default-exported `VoximplantLegacy` instance is left out. It is created once and holds no state.
- `AudioDeviceEvents` is not part of this model. Its two values are taken to be `"DeviceChanged"` and `"DeviceListChanged"`.
- Exceptions thrown by handlers are not modelled. A throwing handler would stop `_emit`'s loop, because the loop has no `try`/`catch`.
- A handler that calls `on` or `off` on the same set while `_emit` iterates it is not modelled. `Set` iteration would see the change.
- Event delivery interleaved with `on`/`off` is not modelled. The code does not address concurrency.
- `listeners` is a plain object, so an event name such as `"toString"` would hit `Object.prototype`. The model's table has only the entries that `on` created.
- Numbers are integers, so `NaN` and the truthiness of other floating-point values are not modelled. Property reads see only an object's own properties, not its prototype chain. Frozen objects, which would also make a default write throw, are not modelled.
- The no-op callback that `createCall` creates (src/Legacy.js:83) is a new function object on every call, so two of them are distinct in JavaScript; the model represents every such callback by the one value `EmptyCallbackFn` and does not track that identity.
