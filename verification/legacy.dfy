/** The deprecated `VoximplantLegacy` facade: each method fills in defaults
    for the arguments it was given and forwards one call to the native
    `VoxImplantModule`. Every method is modelled as a function from its
    (possibly undefined) arguments to the call forwarded. `init` and
    `connect`, the only methods that branch on `Platform.OS`, also take the
    platform and return the caller's options object as they leave it. */
module Legacy {
  import opened JsValues

  /** `Platform.OS`: the two targets the facade branches on, and any other. */
  datatype Platform = Android | IOS | Other

  datatype Option<T> = None | Some(value: T)

  /** A method of the native module and the arguments it receives, in order. */
  datatype NativeCall = NativeCall(name: string, args: seq<JsValue>)

  /** The outcome of a method that may throw: the facade runs in strict mode,
      so creating a property on a primitive value throws a `TypeError`. */
  datatype Result<T> = Ok(value: T) | TypeError
  {
    predicate IsFailure() { TypeError? }

    function PropagateFailure<U>(): Result<U>
    {
      TypeError
    }

    function Extract(): T
      requires Ok?
    {
      value
    }
  }

  /** What `init` or `connect` leaves behind: the options object after its
      fields were defaulted (the caller's own object when one was passed),
      and the native call made, if any. */
  datatype Forwarded = Forwarded(options: JsValue, call: Option<NativeCall>)

  const AndroidInitDefaults: map<string, JsValue> := map[
    "enableVideo" := Bool(true),
    "enableHWAcceleration" := Bool(true),
    "provideLocalFramesInByteBuffer" := Bool(false),
    "enableDebugLogging" := Bool(false)]

  const IOSInitDefaults: map<string, JsValue> := map["logLevel" := Str("info")]

  const AndroidConnectDefaults: map<string, JsValue> := map[
    "connectivityCheck" := Bool(true),
    "servers" := EmptyArray]

  const ConnectDefaults: map<string, JsValue> := map["connectivityCheck" := Bool(true)]

  /** `if (!options) options = {}`. */
  function OptionsOrEmpty(options: JsValue): (r: JsValue)
    ensures Truthy(r)
    ensures Truthy(options) ==> r == options
    ensures !Truthy(options) ==> r == EmptyObject
  {
    if Truthy(options) then options else EmptyObject
  }

  /** `if (o[key] === undefined) o[key] = d`: succeeds exactly on objects,
      fills the one field only when it is undefined, and leaves every other
      field alone. */
  function SetIfUndefined(o: JsValue, key: string, d: JsValue): (r: Result<JsValue>)
    ensures r.Ok? <==> o.Obj?
    ensures Get(o, key) != Undefined ==> r == Ok(o)
    ensures r.Ok? ==> r.value.Obj? && r.value.kind == o.kind
    ensures r.Ok? ==> Get(r.value, key) == ValueOr(Get(o, key), d)
    ensures r.Ok? ==> forall k :: k != key ==> Get(r.value, k) == Get(o, k)
  {
    if Get(o, key) != Undefined then Ok(o)
    else if o.Obj? then Ok(Obj(o.kind, o.props[key := d]))
    else TypeError
  }

  /** `after` is the object `before` with exactly the undefined fields named
      in `defaults` filled in, and nothing else changed. */
  ghost predicate FilledOnly(before: JsValue, after: JsValue, defaults: map<string, JsValue>)
  {
    && before.Obj? && after.Obj? && after.kind == before.kind
    && forall k :: Get(after, k) == (if k in defaults then ValueOr(Get(before, k), defaults[k]) else Get(before, k))
  }

  /** One more `if (o[key] === undefined) o[key] = d` on a field not yet
      defaulted extends what has been filled by that one field. */
  lemma FilledOnlyStep(before: JsValue, mid: JsValue, after: JsValue, defaults: map<string, JsValue>, key: string, d: JsValue)
    requires FilledOnly(before, mid, defaults)
    requires key !in defaults
    requires SetIfUndefined(mid, key, d) == Ok(after)
    ensures FilledOnly(before, after, defaults[key := d])
  {
    forall k ensures Get(after, k) == (if k in defaults[key := d] then ValueOr(Get(before, k), defaults[key := d][k]) else Get(before, k)) {
      if k != key {
        assert Get(after, k) == Get(mid, k);
      }
    }
  }

  /** The Android branch of `init` on the options object: the four fields
      defaulted in turn, then read back and forwarded in that order. */
  function InitAndroid(o: JsValue): (r: Result<Forwarded>)
    ensures r.Ok? <==> o.Obj?
    ensures r.Ok? ==>
      && FilledOnly(o, r.value.options, AndroidInitDefaults)
      && r.value.call == Some(NativeCall("init", [
           ValueOr(Get(o, "enableVideo"), Bool(true)),
           ValueOr(Get(o, "enableHWAcceleration"), Bool(true)),
           ValueOr(Get(o, "provideLocalFramesInByteBuffer"), Bool(false)),
           ValueOr(Get(o, "enableDebugLogging"), Bool(false))]))
  {
    var o1 :- SetIfUndefined(o, "enableVideo", Bool(true));
    FilledOnlyStep(o, o, o1, map[], "enableVideo", Bool(true));
    var o2 :- SetIfUndefined(o1, "enableHWAcceleration", Bool(true));
    FilledOnlyStep(o, o1, o2, map["enableVideo" := Bool(true)], "enableHWAcceleration", Bool(true));
    var o3 :- SetIfUndefined(o2, "provideLocalFramesInByteBuffer", Bool(false));
    FilledOnlyStep(o, o2, o3, map["enableVideo" := Bool(true), "enableHWAcceleration" := Bool(true)],
                   "provideLocalFramesInByteBuffer", Bool(false));
    var o4 :- SetIfUndefined(o3, "enableDebugLogging", Bool(false));
    FilledOnlyStep(o, o3, o4, map["enableVideo" := Bool(true), "enableHWAcceleration" := Bool(true),
                                  "provideLocalFramesInByteBuffer" := Bool(false)],
                   "enableDebugLogging", Bool(false));
    Ok(Forwarded(o4, Some(NativeCall("init", [
      Get(o4, "enableVideo"),
      Get(o4, "enableHWAcceleration"),
      Get(o4, "provideLocalFramesInByteBuffer"),
      Get(o4, "enableDebugLogging")]))))
  }

  /** The iOS branch of `init` on the options object. */
  function InitIOS(o: JsValue): (r: Result<Forwarded>)
    ensures r.Ok? <==> o.Obj?
    ensures r.Ok? ==>
      && FilledOnly(o, r.value.options, IOSInitDefaults)
      && r.value.call == Some(NativeCall("init", [ValueOr(Get(o, "logLevel"), Str("info"))]))
  {
    var o1 :- SetIfUndefined(o, "logLevel", Str("info"));
    FilledOnlyStep(o, o, o1, map[], "logLevel", Str("info"));
    Ok(Forwarded(o1, Some(NativeCall("init", [Get(o1, "logLevel")]))))
  }

  /** `init(options)`. */
  function Init(os: Platform, options: JsValue): (r: Result<Forwarded>)
    ensures r.TypeError? <==> os != Other && Truthy(options) && !options.Obj?
    ensures os == Android && r.Ok? ==>
      var before := OptionsOrEmpty(options);
      && FilledOnly(before, r.value.options, AndroidInitDefaults)
      && r.value.call == Some(NativeCall("init", [
           ValueOr(Get(before, "enableVideo"), Bool(true)),
           ValueOr(Get(before, "enableHWAcceleration"), Bool(true)),
           ValueOr(Get(before, "provideLocalFramesInByteBuffer"), Bool(false)),
           ValueOr(Get(before, "enableDebugLogging"), Bool(false))]))
    ensures os == IOS && r.Ok? ==>
      var before := OptionsOrEmpty(options);
      && FilledOnly(before, r.value.options, IOSInitDefaults)
      && r.value.call == Some(NativeCall("init", [ValueOr(Get(before, "logLevel"), Str("info"))]))
    ensures os == Other ==> r == Ok(Forwarded(OptionsOrEmpty(options), None))
  {
    var o := OptionsOrEmpty(options);
    match os
    case Android => InitAndroid(o)
    case IOS => InitIOS(o)
    case Other => Ok(Forwarded(o, None))
  }

  /** `connect(options)`: `connectivityCheck` is defaulted on every platform,
      before the platform is looked at. */
  function Connect(os: Platform, options: JsValue): (r: Result<Forwarded>)
    ensures r.TypeError? <==> Truthy(options) && !options.Obj?
    ensures os == Android && r.Ok? ==>
      var before := OptionsOrEmpty(options);
      && FilledOnly(before, r.value.options, AndroidConnectDefaults)
      && r.value.call == Some(NativeCall("connect", [
           ValueOr(Get(before, "connectivityCheck"), Bool(true)),
           ValueOr(Get(before, "servers"), EmptyArray)]))
    ensures os != Android && r.Ok? ==>
      var before := OptionsOrEmpty(options);
      && FilledOnly(before, r.value.options, ConnectDefaults)
      && r.value.call == (if os == IOS
                          then Some(NativeCall("connect", [ValueOr(Get(before, "connectivityCheck"), Bool(true))]))
                          else None)
  {
    var o := OptionsOrEmpty(options);
    var o1 :- SetIfUndefined(o, "connectivityCheck", Bool(true));
    FilledOnlyStep(o, o, o1, map[], "connectivityCheck", Bool(true));
    match os
    case Android =>
      var o2 :- SetIfUndefined(o1, "servers", EmptyArray);
      FilledOnlyStep(o, o1, o2, ConnectDefaults, "servers", EmptyArray);
      Ok(Forwarded(o2, Some(NativeCall("connect", [Get(o2, "connectivityCheck"), Get(o2, "servers")]))))
    case IOS =>
      Ok(Forwarded(o1, Some(NativeCall("connect", [Get(o1, "connectivityCheck")]))))
    case Other =>
      Ok(Forwarded(o1, None))
  }

  /** Calling `init` again with the options object it left behind changes
      nothing further and forwards the same values. */
  lemma InitIdempotent(os: Platform, options: JsValue)
    requires Init(os, options).Ok?
    ensures Init(os, Init(os, options).value.options) == Init(os, options)
  {
  }

  /** Calling `connect` again with the options object it left behind changes
      nothing further and forwards the same values. */
  lemma ConnectIdempotent(os: Platform, options: JsValue)
    requires Connect(os, options).Ok?
    ensures Connect(os, Connect(os, options).value.options) == Connect(os, options)
  {
  }

  /** `createCall(to, video, customData, callback)`: the overload chosen by
      which argument is a function. */
  function CreateCall(to: JsValue, video: JsValue, customData: JsValue, callback: JsValue): (r: NativeCall)
    ensures r.name == "createCall" && |r.args| == 4 && r.args[0] == to
    ensures IsFunction(video) ==> r.args[1..] == [Bool(false), Str(""), video]
    ensures !IsFunction(video) && IsFunction(customData) ==> r.args[1..] == [video, Str(""), customData]
    ensures !IsFunction(video) && !IsFunction(customData) ==>
      r.args[1..] == [ValueOr(video, Bool(false)), ValueOr(customData, Str("")), ValueOr(callback, EmptyCallbackFn)]
  {
    if IsFunction(video) then
      NativeCall("createCall", [to, Bool(false), Str(""), video])
    else if IsFunction(customData) then
      NativeCall("createCall", [to, video, Str(""), customData])
    else
      NativeCall("createCall", [to, ValueOr(video, Bool(false)), ValueOr(customData, Str("")), ValueOr(callback, EmptyCallbackFn)])
  }

  /** Whatever shape the caller used, only the callback slot can carry a
      function, and it does exactly when some function was supplied in a
      callback position or the callback was left out. */
  lemma CreateCallCallbackSlot(to: JsValue, video: JsValue, customData: JsValue, callback: JsValue)
    ensures var r := CreateCall(to, video, customData, callback);
      && !IsFunction(r.args[1]) && !IsFunction(r.args[2])
      && (IsFunction(r.args[3]) <==>
            IsFunction(video) || IsFunction(customData) || callback == Undefined || IsFunction(callback))
  {
    var r := CreateCall(to, video, customData, callback);
    assert r.args[1..][0] == r.args[1] && r.args[1..][1] == r.args[2] && r.args[1..][2] == r.args[3];
  }

  /** The historical call shapes resolve as the legacy callers expect. */
  lemma CreateCallShapes(to: JsValue, fn: JsValue, video: bool, customData: string)
    requires IsFunction(fn)
    ensures CreateCall(to, fn, Undefined, Undefined) == NativeCall("createCall", [to, Bool(false), Str(""), fn])
    ensures CreateCall(to, Bool(video), fn, Undefined) == NativeCall("createCall", [to, Bool(video), Str(""), fn])
    ensures CreateCall(to, Bool(video), Str(customData), fn) == NativeCall("createCall", [to, Bool(video), Str(customData), fn])
    ensures CreateCall(to, Undefined, Undefined, Undefined) == NativeCall("createCall", [to, Bool(false), Str(""), EmptyCallbackFn])
  {
  }

  /** When the callback comes third, `video` is forwarded as given: an
      undefined `video` is not defaulted to `false` on that path. */
  lemma CreateCallKeepsUndefinedVideo(to: JsValue, fn: JsValue, callback: JsValue)
    requires IsFunction(fn)
    ensures CreateCall(to, Undefined, fn, callback).args[1] == Undefined
  {
  }

  /** `startCall(callId, headers)`. */
  function StartCall(callId: JsValue, headers: JsValue): (r: NativeCall)
    ensures r.name == "startCall" && |r.args| == 2 && r.args[0] == callId
    ensures r.args[1] != Undefined
    ensures headers != Undefined ==> r.args[1] == headers
    ensures headers == Undefined ==> r.args[1] == EmptyObject
  {
    NativeCall("startCall", [callId, ValueOr(headers, EmptyObject)])
  }

  /** `disconnectCall(callId, headers)`. */
  function DisconnectCall(callId: JsValue, headers: JsValue): (r: NativeCall)
    ensures r.name == "disconnectCall" && |r.args| == 2 && r.args[0] == callId
    ensures r.args[1] != Undefined
    ensures headers != Undefined ==> r.args[1] == headers
    ensures headers == Undefined ==> r.args[1] == EmptyObject
  {
    NativeCall("disconnectCall", [callId, ValueOr(headers, EmptyObject)])
  }

  /** `declineCall(callId, headers)`. */
  function DeclineCall(callId: JsValue, headers: JsValue): (r: NativeCall)
    ensures r.name == "declineCall" && |r.args| == 2 && r.args[0] == callId
    ensures r.args[1] != Undefined
    ensures headers != Undefined ==> r.args[1] == headers
    ensures headers == Undefined ==> r.args[1] == EmptyObject
  {
    NativeCall("declineCall", [callId, ValueOr(headers, EmptyObject)])
  }

  /** `answerCall(callId, customData, headers)`. */
  function AnswerCall(callId: JsValue, customData: JsValue, headers: JsValue): (r: NativeCall)
    ensures r.name == "answerCall" && |r.args| == 3 && r.args[0] == callId
    ensures r.args[1] != Undefined && r.args[2] != Undefined
    ensures customData != Undefined ==> r.args[1] == customData
    ensures customData == Undefined ==> r.args[1] == Null
    ensures headers != Undefined ==> r.args[2] == headers
    ensures headers == Undefined ==> r.args[2] == EmptyObject
  {
    NativeCall("answerCall", [callId, ValueOr(customData, Null), ValueOr(headers, EmptyObject)])
  }

  /** `sendInfo(callId, mimeType, content, headers)`. */
  function SendInfo(callId: JsValue, mimeType: JsValue, content: JsValue, headers: JsValue): (r: NativeCall)
    ensures r.name == "sendInfo" && |r.args| == 4
    ensures r.args[..3] == [callId, mimeType, content]
    ensures r.args[3] != Undefined
    ensures headers != Undefined ==> r.args[3] == headers
    ensures headers == Undefined ==> r.args[3] == EmptyObject
  {
    NativeCall("sendInfo", [callId, mimeType, content, ValueOr(headers, EmptyObject)])
  }
}
