/** The listener registry of `AudioDeviceManager`: a table from event name to
    the set of handlers registered for it, mutated by `on` and `off`, and fanned
    out by `_emit`. A JavaScript `Set` keeps its elements once each, in
    insertion order, and iterates in that order; it is modelled as a sequence
    without duplicates. Handlers are opaque values compared by identity (`H`);
    event payloads are opaque (`P`). */
module AudioDevices {

  /** The two events the native module reports. */
  const DeviceChanged: string := "DeviceChanged"
  const DeviceListChanged: string := "DeviceListChanged"

  /** The message of the error thrown on a second construction. */
  const MisuseMessage: string := "Error - use AudioDeviceManager.getInstance()"

  /** One call `handler(...args)` made by `_emit`. */
  datatype Invocation<H, P> = Invocation(handler: H, args: seq<P>)

  /** The outcome of `new AudioDeviceManager()`. */
  datatype Construction<T> = Constructed(manager: T) | MisuseError(message: string)

  predicate NoDup<T(==)>(s: seq<T>)
  {
    forall i, j :: 0 <= i < j < |s| ==> s[i] != s[j]
  }

  /** `Set.prototype.add`: a handler already present is not added again;
      otherwise it goes at the end and the existing order is kept. */
  function Insert<H(==)>(s: seq<H>, h: H): (r: seq<H>)
    ensures h in r
    ensures forall i :: 0 <= i < |r| ==> r[i] in s || r[i] == h
    ensures h in s ==> r == s
    ensures |s| <= |r| <= |s| + 1 && r[..|s|] == s
    ensures NoDup(s) ==> NoDup(r)
  {
    if h in s then s else s + [h]
  }

  /** `Set.prototype.delete`: removes the handler, keeps every other one in
      its order, and is a no-op when the handler is absent. */
  function Delete<H(==)>(s: seq<H>, h: H): (r: seq<H>)
    ensures h !in r
    ensures forall i :: 0 <= i < |r| ==> r[i] in s
    ensures forall i :: 0 <= i < |s| && s[i] != h ==> s[i] in r
    ensures h !in s ==> r == s
    ensures NoDup(s) ==> NoDup(r)
    ensures |r| <= |s|
  {
    if s == [] then []
    else if s[0] == h then Delete(s[1..], h)
    else [s[0]] + Delete(s[1..], h)
  }

  /** On a set, deleting the handler at position `k` removes that position
      only and keeps every other handler in its order. */
  lemma {:induction false} DeleteAt<H>(s: seq<H>, h: H, k: nat)
    requires NoDup(s) && k < |s| && s[k] == h
    ensures Delete(s, h) == s[..k] + s[k + 1..]
  {
    NoDupTail(s);
    if k == 0 {
      assert Delete(s[1..], h) == s[1..];
    } else {
      assert s[0] != h;
      DeleteAt(s[1..], h, k - 1);
      assert s[..k] == [s[0]] + s[1..][..k - 1];
      assert s[k + 1..] == s[1..][k..];
    }
  }

  /** `this.listeners[event]`, read as the empty set when there is none. */
  function Lookup<H>(reg: map<string, seq<H>>, e: string): seq<H>
  {
    if e in reg then reg[e] else []
  }

  /** Every handler set holds each handler once. */
  predicate WellFormed<H(==)>(reg: map<string, seq<H>>)
  {
    forall e :: e in reg ==> NoDup(reg[e])
  }

  /** The table after `on(e, h)`. */
  function Subscribe<H(==)>(reg: map<string, seq<H>>, e: string, h: H): (r: map<string, seq<H>>)
    ensures r.Keys == reg.Keys + {e}
    ensures h in r[e]
    ensures forall i :: 0 <= i < |r[e]| ==> r[e][i] in Lookup(reg, e) || r[e][i] == h
    ensures forall i :: 0 <= i < |Lookup(reg, e)| ==> Lookup(reg, e)[i] in r[e]
    ensures h in Lookup(reg, e) ==> r[e] == reg[e]
    ensures forall e' :: e' in reg && e' != e ==> r[e'] == reg[e']
    ensures WellFormed(reg) ==> WellFormed(r)
  {
    reg[e := Insert(Lookup(reg, e), h)]
  }

  /** The table after `off(e, h)`: an event with a set keeps it (perhaps now
      empty); an event without one gets none. */
  function Unsubscribe<H(==)>(reg: map<string, seq<H>>, e: string, h: H): (r: map<string, seq<H>>)
    ensures r.Keys == reg.Keys
    ensures h !in Lookup(reg, e) ==> r == reg
    ensures h !in Lookup(r, e)
    ensures forall i :: 0 <= i < |Lookup(r, e)| ==> Lookup(r, e)[i] in Lookup(reg, e)
    ensures forall i :: 0 <= i < |Lookup(reg, e)| && Lookup(reg, e)[i] != h ==> Lookup(reg, e)[i] in Lookup(r, e)
    ensures forall e' :: e' in reg && e' != e ==> r[e'] == reg[e']
    ensures WellFormed(reg) ==> WellFormed(r)
  {
    if e in reg then reg[e := Delete(reg[e], h)] else reg
  }

  /** The calls made by iterating over `hs` and calling each with `args`. */
  function Fanout<H, P>(hs: seq<H>, args: seq<P>): (r: seq<Invocation<H, P>>)
    ensures |r| == |hs|
    ensures forall i :: 0 <= i < |hs| ==> r[i].handler == hs[i] && r[i].args == args
  {
    if hs == [] then [] else [Invocation(hs[0], args)] + Fanout(hs[1..], args)
  }

  /** Dropping the first handler of a duplicate-free set leaves a
      duplicate-free set without it. */
  lemma NoDupTail<H>(hs: seq<H>)
    requires NoDup(hs) && hs != []
    ensures NoDup(hs[1..]) && hs[0] !in hs[1..]
  {
    forall i, j | 0 <= i < j < |hs[1..]| ensures hs[1..][i] != hs[1..][j] {
      assert hs[1..][i] == hs[i + 1] && hs[1..][j] == hs[j + 1];
    }
    forall i | 0 <= i < |hs[1..]| ensures hs[1..][i] != hs[0] {
      assert hs[1..][i] == hs[i + 1];
    }
  }

  /** Over a set of handlers, every registered handler is called exactly once
      with the payload, and nothing else is called. */
  lemma {:induction false} FanoutExactlyOnce<H, P>(hs: seq<H>, args: seq<P>, h: H, a: seq<P>)
    requires NoDup(hs)
    ensures multiset(Fanout(hs, args))[Invocation(h, a)] == if h in hs && a == args then 1 else 0
  {
    if hs != [] {
      var rest := hs[1..];
      NoDupTail(hs);
      FanoutExactlyOnce(rest, args, h, a);
      assert hs == [hs[0]] + rest;
      assert Fanout(hs, args) == [Invocation(hs[0], args)] + Fanout(rest, args);
    }
  }

  /** After `on(e, h)`, emitting `e` calls `h` exactly once, however many
      times it was registered before. */
  lemma EmitAfterOnCallsOnce<H, P>(reg: map<string, seq<H>>, e: string, h: H, args: seq<P>)
    requires WellFormed(reg)
    ensures multiset(Fanout(Lookup(Subscribe(reg, e, h), e), args))[Invocation(h, args)] == 1
  {
    FanoutExactlyOnce(Lookup(Subscribe(reg, e, h), e), args, h, args);
  }

  /** After `off(e, h)`, emitting `e` never calls `h`, and still calls every
      other handler registered for `e` exactly once. */
  lemma EmitAfterOffSkips<H, P>(reg: map<string, seq<H>>, e: string, h: H, g: H, args: seq<P>)
    requires WellFormed(reg)
    ensures Invocation(h, args) !in Fanout(Lookup(Unsubscribe(reg, e, h), e), args)
    ensures g != h && g in Lookup(reg, e) ==>
      multiset(Fanout(Lookup(Unsubscribe(reg, e, h), e), args))[Invocation(g, args)] == 1
  {
    var hs := Lookup(Unsubscribe(reg, e, h), e);
    FanoutExactlyOnce(hs, args, h, args);
    FanoutExactlyOnce(hs, args, g, args);
  }

  /** `on(e, h)` twice leaves the table as `on(e, h)` once. */
  lemma SubscribeIdempotent<H>(reg: map<string, seq<H>>, e: string, h: H)
    ensures Subscribe(Subscribe(reg, e, h), e, h) == Subscribe(reg, e, h)
  {
  }

  /** `off(e, h)` followed by `on(e, h)` restores the handlers of `e`,
      though `h` may move to the end of the iteration order. */
  lemma OnAfterOffSameHandlers<H>(reg: map<string, seq<H>>, e: string, h: H)
    ensures forall x :: x in Lookup(Subscribe(Unsubscribe(reg, e, h), e, h), e) <==> x in Lookup(Subscribe(reg, e, h), e)
  {
  }

  /** `AudioDeviceManager`: the handler table and the operations on it. */
  class AudioDeviceManager<H(==), P> {
    /** `this.listeners`: event name to the handlers registered for it. */
    var listeners: map<string, seq<H>>

    ghost predicate Valid()
      reads this
    {
      WellFormed(listeners)
    }

    /** The body of the constructor once the singleton guard has passed:
        an empty table. */
    constructor ()
      ensures Valid()
      ensures listeners == map[]
    {
      listeners := map[];
    }

    /** `on(event, handler)`. */
    method On(event: string, handler: H)
      requires Valid()
      modifies this
      ensures Valid()
      ensures listeners == Subscribe(old(listeners), event, handler)
    {
      if event !in listeners {
        listeners := listeners[event := []];
      }
      listeners := listeners[event := Insert(listeners[event], handler)];
    }

    /** `off(event, handler)`. */
    method Off(event: string, handler: H)
      requires Valid()
      modifies this
      ensures Valid()
      ensures listeners == Unsubscribe(old(listeners), event, handler)
    {
      if event in listeners {
        listeners := listeners[event := Delete(listeners[event], handler)];
      }
    }

    /** `_emit(event, ...args)`: the calls made, in iteration order. It
        modifies nothing, so the table is the same afterwards. */
    method Emit(event: string, args: seq<P>) returns (calls: seq<Invocation<H, P>>)
      ensures event !in listeners ==> calls == []
      ensures |calls| == |Lookup(listeners, event)|
      ensures forall i :: 0 <= i < |calls| ==> calls[i] == Invocation(Lookup(listeners, event)[i], args)
      ensures calls == Fanout(Lookup(listeners, event), args)
    {
      calls := [];
      if event in listeners {
        var handlers := listeners[event];
        for i := 0 to |handlers|
          invariant |calls| == i
          invariant forall k :: 0 <= k < i ==> calls[k] == Invocation(handlers[k], args)
        {
          calls := calls + [Invocation(handlers[i], args)];
        }
      }
    }

    /** `_onDeviceChanged(event)`: re-emits the payload under `DeviceChanged`. */
    method OnDeviceChanged(payload: P) returns (calls: seq<Invocation<H, P>>)
      ensures calls == Fanout(Lookup(listeners, DeviceChanged), [payload])
    {
      calls := Emit(DeviceChanged, [payload]);
    }

    /** `_onDeviceListChanged(event)`: re-emits the payload under
        `DeviceListChanged`. */
    method OnDeviceListChanged(payload: P) returns (calls: seq<Invocation<H, P>>)
      ensures calls == Fanout(Lookup(listeners, DeviceListChanged), [payload])
    {
      calls := Emit(DeviceListChanged, [payload]);
    }
  }

  /** The static side of `AudioDeviceManager`: the `_instance` field, the
      guarded constructor and `getInstance`. */
  class ManagerSingleton<H(==), P> {
    var instance: AudioDeviceManager?<H, P>

    /** `static _instance = null`. */
    constructor ()
      ensures instance == null
    {
      instance := null;
    }

    /** `new AudioDeviceManager()`: throws once an instance is recorded;
        otherwise yields a fresh manager, which it does not record. */
    method Construct() returns (r: Construction<AudioDeviceManager<H, P>>)
      ensures instance != null ==> r == MisuseError(MisuseMessage)
      ensures instance == null ==> r.Constructed? && fresh(r.manager)
      ensures r.Constructed? ==> r.manager.Valid() && r.manager.listeners == map[]
    {
      if instance != null {
        r := MisuseError(MisuseMessage);
      } else {
        var m := new AudioDeviceManager<H, P>();
        r := Constructed(m);
      }
    }

    /** `getInstance()`: the first call constructs and records the instance;
        every later call returns that same instance. */
    method GetInstance() returns (m: AudioDeviceManager<H, P>)
      modifies this
      ensures instance == m
      ensures old(instance) != null ==> m == old(instance)
      ensures old(instance) == null ==> fresh(m) && m.Valid() && m.listeners == map[]
    {
      if instance == null {
        var r := Construct();
        instance := r.manager;
      }
      m := instance;
    }
  }

  /** Repeated `getInstance()` calls give one instance, and a direct
      construction after the first of them throws. */
  method SingletonScenario<H(==), P>() returns (first: AudioDeviceManager<H, P>, second: AudioDeviceManager<H, P>,
                                                third: Construction<AudioDeviceManager<H, P>>)
    ensures first == second
    ensures third == MisuseError(MisuseMessage)
  {
    var statics := new ManagerSingleton<H, P>();
    first := statics.GetInstance();
    second := statics.GetInstance();
    third := statics.Construct();
  }

  /** The constructor's guard looks only at the recorded instance, and only
      `getInstance()` records one: a manager constructed directly before the
      first `getInstance()` is accepted, and `getInstance()` then builds a
      second, distinct one. */
  method ConstructBeforeGetInstance<H(==), P>() returns (direct: Construction<AudioDeviceManager<H, P>>,
                                                        single: AudioDeviceManager<H, P>)
    ensures direct.Constructed? && direct.manager != single
  {
    var statics := new ManagerSingleton<H, P>();
    direct := statics.Construct();
    single := statics.GetInstance();
  }

  /** A handler registered for `DeviceChanged` is called once with the
      payload; after `off` it is not called again. */
  method DeviceChangedScenario<H(==), P>(a: H, payload: P) returns (before: seq<Invocation<H, P>>, after: seq<Invocation<H, P>>)
    ensures before == [Invocation(a, [payload])]
    ensures after == []
  {
    var statics := new ManagerSingleton<H, P>();
    var manager := statics.GetInstance();
    manager.On(DeviceChanged, a);
    before := manager.OnDeviceChanged(payload);
    manager.Off(DeviceChanged, a);
    after := manager.OnDeviceChanged(payload);
  }
}
