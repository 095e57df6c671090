/** The single-sensor connection of `src/sensor.rs`: `connect_temperature`
    configures one temperature channel through a fixed sequence of fallible
    hardware calls, stopping at the first failure, and then relays the
    hardware's callback events, in arrival order, up to and including the
    first `Detach`.

    The hardware library is not modelled: each configuration call's outcome is
    given by a `respond` function, and the callbacks the library has fired so
    far are given as a finite sequence. The sensor owns the handlers, and the
    handlers own every sender of the internal channel, so the channel never
    closes while the relay runs: without a `Detach` the call is still waiting
    for the next event. */
module Sensor {
  import opened Wrappers

  /** Rust's `i32`, the type of the addressing parameters. */
  type I32 = x: int | -0x8000_0000 <= x < 0x8000_0000

  /** A temperature in degrees Celsius (`f64` in the source); only ever copied. */
  type Celsius = real

  /** A reading of the monotonic clock (`Instant`); only ever copied. */
  type Instant = nat

  /** An error reported by the hardware library. */
  datatype PhidgetError = PhidgetError(code: int)

  /** One timestamped temperature reading. */
  datatype TempData = TempData(temp: Celsius, time: Instant)

  /** The events the connection emits. */
  datatype Event = Change(data: TempData) | Attach | Detach

  /** One invocation of a registered hardware handler, with the clock value
      read inside it. */
  datatype Callback =
    | TemperatureChanged(t: Celsius, now: Instant)
    | Attached
    | Detached

  /** The fallible configuration calls made on the sensor before it is used. */
  datatype SetupStep =
    | SetHubPort(hubPort: I32)
    | SetSerialNumber(serialNumber: I32)
    | SetChannel(channel: I32)
    | SetTemperatureChangeHandler
    | SetAttachHandler
    | SetDetachHandler
    | OpenWait

  /** `TempData::new`: the reading carries the given temperature and the
      clock value at construction. */
  function NewTempData(temp: Celsius, now: Instant): (d: TempData)
    ensures d.temp == temp && d.time == now
  {
    TempData(temp, now)
  }

  /** `TempData::default`: a reading of zero degrees taken now. */
  function DefaultTempData(now: Instant): (d: TempData)
    ensures d.temp == 0.0 && d.time == now
  {
    NewTempData(0.0, now)
  }

  /** What each registered handler sends on the internal channel. */
  function HandlerEvent(c: Callback): (e: Event)
    ensures e.Change? <==> c.TemperatureChanged?
    ensures e.Change? ==> e.data.temp == c.t && e.data.time == c.now
    ensures e == Attach <==> c == Attached
    ensures e == Detach <==> c == Detached
  {
    match c
    case TemperatureChanged(t, now) => Change(NewTempData(t, now))
    case Attached => Attach
    case Detached => Detach
  }

  /** The contents of the internal channel: one event per callback, in
      callback order. */
  function Queue(callbacks: seq<Callback>): (rx: seq<Event>)
    ensures |rx| == |callbacks|
    ensures forall i :: 0 <= i < |rx| ==> rx[i] == HandlerEvent(callbacks[i])
  {
    seq(|callbacks|, i requires 0 <= i < |callbacks| => HandlerEvent(callbacks[i]))
  }

  /** A `Detach` is queued exactly when the detach handler has fired. */
  lemma QueuedDetachIffDetached(callbacks: seq<Callback>)
    ensures Detach in Queue(callbacks) <==> Detached in callbacks
  {
  }

  /** The channel contents of consecutive batches of callbacks are the
      batches' contents, concatenated. */
  lemma QueueAppend(xs: seq<Callback>, ys: seq<Callback>)
    ensures Queue(xs + ys) == Queue(xs) + Queue(ys)
  {
  }

  /** The configuration calls in the order `connect_temperature` makes them. */
  function SetupSteps(hubPort: I32, serialNumber: I32, channel: I32): seq<SetupStep>
  {
    [SetHubPort(hubPort), SetSerialNumber(serialNumber), SetChannel(channel),
     SetTemperatureChangeHandler, SetAttachHandler, SetDetachHandler, OpenWait]
  }

  /** Makes the calls of `steps` in order and stops at the first that fails,
      as the `?` operator does. Returns the calls actually made and the
      outcome. */
  function RunSetup(steps: seq<SetupStep>, respond: SetupStep -> Option<PhidgetError>)
    : (r: (seq<SetupStep>, Outcome<PhidgetError>))
    ensures r.0 <= steps
    ensures r.1.Pass? <==> forall i :: 0 <= i < |steps| ==> respond(steps[i]).None?
    ensures r.1.Pass? ==> r.0 == steps
    ensures r.1.Fail? ==>
              && |r.0| > 0
              && respond(r.0[|r.0| - 1]) == Some(r.1.error)
              && forall i :: 0 <= i < |r.0| - 1 ==> respond(r.0[i]).None?
  {
    if |steps| == 0 then ([], Pass)
    else match respond(steps[0])
      case Some(e) => ([steps[0]], Fail(e))
      case None =>
        var rest := RunSetup(steps[1..], respond);
        ([steps[0]] + rest.0, rest.1)
  }

  /** The position of the first `Detach` in `rx`, if any. */
  function FirstDetach(rx: seq<Event>): (k: Option<nat>)
    ensures k.None? <==> Detach !in rx
    ensures k.Some? ==> k.value < |rx| && rx[k.value] == Detach && Detach !in rx[..k.value]
  {
    if |rx| == 0 then None
    else if rx[0] == Detach then Some(0)
    else match FirstDetach(rx[1..])
      case None => None
      case Some(k) =>
        assert rx[..k + 1] == [rx[0]] + rx[1..][..k];
        Some(k + 1)
  }

  /** The events the relay loop has forwarded once it has received `rx`:
      every received event is forwarded in order, and the loop ends right
      after forwarding a `Detach`. */
  function Relay(rx: seq<Event>): seq<Event>
  {
    if |rx| == 0 then []
    else if rx[0] == Detach then [rx[0]]
    else [rx[0]] + Relay(rx[1..])
  }

  /** The relay emits exactly the received events up to and including the
      first `Detach`, or all of them when there is none. */
  lemma {:induction false} RelayUpToFirstDetach(rx: seq<Event>)
    ensures FirstDetach(rx).None? ==> Relay(rx) == rx
    ensures FirstDetach(rx).Some? ==> Relay(rx) == rx[..FirstDetach(rx).value + 1]
  {
    if |rx| > 0 && rx[0] != Detach {
      RelayUpToFirstDetach(rx[1..]);
      assert rx == [rx[0]] + rx[1..];
      match FirstDetach(rx[1..])
      case None =>
      case Some(k) =>
        assert rx[..k + 2] == [rx[0]] + rx[1..][..k + 1];
    }
  }

  /** The relay loop written as the source writes it: `while let Ok(ev) =
      rx.recv()` with a `break` after forwarding a `Detach`. */
  method RelayLoop(rx: seq<Event>) returns (emitted: seq<Event>)
    ensures emitted == Relay(rx)
  {
    emitted := [];
    var i := 0;
    while i < |rx|
      invariant 0 <= i <= |rx|
      invariant emitted == rx[..i]
      invariant Detach !in emitted
    {
      var ev := rx[i];
      if ev == Detach {
        assert rx == rx[..i] + [Detach] + rx[i + 1..];
        StopsAfterDetach(rx[..i], rx[i + 1..]);
        emitted := emitted + [ev];
        return;
      }
      assert rx[..i + 1] == rx[..i] + [ev];
      emitted := emitted + [ev];
      i := i + 1;
    }
    assert rx[..i] == rx;
    RelayUpToFirstDetach(rx);
  }

  /** Where a call of `connect_temperature` stands: still blocked in
      `rx.recv()`, waiting for the next event, or returned with a result. */
  datatype Status = Receiving | Returned(result: Outcome<PhidgetError>)

  /** One call of `connect_temperature` after the given callbacks: the
      configuration calls made, the events emitted, and where it stands. */
  datatype Run = Run(attempted: seq<SetupStep>, emitted: seq<Event>, status: Status)

  /** Every configuration call succeeds. */
  predicate SetupSucceeds(hubPort: I32, serialNumber: I32, channel: I32,
                          respond: SetupStep -> Option<PhidgetError>)
  {
    forall i :: 0 <= i < 7 ==> respond(SetupSteps(hubPort, serialNumber, channel)[i]).None?
  }

  /** `connect_temperature(hub_port, serial_number, channel)`. */
  function ConnectTemperature(
    hubPort: I32, serialNumber: I32, channel: I32,
    respond: SetupStep -> Option<PhidgetError>,
    callbacks: seq<Callback>): (run: Run)
    ensures run.attempted <= SetupSteps(hubPort, serialNumber, channel)
    ensures (run.status.Returned? && run.status.result.Fail?) <==>
              !SetupSucceeds(hubPort, serialNumber, channel, respond)
    ensures run.status.Returned? && run.status.result.Fail? ==>
              && run.emitted == []
              && |run.attempted| > 0
              && respond(run.attempted[|run.attempted| - 1]) == Some(run.status.result.error)
              && forall i :: 0 <= i < |run.attempted| - 1 ==> respond(run.attempted[i]).None?
    ensures SetupSucceeds(hubPort, serialNumber, channel, respond) ==>
              && run.attempted == SetupSteps(hubPort, serialNumber, channel)
              && run.emitted == Relay(Queue(callbacks))
    ensures run.status == Returned(Pass) <==>
              SetupSucceeds(hubPort, serialNumber, channel, respond) && Detached in callbacks
    ensures run.status == Receiving <==>
              SetupSucceeds(hubPort, serialNumber, channel, respond) && Detached !in callbacks
  {
    var (attempted, outcome) := RunSetup(SetupSteps(hubPort, serialNumber, channel), respond);
    match outcome
    case Fail(e) => Run(attempted, [], Returned(Fail(e)))
    case Pass =>
      var rx := Queue(callbacks);
      QueuedDetachIffDetached(callbacks);
      Run(attempted, Relay(rx), if Detach in rx then Returned(Pass) else Receiving)
  }

  // ---------------------------------------------------------------------------
  // Properties of the relay

  /** The emitted events are a prefix of the received events. */
  lemma {:induction false} RelayIsPrefix(rx: seq<Event>)
    ensures Relay(rx) <= rx
  {
    RelayUpToFirstDetach(rx);
  }

  /** If a `Detach` is received, it is emitted, and it is the last event
      emitted; without one, every received event is emitted. */
  lemma {:induction false} RelayEndsAtDetach(rx: seq<Event>)
    ensures Detach in rx <==> (|Relay(rx)| > 0 && Relay(rx)[|Relay(rx)| - 1] == Detach)
    ensures Detach !in rx ==> Relay(rx) == rx
  {
    RelayUpToFirstDetach(rx);
    var out := Relay(rx);
    match FirstDetach(rx)
    case None =>
      if |out| > 0 {
        assert out[|out| - 1] == rx[|rx| - 1];
      }
    case Some(k) =>
      assert out == rx[..k + 1];
      assert out[k] == rx[k];
  }

  /** The emitted sequence holds at most one `Detach`. */
  lemma {:induction false} RelayAtMostOneDetach(rx: seq<Event>)
    ensures Count(Relay(rx), (e: Event) => e == Detach) <= 1
  {
    var isDetach := (e: Event) => e == Detach;
    if |rx| == 0 {
    } else if rx[0] == Detach {
      assert Relay(rx) == [Detach];
      assert Relay(rx)[1..] == [];
    } else {
      RelayAtMostOneDetach(rx[1..]);
      assert Relay(rx) == [rx[0]] + Relay(rx[1..]);
      assert Relay(rx)[1..] == Relay(rx[1..]);
    }
  }

  /** `Change` and `Attach` events are forwarded unchanged and keep the loop
      running: the relay of events before the first `Detach` continues with
      the relay of what follows. */
  lemma {:induction false} RelayStreams(xs: seq<Event>, ys: seq<Event>)
    requires Detach !in xs
    ensures Relay(xs + ys) == xs + Relay(ys)
  {
    if |xs| == 0 {
      assert xs + ys == ys;
    } else {
      var zs := xs + ys;
      assert zs[0] == xs[0] && zs[0] != Detach;
      assert zs[1..] == xs[1..] + ys;
      assert Detach !in xs[1..];
      RelayStreams(xs[1..], ys);
      assert Relay(zs) == [xs[0]] + (xs[1..] + Relay(ys));
      assert xs == [xs[0]] + xs[1..];
    }
  }

  /** Nothing after the first `Detach` is forwarded. */
  lemma StopsAfterDetach(xs: seq<Event>, ys: seq<Event>)
    requires Detach !in xs
    ensures Relay(xs + [Detach] + ys) == xs + [Detach]
  {
    RelayStreams(xs, [Detach] + ys);
    assert xs + [Detach] + ys == xs + ([Detach] + ys);
  }

  /** Relaying an already relayed stream changes nothing. */
  lemma {:induction false} RelayIdempotent(rx: seq<Event>)
    ensures Relay(Relay(rx)) == Relay(rx)
  {
    RelayUpToFirstDetach(rx);
    match FirstDetach(rx)
    case None =>
    case Some(k) =>
      var out := rx[..k + 1];
      assert out == rx[..k] + [Detach];
      StopsAfterDetach(rx[..k], []);
      assert rx[..k] + [Detach] + [] == out;
  }

  /** A `Change` event carries the temperature and clock value of the
      callback that produced it, and `TempData::default()` reads 0.0. */
  lemma ChangeCarriesReading(callbacks: seq<Callback>, i: nat)
    requires i < |callbacks| && callbacks[i].TemperatureChanged?
    ensures Queue(callbacks)[i] == Change(TempData(callbacks[i].t, callbacks[i].now))
  {
  }

  /** When the configuration succeeds and the detach handler has not fired,
      every callback so far is emitted as an event and the call has not
      returned: it is still waiting in `rx.recv()`. */
  lemma NoDetachKeepsReceiving(
    hubPort: I32, serialNumber: I32, channel: I32,
    respond: SetupStep -> Option<PhidgetError>,
    callbacks: seq<Callback>)
    requires SetupSucceeds(hubPort, serialNumber, channel, respond)
    requires forall i :: 0 <= i < |callbacks| ==> callbacks[i] != Detached
    ensures ConnectTemperature(hubPort, serialNumber, channel, respond, callbacks)
            == Run(SetupSteps(hubPort, serialNumber, channel), Queue(callbacks), Receiving)
  {
    QueuedDetachIffDetached(callbacks);
    RelayEndsAtDetach(Queue(callbacks));
  }

  /** A failing configuration call ends the call with its error: the calls
      after it are not made and nothing is emitted. */
  lemma FirstFailureEndsSetup(
    hubPort: I32, serialNumber: I32, channel: I32,
    respond: SetupStep -> Option<PhidgetError>,
    callbacks: seq<Callback>, k: nat)
    requires k < 7
    requires respond(SetupSteps(hubPort, serialNumber, channel)[k]).Some?
    requires forall i :: 0 <= i < k ==> respond(SetupSteps(hubPort, serialNumber, channel)[i]).None?
    ensures ConnectTemperature(hubPort, serialNumber, channel, respond, callbacks)
            == Run(SetupSteps(hubPort, serialNumber, channel)[..k + 1], [],
                   Returned(Fail(respond(SetupSteps(hubPort, serialNumber, channel)[k]).value)))
  {
    var steps := SetupSteps(hubPort, serialNumber, channel);
    var run := ConnectTemperature(hubPort, serialNumber, channel, respond, callbacks);
    var n := |run.attempted|;
    assert run.status.Returned? && run.status.result.Fail?;
    assert run.attempted == steps[..n];
  }

  /** After a successful configuration, the first firing of the detach
      handler ends the call: the events before it and the `Detach` itself are
      emitted, nothing after it is, and the call returns `Ok(())`. */
  lemma DetachEndsCall(
    hubPort: I32, serialNumber: I32, channel: I32,
    respond: SetupStep -> Option<PhidgetError>,
    xs: seq<Callback>, ys: seq<Callback>)
    requires SetupSucceeds(hubPort, serialNumber, channel, respond)
    requires Detached !in xs
    ensures ConnectTemperature(hubPort, serialNumber, channel, respond, xs + [Detached] + ys)
            == Run(SetupSteps(hubPort, serialNumber, channel), Queue(xs) + [Detach], Returned(Pass))
  {
    var callbacks := xs + [Detached] + ys;
    QueueAppend(xs + [Detached], ys);
    QueueAppend(xs, [Detached]);
    assert Queue([Detached]) == [Detach];
    QueuedDetachIffDetached(xs);
    StopsAfterDetach(Queue(xs), Queue(ys));
    assert Detached in callbacks by {
      assert callbacks[|xs|] == Detached;
    }
  }
}
