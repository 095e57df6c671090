/** The two-sensor worker and roasting state of `src/roasting.rs`.

    `phidgets_worker` configures a bean probe (channel 0) and an exhaust probe
    (channel 1). Unlike `connect_temperature`, its setup does not stop at a
    failure: every failing configuration call is reported as one `Error`
    event, every failing handler registration as one `Disconnected` event, and
    setup goes on. It then loops forever, each iteration polling the bean
    queue and then the exhaust queue once and forwarding what it finds, tagged
    with its probe. `Roasting::update` keeps the latest temperature of each
    probe and panics on an `Error`.

    Hardware calls are given by a `respond` function; the values the handlers
    push onto the two queues are given per iteration; a run of the endless
    loop is modelled by a finite number of its iterations. */
module Roasting {
  import opened Wrappers
  import Sensor

  type Celsius = Sensor.Celsius

  type PhidgetError = Sensor.PhidgetError

  /** A reading tagged with the probe it comes from. */
  datatype SensorData = Bean(t: Celsius) | Exhaust(t: Celsius)

  /** The events the worker emits. */
  datatype WorkerEvent = Error(error: PhidgetError) | Received(data: SensorData) | Disconnected

  /** The two temperature sensors the worker owns. */
  datatype Probe = BeanProbe | ExhaustProbe

  /** The fallible calls the worker makes while setting up. */
  datatype WorkerStep =
    | SetChannel(probe: Probe, channel: nat)
    | OpenWait(probe: Probe)
    | SetThermocoupleTypeJ(probe: Probe)
    | SetTemperatureChangeHandler(probe: Probe)

  /** The configuration calls, in source order. */
  function ConfigurationSteps(): seq<WorkerStep>
  {
    [SetChannel(BeanProbe, 0), SetChannel(ExhaustProbe, 1),
     OpenWait(BeanProbe), OpenWait(ExhaustProbe),
     SetThermocoupleTypeJ(BeanProbe), SetThermocoupleTypeJ(ExhaustProbe)]
  }

  /** The handler registrations, in source order. */
  function HandlerSteps(): seq<WorkerStep>
  {
    [SetTemperatureChangeHandler(BeanProbe), SetTemperatureChangeHandler(ExhaustProbe)]
  }

  /** The tag the worker puts on a reading of probe `p`. */
  function Tag(p: Probe, t: Celsius): (d: SensorData)
    ensures ProbeOf(d) == p && d.t == t
  {
    match p
    case BeanProbe => Bean(t)
    case ExhaustProbe => Exhaust(t)
  }

  /** The probe a tagged reading is attributed to. */
  function ProbeOf(d: SensorData): Probe
  {
    match d
    case Bean(_) => BeanProbe
    case Exhaust(_) => ExhaustProbe
  }

  /** How many of `steps` fail. */
  function FailureCount(steps: seq<WorkerStep>, respond: WorkerStep -> Option<PhidgetError>): (n: nat)
    ensures n <= |steps|
    ensures n == 0 <==> forall i :: 0 <= i < |steps| ==> respond(steps[i]).None?
  {
    Count(steps, (s: WorkerStep) => respond(s).Some?)
  }

  /** The configuration phase: each call is made whatever happened before,
      and each failing call emits one `Error` carrying its error. */
  function ReportErrors(steps: seq<WorkerStep>, respond: WorkerStep -> Option<PhidgetError>)
    : (out: seq<WorkerEvent>)
    ensures |out| == FailureCount(steps, respond)
    ensures forall i :: 0 <= i < |out| ==> out[i].Error?
  {
    if |steps| == 0 then []
    else
      (match respond(steps[0])
       case Some(e) => [Error(e)]
       case None => [])
      + ReportErrors(steps[1..], respond)
  }

  /** The handler registration phase: each failing registration emits one
      `Disconnected`. */
  function ReportDisconnects(steps: seq<WorkerStep>, respond: WorkerStep -> Option<PhidgetError>)
    : (out: seq<WorkerEvent>)
    ensures |out| == FailureCount(steps, respond)
    ensures forall i :: 0 <= i < |out| ==> out[i] == Disconnected
  {
    if |steps| == 0 then []
    else (if respond(steps[0]).Some? then [Disconnected] else []) + ReportDisconnects(steps[1..], respond)
  }

  /** Everything the worker emits before its polling loop: one `Error` per
      failed configuration call, then one `Disconnected` per failed handler
      registration. */
  function WorkerSetup(respond: WorkerStep -> Option<PhidgetError>): (out: seq<WorkerEvent>)
    ensures |out| == FailureCount(ConfigurationSteps(), respond) + FailureCount(HandlerSteps(), respond)
    ensures forall i :: 0 <= i < FailureCount(ConfigurationSteps(), respond) ==> out[i].Error?
    ensures forall i :: FailureCount(ConfigurationSteps(), respond) <= i < |out| ==> out[i] == Disconnected
  {
    ReportErrors(ConfigurationSteps(), respond) + ReportDisconnects(HandlerSteps(), respond)
  }

  /** The setup reports an `Error` exactly when a configuration call fails,
      and nothing at all exactly when every call succeeds. */
  lemma WorkerSetupReportsFailures(respond: WorkerStep -> Option<PhidgetError>)
    ensures (exists i :: 0 <= i < |WorkerSetup(respond)| && WorkerSetup(respond)[i].Error?) <==>
              exists i :: 0 <= i < 6 && respond(ConfigurationSteps()[i]).Some?
    ensures WorkerSetup(respond) == [] <==>
              (forall i :: 0 <= i < 6 ==> respond(ConfigurationSteps()[i]).None?) &&
              (forall i :: 0 <= i < 2 ==> respond(HandlerSteps()[i]).None?)
  {
    var n := FailureCount(ConfigurationSteps(), respond);
    if n > 0 {
      assert WorkerSetup(respond)[0].Error?;
    }
  }

  // ---------------------------------------------------------------------------
  // The polling loop

  /** The values waiting on the bean queue (`rx1`) and the exhaust queue
      (`rx2`), oldest first. */
  datatype Queues = Queues(bean: seq<Celsius>, exhaust: seq<Celsius>)

  /** The values the two handlers push before one iteration of the loop. */
  datatype Arrivals = Arrivals(bean: seq<Celsius>, exhaust: seq<Celsius>)

  /** The readings of probe `p` among `events`, in order. */
  function Readings(events: seq<WorkerEvent>, p: Probe): seq<Celsius>
  {
    if |events| == 0 then []
    else Own(events[0], p) + Readings(events[1..], p)
  }

  /** The reading `e` contributes to probe `p`'s readings: its value if it
      is a reading of `p`, nothing otherwise. */
  function Own(e: WorkerEvent, p: Probe): seq<Celsius>
  {
    if e.Received? && ProbeOf(e.data) == p then [e.data.t] else []
  }

  lemma {:induction false} ReadingsAppend(a: seq<WorkerEvent>, b: seq<WorkerEvent>, p: Probe)
    ensures Readings(a + b, p) == Readings(a, p) + Readings(b, p)
  {
    if |a| == 0 {
      assert a + b == b;
    } else {
      var h := Own(a[0], p);
      assert (a + b)[0] == a[0];
      assert (a + b)[1..] == a[1..] + b;
      ReadingsAppend(a[1..], b, p);
      assert Readings(a + b, p) == h + (Readings(a[1..], p) + Readings(b, p));
      ConcatAssociative(h, Readings(a[1..], p), Readings(b, p));
    }
  }

  /** `try_recv` on one queue: the oldest value if there is one. */
  function TryRecv(q: seq<Celsius>): (r: (Option<Celsius>, seq<Celsius>))
    ensures r.0.Some? <==> |q| > 0
    ensures r.0.Some? ==> [r.0.value] + r.1 == q
    ensures r.0.None? ==> r.1 == q
  {
    if |q| == 0 then (None, q) else (Some(q[0]), q[1..])
  }

  /** The readings of the queue `q` of probe `p` that one poll forwards. */
  function Forward(p: Probe, q: seq<Celsius>): (r: (seq<WorkerEvent>, seq<Celsius>))
    ensures |r.0| == if |q| > 0 then 1 else 0
    ensures forall i :: 0 <= i < |r.0| ==> r.0[i].Received? && ProbeOf(r.0[i].data) == p
    ensures Readings(r.0, p) + r.1 == q
    ensures Readings(r.0, Other(p)) == []
  {
    match TryRecv(q)
    case (None, rest) => ([], rest)
    case (Some(t), rest) =>
      var out := [Received(Tag(p, t))];
      assert Readings(out, p) == [t] by {
        assert out[1..] == [];
      }
      assert Readings(out, Other(p)) == [] by {
        assert out[1..] == [];
      }
      (out, rest)
  }

  /** The probe that is not `p`. */
  function Other(p: Probe): Probe
  {
    match p
    case BeanProbe => ExhaustProbe
    case ExhaustProbe => BeanProbe
  }

  /** One iteration of the loop: poll the bean queue, then the exhaust queue. */
  function Iteration(q: Queues): (r: (Queues, seq<WorkerEvent>))
    ensures |r.1| == (if |q.bean| > 0 then 1 else 0) + (if |q.exhaust| > 0 then 1 else 0)
    ensures forall i :: 0 <= i < |r.1| ==> r.1[i].Received?
    ensures |r.1| == 2 ==> r.1[0].data.Bean? && r.1[1].data.Exhaust?
    ensures Readings(r.1, BeanProbe) + r.0.bean == q.bean
    ensures Readings(r.1, ExhaustProbe) + r.0.exhaust == q.exhaust
  {
    var (beanOut, beanRest) := Forward(BeanProbe, q.bean);
    var (exhaustOut, exhaustRest) := Forward(ExhaustProbe, q.exhaust);
    ReadingsAppend(beanOut, exhaustOut, BeanProbe);
    ReadingsAppend(beanOut, exhaustOut, ExhaustProbe);
    (Queues(beanRest, exhaustRest), beanOut + exhaustOut)
  }

  /** A run of `|arrivals|` iterations of the loop, starting from the queues
      `q`; before iteration `i` the handlers push `arrivals[i]`. */
  function Loop(q: Queues, arrivals: seq<Arrivals>): (r: (Queues, seq<WorkerEvent>))
    ensures |r.1| <= 2 * |arrivals|
    ensures forall i :: 0 <= i < |r.1| ==> r.1[i].Received?
    decreases |arrivals|
  {
    if |arrivals| == 0 then (q, [])
    else
      var pushed := Queues(q.bean + arrivals[0].bean, q.exhaust + arrivals[0].exhaust);
      var (next, out) := Iteration(pushed);
      var (last, rest) := Loop(next, arrivals[1..]);
      (last, out + rest)
  }

  /** Everything the handlers of probe `p` push over `arrivals`, in order. */
  function Pushed(arrivals: seq<Arrivals>, p: Probe): seq<Celsius>
  {
    if |arrivals| == 0 then []
    else
      (match p case BeanProbe => arrivals[0].bean case ExhaustProbe => arrivals[0].exhaust)
      + Pushed(arrivals[1..], p)
  }

  function QueueOf(q: Queues, p: Probe): seq<Celsius>
  {
    match p
    case BeanProbe => q.bean
    case ExhaustProbe => q.exhaust
  }

  lemma PushedHead(arrivals: seq<Arrivals>, p: Probe)
    requires |arrivals| > 0
    ensures Pushed(arrivals, p) == QueueOf(Queues(arrivals[0].bean, arrivals[0].exhaust), p) + Pushed(arrivals[1..], p)
  {
  }

  /** One pass through the loop body, arrivals included, loses nothing of
      probe `p`: what it forwards for `p`, followed by what stays queued, is
      the old queue followed by the new arrivals. */
  lemma PushThenIterate(q: Queues, arrived: Arrivals, p: Probe)
    ensures var it := Iteration(Queues(q.bean + arrived.bean, q.exhaust + arrived.exhaust));
            Readings(it.1, p) + QueueOf(it.0, p) == QueueOf(q, p) + QueueOf(Queues(arrived.bean, arrived.exhaust), p)
  {
  }

  /** Per probe, the loop neither loses, invents nor reorders readings: the
      readings forwarded with the tag of `p`, followed by those still queued,
      are exactly the readings queued at the start followed by those pushed
      since. */
  lemma {:induction false} LoopKeepsChannelOrder(q: Queues, arrivals: seq<Arrivals>, p: Probe)
    ensures Readings(Loop(q, arrivals).1, p) + QueueOf(Loop(q, arrivals).0, p)
            == QueueOf(q, p) + Pushed(arrivals, p)
    decreases |arrivals|
  {
    if |arrivals| > 0 {
      var pushed := Queues(q.bean + arrivals[0].bean, q.exhaust + arrivals[0].exhaust);
      var it := Iteration(pushed);
      var tail := Loop(it.0, arrivals[1..]);
      assert Loop(q, arrivals) == (tail.0, it.1 + tail.1);
      LoopKeepsChannelOrder(it.0, arrivals[1..], p);
      ReadingsAppend(it.1, tail.1, p);
      PushedHead(arrivals, p);
      var head := QueueOf(Queues(arrivals[0].bean, arrivals[0].exhaust), p);
      var a, b, c := Readings(it.1, p), Readings(tail.1, p), QueueOf(tail.0, p);
      var d, e := QueueOf(it.0, p), Pushed(arrivals[1..], p);
      PushThenIterate(q, arrivals[0], p);
      assert b + c == d + e;
      ConcatAssociative(a, b, c);
      ConcatAssociative(a, d, e);
      ConcatAssociative(QueueOf(q, p), head, e);
    }
  }

  /** The forwarded readings of each probe are an in-order prefix of what
      its handler pushed. */
  lemma ForwardedIsPrefixOfPushed(arrivals: seq<Arrivals>, p: Probe)
    ensures Readings(Loop(Queues([], []), arrivals).1, p) <= Pushed(arrivals, p)
  {
    LoopKeepsChannelOrder(Queues([], []), arrivals, p);
    var r := Loop(Queues([], []), arrivals);
    assert Readings(r.1, p) + QueueOf(r.0, p) == Pushed(arrivals, p);
    assert Pushed(arrivals, p)[..|Readings(r.1, p)|] == Readings(r.1, p);
  }

  /** With nothing new arriving, `n` iterations empty both queues once `n`
      reaches the longer queue's length. */
  lemma {:induction false} LoopDrains(q: Queues, arrivals: seq<Arrivals>)
    requires forall i :: 0 <= i < |arrivals| ==> arrivals[i] == Arrivals([], [])
    requires |q.bean| <= |arrivals| && |q.exhaust| <= |arrivals|
    ensures Loop(q, arrivals).0 == Queues([], [])
    decreases |arrivals|
  {
    if |arrivals| == 0 {
    } else {
      var pushed := Queues(q.bean + arrivals[0].bean, q.exhaust + arrivals[0].exhaust);
      assert pushed == q;
      var (next, out) := Iteration(pushed);
      assert |next.bean| == if |q.bean| == 0 then 0 else |q.bean| - 1;
      assert |next.exhaust| == if |q.exhaust| == 0 then 0 else |q.exhaust| - 1;
      LoopDrains(next, arrivals[1..]);
    }
  }

  // ---------------------------------------------------------------------------
  // The roasting state

  /** The latest temperature of each probe. */
  datatype Roasting = Roasting(beanTemp: Celsius, exhaustTemp: Celsius)

  datatype Message = Event(event: WorkerEvent)

  /** The outcome of an update: the new state, or a panic. */
  datatype Updated = Continue(state: Roasting) | Panicked(error: PhidgetError)

  /** `Roasting::default()`. */
  function Default(): (r: Roasting)
    ensures r.beanTemp == 0.0 && r.exhaustTemp == 0.0
  {
    Roasting(0.0, 0.0)
  }

  /** `Roasting::update`. */
  function Update(s: Roasting, m: Message): (r: Updated)
    ensures r.Panicked? <==> m.event.Error?
    ensures r.Panicked? ==> r.error == m.event.error
    ensures m.event.Received? && m.event.data.Bean? ==>
              r.Continue? && r.state.beanTemp == m.event.data.t && r.state.exhaustTemp == s.exhaustTemp
    ensures m.event.Received? && m.event.data.Exhaust? ==>
              r.Continue? && r.state.exhaustTemp == m.event.data.t && r.state.beanTemp == s.beanTemp
    ensures m.event.Disconnected? ==> r == Continue(s)
  {
    match m.event
    case Error(code) => Panicked(code)
    case Received(Bean(t)) => Continue(s.(beanTemp := t))
    case Received(Exhaust(t)) => Continue(s.(exhaustTemp := t))
    case Disconnected => Continue(s)
  }

  /** Feeds `events` to `Update` in order, stopping at the first panic. */
  function Run(s: Roasting, events: seq<WorkerEvent>): Updated
    decreases |events|
  {
    if |events| == 0 then Continue(s)
    else match Update(s, Event(events[0]))
      case Panicked(e) => Panicked(e)
      case Continue(next) => Run(next, events[1..])
  }

  /** The last of `ts`, or `init` when there is none. */
  function Latest(ts: seq<Celsius>, init: Celsius): Celsius
  {
    if |ts| == 0 then init else ts[|ts| - 1]
  }

  lemma LatestAppend(a: seq<Celsius>, b: seq<Celsius>, init: Celsius)
    ensures Latest(a + b, init) == Latest(b, Latest(a, init))
  {
  }

  /** Without an `Error`, the state after a run holds the latest reading of
      each probe, or the earlier value for a probe that sent none. */
  lemma {:induction false} RunTracksLatest(s: Roasting, events: seq<WorkerEvent>)
    requires forall i :: 0 <= i < |events| ==> !events[i].Error?
    ensures Run(s, events) == Continue(Roasting(
              Latest(Readings(events, BeanProbe), s.beanTemp),
              Latest(Readings(events, ExhaustProbe), s.exhaustTemp)))
    decreases |events|
  {
    if |events| == 0 {
    } else {
      var head := [events[0]];
      var next := Update(s, Event(events[0])).state;
      RunTracksLatest(next, events[1..]);
      assert events == head + events[1..];
      ReadingsAppend(head, events[1..], BeanProbe);
      ReadingsAppend(head, events[1..], ExhaustProbe);
      assert head[1..] == [];
      LatestAppend(Readings(head, BeanProbe), Readings(events[1..], BeanProbe), s.beanTemp);
      LatestAppend(Readings(head, ExhaustProbe), Readings(events[1..], ExhaustProbe), s.exhaustTemp);
    }
  }

  /** A run panics with the first `Error` it meets. */
  lemma {:induction false} RunPanicsAtFirstError(s: Roasting, events: seq<WorkerEvent>, k: nat)
    requires k < |events| && events[k].Error?
    requires forall i :: 0 <= i < k ==> !events[i].Error?
    ensures Run(s, events) == Panicked(events[k].error)
    decreases k
  {
    if k == 0 {
    } else {
      RunPanicsAtFirstError(Update(s, Event(events[0])).state, events[1..], k - 1);
    }
  }

  /** A run panics exactly when it meets an `Error`. */
  lemma {:induction false} RunPanicsIffError(s: Roasting, events: seq<WorkerEvent>)
    ensures Run(s, events).Panicked? <==> exists i :: 0 <= i < |events| && events[i].Error?
    decreases |events|
  {
    if |events| > 0 && !events[0].Error? {
      var next := Update(s, Event(events[0])).state;
      RunPanicsIffError(next, events[1..]);
      if exists i :: 0 <= i < |events| && events[i].Error? {
        var i :| 0 <= i < |events| && events[i].Error?;
        assert events[1..][i - 1] == events[i];
      }
    }
  }

  /** Readings appended after a prefix cannot make a run panic: the run
      panics exactly when the prefix holds an `Error`. */
  lemma RunPanicsIffPrefixError(s: Roasting, prefix: seq<WorkerEvent>, polled: seq<WorkerEvent>)
    requires forall i :: 0 <= i < |polled| ==> polled[i].Received?
    ensures Run(s, prefix + polled).Panicked? <==> exists i :: 0 <= i < |prefix| && prefix[i].Error?
  {
    var events := prefix + polled;
    RunPanicsIffError(s, events);
    if exists i :: 0 <= i < |events| && events[i].Error? {
      var i :| 0 <= i < |events| && events[i].Error?;
      assert prefix[i] == events[i];
    }
    if exists i :: 0 <= i < |prefix| && prefix[i].Error? {
      var i :| 0 <= i < |prefix| && prefix[i].Error?;
      assert events[i] == prefix[i];
    }
  }

  /** Fed the worker's whole output from the default state, the roasting
      screen panics exactly when some configuration call failed; failed
      handler registrations alone do not stop it. */
  lemma WorkerRunPanicsIffSetupFails(respond: WorkerStep -> Option<PhidgetError>, arrivals: seq<Arrivals>)
    ensures Run(Default(), WorkerSetup(respond) + Loop(Queues([], []), arrivals).1).Panicked? <==>
              exists i :: 0 <= i < 6 && respond(ConfigurationSteps()[i]).Some?
  {
    WorkerSetupReportsFailures(respond);
    RunPanicsIffPrefixError(Default(), WorkerSetup(respond), Loop(Queues([], []), arrivals).1);
  }

  /** Each failing configuration call is reported by its own `Error`, in
      source order: the failure of `steps[i]` is the error at the position
      counting the failures before it. */
  lemma {:induction false} EveryFailureReported(
    steps: seq<WorkerStep>, respond: WorkerStep -> Option<PhidgetError>, i: nat)
    requires i < |steps| && respond(steps[i]).Some?
    ensures FailureCount(steps[..i], respond) < |ReportErrors(steps, respond)|
    ensures ReportErrors(steps, respond)[FailureCount(steps[..i], respond)]
            == Error(respond(steps[i]).value)
  {
    var out := ReportErrors(steps, respond);
    var first := match respond(steps[0]) case Some(e) => [Error(e)] case None => [];
    assert out == first + ReportErrors(steps[1..], respond);
    if i == 0 {
      assert steps[..0] == [];
    } else {
      EveryFailureReported(steps[1..], respond, i - 1);
      assert steps[..i][1..] == steps[1..][..i - 1];
      assert steps[..i][0] == steps[0];
    }
  }
}
