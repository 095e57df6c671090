# cambio-torrefaction core, modelled in Dafny

cambio-torrefaction is the desktop controller of a coffee roaster. This
project models its non-graphical core and proves properties about it:

- `sensor.dfy` (module `Sensor`) models `connect_temperature`. It configures
  one Phidget temperature channel step by step and gives up at the first
  failing call. It then forwards the events its three handlers push onto a
  channel, and it stops right after forwarding the first `Detach`.
  `TempData` is a temperature plus the instant it was read.
- `roasting.dfy` (module `Roasting`) models `phidgets_worker`. It configures
  a bean probe and an exhaust probe without stopping at failures. Each
  failing configuration call becomes one `Error` event, and each failing
  handler registration becomes one `Disconnected` event. The worker then
  polls the bean queue and the exhaust queue in turn, and tags each reading
  with its probe. `Roasting::update` keeps the latest reading of each probe
  and panics on `Error`.
- `app.dfy` (module `App`) models the `Screen` enum, `Screen::default`,
  `Screen::try_from`, `App::default` and `App::update`.
- `sidebar.dfy` (module `Sidebar`) models the tab constructors,
  `Sidebar::new`, `Sidebar::update`, and which tab the view highlights.
- `data.rs` is modelled by `data.dfy` (module `Data`). It covers the
  recipe step constructors, the time-based constructors' minutes/seconds
  conversion, `Recipe`'s `Display` and accessors, and the two built-in
  recipes `DUMB_RECIPE` and `TIME_RECIPE`.
- `wrappers.dfy` (module `Wrappers`) holds `Option`, `Result`, `Outcome`
  and a counting function.

## Modelling choices

- **Hardware.** Calls into the Phidget library become a `respond`
  parameter that maps each configuration call to success (`None`) or to
  the library's error.
- **Callbacks and queues.** The values hardware callbacks have delivered
  so far are given as sequences. Each callback's clock reading is an
  argument of the callback. In `connect_temperature` the sensor owns the
  handlers, and the handlers own every sender, so the channel never closes
  while the relay runs. Without a `Detach`, the call is therefore still
  waiting in `rx.recv()`, which the model records as `Receiving`.
- **Temperatures.** `f32` and `f64` temperatures are `real`. The code only
  stores and copies them.
- **The endless polling loop.** `phidgets_worker` never leaves its polling
  loop. A run is modelled as a finite number of iterations, and each
  iteration is preceded by the readings that arrived on the two queues.
- **Panics.** `unwrap` on a failed conversion, and `panic!` on a worker
  error, become an explicit `Panicked` outcome.
- **Sub-states.** The recipe form and the settings page have their own
  update code, which is not part of this model. `App` is therefore generic
  over both states and takes their update functions and defaults as
  parameters.

Each reading is stamped inside the handler closure that sends it
(`src/sensor.rs:27-28` and `src/sensor.rs:70-77`).

## Model

| member | source | states |
|---|---|---|
| Sensor.NewTempData | src/sensor.rs:70-77 | a new reading keeps the given temperature and is stamped with the current instant |
| Sensor.DefaultTempData | src/sensor.rs:79-83 | the default reading is 0.0 degrees, stamped with the current instant |
| Sensor.HandlerEvent | src/sensor.rs:27-37 | a temperature callback sends `Change` with that reading and that instant, the attach callback sends `Attach`, and the detach callback sends `Detach`, with no other combination |
| Sensor.Queue | src/sensor.rs:22-37 | the shared channel holds one event per callback, in callback order, each produced by its handler |
| Sensor.QueuedDetachIffDetached | src/sensor.rs:35-37 | a `Detach` is on the channel iff the detach handler has fired |
| Sensor.QueueAppend | src/sensor.rs:22-37 | the channel contents of consecutive batches of callbacks are the batches' contents, concatenated |
| Sensor.SetupSteps | src/sensor.rs:18-39 | no contract; the seven configuration calls in source order, whose outcomes RunSetup, ConnectTemperature and FirstFailureEndsSetup describe |
| Sensor.RunSetup | src/sensor.rs:18-39 | the calls attempted are a prefix of the setup calls; setup passes iff every call succeeds; on failure, the last attempted call is the one that failed, with that error, and every earlier call succeeded |
| Sensor.FirstDetach | src/sensor.rs:41-46 | finds the position of the first `Detach` on the channel, or reports that there is none |
| Sensor.Relay | src/sensor.rs:41-51 | no contract; its meaning is stated by RelayUpToFirstDetach (against FirstDetach) and RelayLoop (against the source's loop shape) |
| Sensor.RelayUpToFirstDetach | src/sensor.rs:41-51 | the relay forwards the whole channel when it holds no `Detach`, and otherwise exactly the events up to and including the first `Detach` |
| Sensor.RelayLoop | src/sensor.rs:41-51 | the `while let` / `match` / `break` loop emits exactly what the relay definition forwards |
| Sensor.ConnectTemperature | src/sensor.rs:10-55 | the seven setup calls are tried in order; the call returns an error iff one of them fails, and then it is the first failure, with nothing emitted; when all seven succeed, the relay of the callback events is emitted, and the call returns `Ok(())` iff the detach handler has fired, otherwise it is still waiting in `recv()` |
| Sensor.RelayIsPrefix | src/sensor.rs:41-51 | events are forwarded in arrival order, with none invented or skipped: the output is a prefix of the channel |
| Sensor.RelayEndsAtDetach | src/sensor.rs:41-51 | the output ends with `Detach` iff the channel carried one; without one, everything received so far is forwarded |
| Sensor.RelayAtMostOneDetach | src/sensor.rs:43-46 | at most one `Detach` is ever forwarded |
| Sensor.RelayStreams | src/sensor.rs:47-49 | events before the first `Detach` are forwarded as they come: relaying `xs + ys` gives `xs` followed by the relay of `ys` |
| Sensor.StopsAfterDetach | src/sensor.rs:43-46 | after a `Detach`, nothing more on the channel is forwarded |
| Sensor.RelayIdempotent | src/sensor.rs:41-51 | relaying an already relayed stream changes nothing |
| Sensor.ChangeCarriesReading | src/sensor.rs:27-28 | the `Change` event at a temperature callback's position carries that callback's temperature and instant |
| Sensor.NoDetachKeepsReceiving | src/sensor.rs:24-51 | when setup succeeds and the detach handler has not fired, every callback event so far is forwarded and the call has not returned |
| Sensor.DetachEndsCall | src/sensor.rs:41-53 | after a successful setup, the first firing of the detach handler ends the call with `Ok(())`, having emitted the events before it and the `Detach`, and nothing after it |
| Sensor.FirstFailureEndsSetup | src/sensor.rs:18-39 | when setup call `k` is the first to fail, exactly calls 0..k are attempted, the result is that call's error, and nothing is emitted |
| Roasting.FailureCount | src/roasting.rs:37-58 | the number of failing calls among `steps` is at most the number of steps, and is zero iff all succeed |
| Roasting.ConfigurationSteps | src/roasting.rs:37-58 | no contract; the six configuration calls in source order, whose outcomes ReportErrors, WorkerSetup and EveryFailureReported describe |
| Roasting.HandlerSteps | src/roasting.rs:68-85 | no contract; the two handler registrations in source order, whose outcomes ReportDisconnects and WorkerSetup describe |
| Roasting.ReportErrors | src/roasting.rs:37-58 | one `Error` event is sent per failing configuration call, and nothing else is sent |
| Roasting.ReportDisconnects | src/roasting.rs:68-85 | one `Disconnected` event is sent per failing handler registration, and nothing else is sent |
| Roasting.WorkerSetup | src/roasting.rs:37-85 | setup output is one `Error` per failing configuration call, followed by one `Disconnected` per failing handler registration |
| Roasting.WorkerSetupReportsFailures | src/roasting.rs:37-85 | setup reports an `Error` iff some configuration call fails, and reports nothing at all iff every call succeeds |
| Roasting.EveryFailureReported | src/roasting.rs:37-58 | the error of the i-th failing call is reported, in call order, at the position given by the number of failures before it |
| Roasting.ReadingsAppend | src/roasting.rs:88-99 | the readings of one probe in a concatenation are that probe's readings from each part, concatenated |
| Roasting.Tag | src/roasting.rs:88-98 | a reading tagged for probe `p` is attributed to `p` and keeps its temperature |
| Roasting.TryRecv | src/roasting.rs:88-98 | `try_recv` yields a value iff the queue is non-empty, and then it is the oldest value and the rest stays queued; an empty queue is left as it is |
| Roasting.Forward | src/roasting.rs:88-99 | one `try_recv` forwards exactly one reading when the queue is non-empty and none when it is empty, tagged with its own probe; the forwarded reading followed by the remaining queue is the original queue |
| Roasting.Iteration | src/roasting.rs:87-100 | one loop iteration sends one `Received` event per non-empty queue, the bean reading before the exhaust reading, and for each probe loses or reorders nothing from its queue |
| Roasting.Loop | src/roasting.rs:87-100 | n iterations send at most 2n events, all of them `Received` |
| Roasting.PushThenIterate | src/roasting.rs:68-100 | for each probe, what one pass forwards after new arrivals, followed by what stays queued, is the old queue followed by the arrivals |
| Roasting.LoopKeepsChannelOrder | src/roasting.rs:68-100 | for each probe, the readings forwarded, followed by those still queued, are the initial queue followed by every value the handler pushed, in order |
| Roasting.ForwardedIsPrefixOfPushed | src/roasting.rs:68-100 | starting with empty queues, each probe's forwarded readings are a prefix of what its handler pushed |
| Roasting.LoopDrains | src/roasting.rs:87-100 | once readings stop arriving, as many iterations as the longer queue holds empty both queues |
| Roasting.Default | src/roasting.rs:104-108 | the default state holds 0.0 for both probes |
| Roasting.Update | src/roasting.rs:116-127 | update panics iff the event is `Error`, with that error; a bean reading updates only the bean temperature and an exhaust reading only the exhaust temperature; `Disconnected` changes nothing |
| Roasting.LatestAppend | src/roasting.rs:121-124 | the latest value after two batches is the latest value of the second batch, starting from the latest value of the first |
| Roasting.RunTracksLatest | src/roasting.rs:116-127 | without errors, after a run each temperature is the latest reading of its own probe, or its earlier value if that probe sent none |
| Roasting.RunPanicsAtFirstError | src/roasting.rs:118-120 | a run panics with the error of the first `Error` event |
| Roasting.RunPanicsIffError | src/roasting.rs:116-127 | a run panics iff some event is an `Error` |
| Roasting.RunPanicsIffPrefixError | src/roasting.rs:116-127 | appending polled readings to a prefix does not change whether the run panics |
| Roasting.WorkerRunPanicsIffSetupFails | src/roasting.rs:37-127 | feeding the worker's whole output to `Roasting::update` from the default state panics iff some configuration call failed |
| Sidebar.NewTab | src/sidebar.rs:28-33 | a tab keeps its icon and label exactly as given |
| Sidebar.IconTab | src/sidebar.rs:35-37 | an icon tab has that icon and no label |
| Sidebar.TextTab | src/sidebar.rs:39-41 | a text tab has that label and no icon |
| Sidebar.IconTextTab | src/sidebar.rs:43-45 | an icon-and-text tab has both |
| Sidebar.New | src/sidebar.rs:93-95 | a new sidebar stores the given tabs and selection, without checking the selection |
| Sidebar.Update | src/sidebar.rs:97-103 | selecting a tab sets the selection to that id and leaves the tabs untouched |
| Sidebar.IsSelected | src/sidebar.rs:53 | no contract; the `id == selected` test of the tab view, whose effect Highlights and OneHighlightIffInRange state |
| Sidebar.Highlights | src/sidebar.rs:112-117 | there is one highlight flag per tab, and tab i is highlighted iff i equals the selection |
| Sidebar.OneHighlightIffInRange | src/sidebar.rs:47-61 | exactly one tab is highlighted when the selection is a valid index, and none otherwise |
| Sidebar.UpdateMayLeaveRange | src/sidebar.rs:97-103 | selection is not bounds-checked: selecting tab 5 of a one-tab sidebar leaves no tab highlighted |
| App.DefaultScreen | src/lib.rs:43-47 | the default screen is the one with discriminant 0 |
| App.TryFrom | src/lib.rs:49-59 | conversion succeeds iff the value is below 2, and then gives the screen with that discriminant |
| App.Discriminant | src/lib.rs:54-55 | no contract; `Screen as usize`, whose inverse is stated by TryFrom and TryFromDiscriminant |
| App.TryFromDiscriminant | src/lib.rs:49-59 | converting a screen's discriminant gives that screen back |
| App.Default | src/lib.rs:26-35 | the application starts on the recipe screen, with two icon-only tabs, tab 0 selected, and the given recipe and settings defaults |
| App.Update | src/lib.rs:87-128 | update panics iff a tab id of 2 or more is selected; a valid tab selection moves the screen and the highlight together; `ScreenSelected` moves only the screen; recipe and settings messages change only their own part; Tab requests focus-previous with shift and focus-next without; every other event is a no-op |
| App.DefaultAgrees | src/lib.rs:26-35 | at start-up, the screen shown is the screen of the highlighted tab |
| App.UpdateKeepsAgreement | src/lib.rs:87-128 | every message except `ScreenSelected` keeps the screen and the highlighted tab in agreement |
| App.ScreenSelectedCanDisagree | src/lib.rs:89-93 | `ScreenSelected` alone can leave the highlighted tab out of step with the screen |
| App.RunKeepsAgreement | src/lib.rs:87-128 | any sequence of messages without `ScreenSelected` that does not panic keeps the agreement |
| App.TabSelectionRestoresAgreement | src/lib.rs:94-104 | selecting a tab survives iff its id is a screen, and then restores the agreement |
| Data.Display | src/data.rs:15-19 | a recipe is displayed as its name |
| Data.ToSeconds | src/data.rs:196 | requires minutes*60 + seconds to fit in a u64 (see Left out); no ensures; `minutes * 60 + seconds`, whose meaning FromSeconds, MinutesSecondsRoundTrip and ToSecondsMonotonic state |
| Data.FromSeconds | src/data.rs:194-199 | every whole number of seconds has a (minutes, seconds) form, with seconds below 60, that converts back to it |
| Data.MinutesSecondsRoundTrip | src/data.rs:194-199 | a normalised (minutes, seconds) pair survives conversion to seconds and back |
| Data.ToSecondsMonotonic | src/data.rs:194-199 | for normalised pairs, conversion to seconds preserves the lexicographic order of (minutes, seconds) |
| Data.StartAtTemp | src/data.rs:138-143 | `start` makes a `Start` step at that temperature |
| Data.EndAtTemp | src/data.rs:145-150 | `end` makes an `End` step at that temperature |
| Data.AdjustAirflowAtTemp | src/data.rs:152-157 | `adjust_airflow` makes an airflow step with that airflow at that temperature |
| Data.SwitchGasAtTemp | src/data.rs:159-164 | `switch_gas` makes a gas switch to that state at that temperature |
| Data.OnOffAtTemp | src/data.rs:166-171 | `on_off` makes a timed on/off gas step with that period in seconds at that temperature |
| Data.TempOnOffAtTemp | src/data.rs:173-178 | `temp_on_off` makes a delta-temperature on/off gas step with that delta at that temperature |
| Data.SwitchCoolingAtTemp | src/data.rs:180-185 | `switch_cooling` makes a cooling switch to that state at that temperature |
| Data.SwitchMixingAtTemp | src/data.rs:187-192 | `switch_mixing` makes a mixing switch to that state at that temperature |
| Data.TimeCheckpoint | src/data.rs:194-199 | a (minutes, seconds) time becomes a time checkpoint of minutes*60 + seconds seconds |
| Data.StartAtTime | src/data.rs:194-199 | `t_start` makes a `Start` step at minutes*60 + seconds seconds |
| Data.EndAtTime | src/data.rs:201-206 | `t_end` makes an `End` step at minutes*60 + seconds seconds |
| Data.AdjustAirflowAtTime | src/data.rs:208-213 | `t_adjust_airflow` makes an airflow step at minutes*60 + seconds seconds |
| Data.SwitchGasAtTime | src/data.rs:215-220 | `t_switch_gas` makes a gas switch at minutes*60 + seconds seconds |
| Data.OnOffAtTime | src/data.rs:222-227 | `t_on_off` makes a timed on/off gas step at minutes*60 + seconds seconds |
| Data.TempOnOffAtTime | src/data.rs:229-234 | `t_temp_on_off` makes a delta-temperature on/off step at minutes*60 + seconds seconds |
| Data.SwitchCoolingAtTime | src/data.rs:236-241 | `t_switch_cooling` makes a cooling switch at minutes*60 + seconds seconds |
| Data.SwitchMixingAtTime | src/data.rs:243-248 | `t_switch_mixing` makes a mixing switch at minutes*60 + seconds seconds |
| Data.TimeAndTempTwinsAgree | src/data.rs:138-248 | each time-based constructor makes the same kind of step, with the same parameters, as its temperature-based twin; only the checkpoint differs |
| Data.AscendsFromIsPairwise | src/data.rs:250-280 | a single left-to-right scan whose floor never drops implies that every later temperature checkpoint is at least every earlier one |
| Data.DumbRecipe | src/data.rs:250-280 | no contract; the `DUMB_RECIPE` literal, described by DumbRecipeShape and DumbRecipeIsOrdered |
| Data.TimeRecipe | src/data.rs:282-310 | no contract; the `TIME_RECIPE` literal, described by TimeRecipeShape, TimeRecipeSwitches and TimeRecipeTemperaturesAscend |
| Data.DumbRecipeShape | src/data.rs:250-280 | `DUMB_RECIPE` is "Nicaragua": 26 steps, starting at 200 degrees and ending at 226 degrees |
| Data.DumbRecipeIsOrdered | src/data.rs:250-280 | after the start step, the temperature checkpoints of `DUMB_RECIPE` never decrease |
| Data.TimeRecipeShape | src/data.rs:282-310 | `TIME_RECIPE` is "Guatemala Natural": 24 steps, starting at 190 degrees and ending at 12:38, which is 758 s |
| Data.TimeRecipeSwitches | src/data.rs:282-310 | cooling goes off at 2:10 (130 s) and mixing at 3:15 (195 s) |
| Data.TimeRecipeTemperaturesAscend | src/data.rs:282-310 | after the start step, the temperature checkpoints of `TIME_RECIPE` never decrease |

## Left out

- Everything that draws: every `view` function, the sidebar's button styling and `Checkpoint::view`'s time formatting. Only which tab is highlighted is modelled, because that is the one piece of logic in the views.
- `App::init`, `App::subscription` and `src/main.rs`: loading preferences and starting the runtime are I/O.
- preferences.rs, recipe.rs, settings.rs and icons.rs are not part of this model. The recipe form and the settings page are parameters of `App`.
- The asynchronous machinery (`sipper`, `stream::channel`, `.await`, `mpsc` timing) is not modelled. An event's delivery is modelled as its order in a sequence.
- The `Instant::now()` clock is a parameter of each callback.
- The `hub_port` lookups of `phidgets_worker` are left out: they only print a log line and change nothing.
- `unwrap` on a send to a closed output or channel is not modelled: the receiver is assumed to stay alive.
- Roasting.Loop: the worker loops forever; the model covers every finite prefix of that loop, not the loop as a whole.
- Roasting.Loop, Roasting.LoopKeepsChannelOrder: arrivals are allowed on the queue of a probe whose handler registration failed. In the source that handler is never installed (`src/roasting.rs:68-85`), so the queue stays empty. The model does not tie arrivals to the registration outcome, so its statements also cover inputs the source cannot produce.
- Data.ToSeconds, Data.TimeCheckpoint, Data.StartAtTime, Data.EndAtTime, Data.AdjustAirflowAtTime, Data.SwitchGasAtTime, Data.OnOffAtTime, Data.TempOnOffAtTime, Data.SwitchCoolingAtTime, Data.SwitchMixingAtTime: these require minutes*60 + seconds to fit in a u64. The model does not cover u64 overflow, which panics in debug builds and wraps around in release builds.
- Floating point: temperatures and airflow values are exact reals. The f32 rounding of literals such as `0.333` in the recipes is not modelled.
- `Recipe::name` and `Recipe::steps` are the fields of the `Recipe` datatype, so they need no separate function.
- Sensor.ConnectTemperature: the handler registrations are modelled as plain calls that can fail. The closures they install are modelled by `HandlerEvent`.
