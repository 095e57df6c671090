/** The application state and message routing of `src/lib.rs`.

    The application shows one of two screens next to a sidebar with one tab
    per screen. Selecting tab `id` converts `id` to a screen (panicking when
    there is none) and records it both as the screen and as the sidebar's
    selection; selecting a screen directly changes the screen only. The
    recipe form and the settings page are updated by their own code, which
    is a parameter here. */
module App {
  import opened Wrappers
  import Sidebar

  type Usize = Sidebar.Usize

  datatype Screen = Recipe | Settings

  /** A keyboard key, as far as the application distinguishes keys. */
  datatype Key = TabKey | OtherKey

  /** A window event: a key press with the state of the shift modifier, or
      anything else. */
  datatype UiEvent = KeyPressed(key: Key, shift: bool) | OtherEvent

  /** The task an update hands back to the runtime. */
  datatype Task = NoTask | FocusNext | FocusPrevious

  datatype Message<RM, SM> =
    | ScreenSelected(screen: Screen)
    | SidebarMessage(message: Sidebar.Message)
    | RecipeMessage(recipeMessage: RM)
    | SettingsMessage(settingsMessage: SM)
    | Event(event: UiEvent)

  datatype App<R, S> = App(screen: Screen, sidebar: Sidebar.Sidebar, recipe: R, settings: S)

  /** The outcome of an update: the new state and task, or a panic. */
  datatype Updated<R, S> = Next(app: App<R, S>, task: Task) | Panicked

  /** `Screen as usize`: the variant's position in the declaration. */
  function Discriminant(s: Screen): Usize
  {
    match s
    case Recipe => 0
    case Settings => 1
  }

  /** `Screen::default()`. */
  function DefaultScreen(): (s: Screen)
    ensures Discriminant(s) == 0
  {
    Recipe
  }

  /** `Screen::try_from(v)`: the screen whose discriminant is `v`, or
      `Err(())` when there is none. */
  function TryFrom(v: Usize): (r: Result<Screen, ()>)
    ensures r.Ok? <==> v < 2
    ensures r.Ok? ==> Discriminant(r.value) == v
  {
    if v == Discriminant(Recipe) then Ok(Recipe)
    else if v == Discriminant(Settings) then Ok(Settings)
    else Err(())
  }

  /** Converting a screen's discriminant back gives the screen. */
  lemma TryFromDiscriminant(s: Screen)
    ensures TryFrom(Discriminant(s)) == Ok(s)
  {
  }

  /** `App::default()`, given the defaults of the recipe form and the
      settings page. */
  function Default<R, S>(recipe: R, settings: S): (app: App<R, S>)
    ensures app.screen == Recipe
    ensures |app.sidebar.tabs| == 2 && app.sidebar.selected == 0
    ensures forall i :: 0 <= i < 2 ==> app.sidebar.tabs[i].icon.Some? && app.sidebar.tabs[i].text.None?
    ensures app.recipe == recipe && app.settings == settings
  {
    App(DefaultScreen(),
        Sidebar.New([Sidebar.IconTab('\U{E801}'), Sidebar.IconTab('\U{E800}')], 0),
        recipe, settings)
  }

  /** The screen shown is the one the highlighted tab stands for. */
  predicate Agrees<R, S>(app: App<R, S>)
  {
    TryFrom(app.sidebar.selected) == Ok(app.screen)
  }

  /** `App::update`. */
  function Update<R, S, RM, SM>(
    app: App<R, S>, m: Message<RM, SM>,
    recipeUpdate: (R, RM) -> R, settingsUpdate: (S, SM) -> S): (r: Updated<R, S>)
    ensures r.Panicked? <==> m.SidebarMessage? && m.message.id >= 2
    ensures m.ScreenSelected? ==>
              r.Next? && r.app.screen == m.screen && r.app.sidebar == app.sidebar
    ensures m.SidebarMessage? && m.message.id < 2 ==>
              && r.Next?
              && Agrees(r.app)
              && r.app.sidebar.selected == m.message.id
              && r.app.sidebar.tabs == app.sidebar.tabs
    ensures m.RecipeMessage? ==>
              r.Next? && r.app.recipe == recipeUpdate(app.recipe, m.recipeMessage)
    ensures m.SettingsMessage? ==>
              r.Next? && r.app.settings == settingsUpdate(app.settings, m.settingsMessage)
    ensures m.Event? ==> r.Next? && r.app == app
    ensures m.Event? ==> (r.task != NoTask <==> m.event.KeyPressed? && m.event.key == TabKey)
    ensures m.Event? && r.task != NoTask ==> (r.task == FocusPrevious <==> m.event.shift)
    ensures r.Next? && !m.Event? ==> r.task == NoTask
    ensures r.Next? && !m.RecipeMessage? ==> r.app.recipe == app.recipe
    ensures r.Next? && !m.SettingsMessage? ==> r.app.settings == app.settings
    ensures r.Next? && !m.ScreenSelected? && !m.SidebarMessage? ==>
              r.app.screen == app.screen && r.app.sidebar == app.sidebar
  {
    match m
    case ScreenSelected(selected) =>
      Next(app.(screen := selected), NoTask)
    case SidebarMessage(message) =>
      (match TryFrom(message.id)
       case Err(_) => Panicked
       case Ok(screen) =>
         Next(app.(screen := screen, sidebar := Sidebar.Update(app.sidebar, message)), NoTask))
    case RecipeMessage(message) =>
      Next(app.(recipe := recipeUpdate(app.recipe, message)), NoTask)
    case SettingsMessage(message) =>
      Next(app.(settings := settingsUpdate(app.settings, message)), NoTask)
    case Event(event) =>
      match event
      case KeyPressed(TabKey, shift) => Next(app, if shift then FocusPrevious else FocusNext)
      case _ => Next(app, NoTask)
  }

  /** Processes `ms` in order, stopping at the first panic. */
  function Run<R, S, RM, SM>(
    app: App<R, S>, ms: seq<Message<RM, SM>>,
    recipeUpdate: (R, RM) -> R, settingsUpdate: (S, SM) -> S): Updated<R, S>
    decreases |ms|
  {
    if |ms| == 0 then Next(app, NoTask)
    else match Update(app, ms[0], recipeUpdate, settingsUpdate)
      case Panicked => Panicked
      case Next(next, _) => Run(next, ms[1..], recipeUpdate, settingsUpdate)
  }

  /** At start-up the screen and the highlighted tab agree. */
  lemma DefaultAgrees<R, S>(recipe: R, settings: S)
    ensures Agrees(Default(recipe, settings))
  {
  }

  /** Every message other than `ScreenSelected` keeps the screen and the
      highlighted tab in agreement. */
  lemma UpdateKeepsAgreement<R, S, RM, SM>(
    app: App<R, S>, m: Message<RM, SM>,
    recipeUpdate: (R, RM) -> R, settingsUpdate: (S, SM) -> S)
    requires Agrees(app)
    requires !m.ScreenSelected?
    ensures Update(app, m, recipeUpdate, settingsUpdate).Next? ==>
              Agrees(Update(app, m, recipeUpdate, settingsUpdate).app)
  {
  }

  /** `ScreenSelected` alone can break the agreement: from start-up,
      selecting the settings screen leaves tab 0 highlighted. */
  lemma ScreenSelectedCanDisagree<R, S, RM, SM>(
    recipe: R, settings: S, recipeUpdate: (R, RM) -> R, settingsUpdate: (S, SM) -> S)
    ensures var r := Update(Default(recipe, settings), ScreenSelected(Settings), recipeUpdate, settingsUpdate);
            r.Next? && !Agrees(r.app)
  {
  }

  /** Whatever sequence of messages without `ScreenSelected` the application
      survives, the screen and the highlighted tab agree afterwards. */
  lemma {:induction false} RunKeepsAgreement<R, S, RM, SM>(
    app: App<R, S>, ms: seq<Message<RM, SM>>,
    recipeUpdate: (R, RM) -> R, settingsUpdate: (S, SM) -> S)
    requires Agrees(app)
    requires forall i :: 0 <= i < |ms| ==> !ms[i].ScreenSelected?
    ensures Run(app, ms, recipeUpdate, settingsUpdate).Next? ==>
              Agrees(Run(app, ms, recipeUpdate, settingsUpdate).app)
    decreases |ms|
  {
    if |ms| > 0 {
      var r := Update(app, ms[0], recipeUpdate, settingsUpdate);
      UpdateKeepsAgreement(app, ms[0], recipeUpdate, settingsUpdate);
      if r.Next? {
        RunKeepsAgreement(r.app, ms[1..], recipeUpdate, settingsUpdate);
      }
    }
  }

  /** Selecting a tab repairs any disagreement: after a surviving
      `TabSelected` the screen and the highlighted tab agree, whatever came
      before. */
  lemma TabSelectionRestoresAgreement<R, S, RM, SM>(
    app: App<R, S>, id: Usize,
    recipeUpdate: (R, RM) -> R, settingsUpdate: (S, SM) -> S)
    ensures var r := Update(app, SidebarMessage(Sidebar.TabSelected(id)), recipeUpdate, settingsUpdate);
            r.Next? <==> id < 2
    ensures var r := Update(app, SidebarMessage(Sidebar.TabSelected(id)), recipeUpdate, settingsUpdate);
            r.Next? ==> Agrees(r.app) && r.app.screen == TryFrom(id).value
  {
  }
}
