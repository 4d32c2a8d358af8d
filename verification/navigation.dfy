/** The hand-written navigator of the iOS client (`App.js`): three pieces of
    state (the current screen name, the previous one, and the parameters of
    the last `navigate`), the `navigate` and `goBack` transitions, and the
    choice of the screen to render. Screen parameters are values of a type
    `P` the navigator never looks into. */
module Navigation {
  import opened Values

  /** The screens `renderScreen` knows. */
  datatype Screen = Splash | HortaList | AddHorta | HortaDetalhe | AddHortalica | HortalicaDetalhe

  /** The name each screen is selected by. */
  function Name(s: Screen): string {
    match s
    case Splash => "Splash"
    case HortaList => "HortaList"
    case AddHorta => "AddHorta"
    case HortaDetalhe => "HortaDetalhe"
    case AddHortalica => "AddHortalica"
    case HortalicaDetalhe => "HortalicaDetalhe"
  }

  const Names: set<string> :=
    {"Splash", "HortaList", "AddHorta", "HortaDetalhe", "AddHortalica", "HortalicaDetalhe"}

  /** `renderScreen`: the screen whose name is current; any other name
      falls back to the garden list. */
  function RenderScreen(current: string): (s: Screen)
    ensures current in Names ==> Name(s) == current
    ensures current !in Names ==> s == HortaList
  {
    if current == "Splash" then Splash
    else if current == "AddHorta" then AddHorta
    else if current == "HortaDetalhe" then HortaDetalhe
    else if current == "AddHortalica" then AddHortalica
    else if current == "HortalicaDetalhe" then HortalicaDetalhe
    else HortaList
  }

  /** Every screen is rendered when its own name is current: the names
      select the screens one-to-one. */
  lemma RenderByName(s: Screen)
    ensures Name(s) in Names
    ensures RenderScreen(Name(s)) == s
  {
  }

  // ---------------------------------------------------------------------
  // The state machine as written.

  datatype NavState<P> = NavState(current: string, previous: Option<string>, params: map<string, P>)

  /** The initial state: the splash screen, no previous screen, no
      parameters. */
  function Init<P>(): (st: NavState<P>)
    ensures RenderScreen(st.current) == Splash
    ensures st.previous.None? && st.params == map[]
  {
    NavState("Splash", None, map[])
  }

  /** `navigate(screen, params = {})`: the old current screen becomes the
      previous one, and the parameters are replaced (by `{}` when omitted). */
  function Navigate<P>(st: NavState<P>, screen: string, params: Option<map<string, P>>): (r: NavState<P>)
    ensures r.current == screen
    ensures r.previous == Some(st.current)
    ensures r.params == params.GetOr(map[])
  {
    NavState(screen, Some(st.current), params.GetOr(map[]))
  }

  /** JavaScript truthiness of the previous screen: null and "" are falsy. */
  predicate HasPrevious<P>(st: NavState<P>) {
    st.previous.Some? && st.previous.value != []
  }

  /** `goBack`: the previous screen becomes current, or the garden list when
      there is none. Neither the previous screen nor the parameters change. */
  function GoBack<P>(st: NavState<P>): (r: NavState<P>)
    ensures HasPrevious(st) ==> r.current == st.previous.value
    ensures !HasPrevious(st) ==> r.current == "HortaList"
    ensures r.previous == st.previous && r.params == st.params
  {
    if HasPrevious(st) then st.(current := st.previous.value)
    else st.(current := "HortaList")
  }

  /** Going back twice is the same as going back once. */
  lemma GoBackIdempotent<P>(st: NavState<P>)
    ensures GoBack(GoBack(st)) == GoBack(st)
  {
  }

  /** Going back right after a `navigate` returns to the screen it left (when
      that screen had a name), but keeps the parameters of the `navigate`. */
  lemma BackAfterNavigate<P>(st: NavState<P>, screen: string, params: Option<map<string, P>>)
    requires st.current != []
    ensures GoBack(Navigate(st, screen, params)).current == st.current
    ensures GoBack(Navigate(st, screen, params)).params == params.GetOr(map[])
  {
  }

  /** The history is one screen deep and parameters are not restored. From
      the garden list, open a garden (parameter `horta`), open one of its
      crops (parameter `cultivoDetalhado`) and press back: the garden screen
      is shown without its `horta` parameter, and pressing back again keeps
      it on the garden screen instead of returning to the list. */
  lemma OneLevelHistory(horta: int, cultivo: int)
    ensures var s0 := NavState("HortaList", Some("Splash"), map[]);
            var s1 := Navigate(s0, "HortaDetalhe", Some(map["horta" := horta]));
            var s2 := Navigate(s1, "HortalicaDetalhe", Some(map["cultivoDetalhado" := cultivo]));
            var s3 := GoBack(s2);
            && s3.current == "HortaDetalhe"
            && "horta" !in s3.params
            && GoBack(s3).current == "HortaDetalhe"
  {
    var s0: NavState<int> := NavState("HortaList", Some("Splash"), map[]);
    var s1 := Navigate(s0, "HortaDetalhe", Some(map["horta" := horta]));
    var s2 := Navigate(s1, "HortalicaDetalhe", Some(map["cultivoDetalhado" := cultivo]));
    assert s2.params == map["cultivoDetalhado" := cultivo];
    assert "horta" != "cultivoDetalhado";
  }

  // ---------------------------------------------------------------------
  // The evidently intended navigator: a history stack.

  /** A screen and the parameters it was opened with. */
  datatype Visit<P> = Visit(screen: string, params: map<string, P>)

  /** The shown visit and the visits below it, most recent last. */
  datatype StackState<P> = StackState(top: Visit<P>, history: seq<Visit<P>>)

  function StackInit<P>(): (st: StackState<P>)
    ensures RenderScreen(st.top.screen) == Splash
    ensures st.history == []
  {
    StackState(Visit("Splash", map[]), [])
  }

  /** `navigate` on a stack: the shown visit is pushed. */
  function StackNavigate<P>(st: StackState<P>, screen: string, params: Option<map<string, P>>)
    : (r: StackState<P>)
    ensures r.top == Visit(screen, params.GetOr(map[]))
    ensures |r.history| == |st.history| + 1
    ensures r.history[..|st.history|] == st.history && r.history[|st.history|] == st.top
  {
    StackState(Visit(screen, params.GetOr(map[])), st.history + [st.top])
  }

  /** `goBack` on a stack: the most recent visit is restored with its own
      parameters; with no history the garden list is shown. */
  function StackGoBack<P>(st: StackState<P>): (r: StackState<P>)
    ensures st.history != [] ==> r.top == st.history[|st.history| - 1] && r.history == st.history[..|st.history| - 1]
    ensures st.history == [] ==> r.top.screen == "HortaList" && r.history == []
  {
    if st.history != [] then StackState(st.history[|st.history| - 1], st.history[..|st.history| - 1])
    else StackState(Visit("HortaList", st.top.params), [])
  }

  /** On the stack, going back undoes a `navigate` completely: screen,
      parameters and history. */
  lemma StackBackUndoesNavigate<P>(st: StackState<P>, screen: string, params: Option<map<string, P>>)
    ensures StackGoBack(StackNavigate(st, screen, params)) == st
  {
    var r := StackNavigate(st, screen, params);
    assert r.history[..|r.history| - 1] == st.history;
  }

  /** The walk of `OneLevelHistory` on the stack: back from the crop shows
      the garden with its `horta`, and back again shows the list. */
  lemma StackWalkReturnsToList(horta: int, cultivo: int)
    ensures var s0 := StackNavigate(StackInit(), "HortaList", None);
            var s1 := StackNavigate(s0, "HortaDetalhe", Some(map["horta" := horta]));
            var s2 := StackNavigate(s1, "HortalicaDetalhe", Some(map["cultivoDetalhado" := cultivo]));
            && StackGoBack(s2).top == Visit("HortaDetalhe", map["horta" := horta])
            && StackGoBack(StackGoBack(s2)).top.screen == "HortaList"
  {
    var s0: StackState<int> := StackNavigate(StackInit(), "HortaList", None);
    var s1 := StackNavigate(s0, "HortaDetalhe", Some(map["horta" := horta]));
    var s2 := StackNavigate(s1, "HortalicaDetalhe", Some(map["cultivoDetalhado" := cultivo]));
    StackBackUndoesNavigate(s1, "HortalicaDetalhe", Some(map["cultivoDetalhado" := cultivo]));
    StackBackUndoesNavigate(s0, "HortaDetalhe", Some(map["horta" := horta]));
  }
}
