/** MainActivity's choice of screen from the UI state, and the
    `exercise/{name}` destination of its navigation graph: the destination
    shows the detail screen for the exercise the view model finds under the
    route's name, or pops back when the lookup gives null. The navigation
    graph exists only while the state is Success. */
module Navigation {
  import opened Outcomes
  import opened Data
  import ViewModel

  /** What the activity's content shows: the loading screen, the error screen
      with the state's message, or the navigation graph over the loaded list. */
  datatype Screen = LoadingScreen | ErrorScreen(message: string) | ExerciseNavHost(exercises: seq<Exercise>)

  /** The `when (uiState)` dispatch in the activity's content. */
  function ScreenFor(s: ViewModel.UiState): (screen: Screen)
    ensures screen.LoadingScreen? <==> s.Loading?
    ensures screen.ErrorScreen? <==> s.Error?
    ensures screen.ErrorScreen? ==> screen.message == s.message
    ensures screen.ExerciseNavHost? <==> s.Success?
    ensures screen.ExerciseNavHost? ==> screen.exercises == s.exercises
  {
    match s
    case Loading => LoadingScreen
    case Error(message) => ErrorScreen(message)
    case Success(exercises) => ExerciseNavHost(exercises)
  }

  datatype DetailRoute = ShowDetail(exercise: Exercise) | PopBack

  /** What the detail destination's code does for `name`. */
  function RouteForName(vm: ViewModel.ExerciseViewModel, name: string): (r: DetailRoute)
    ensures r.ShowDetail? ==> ViewModel.GetExerciseByName(vm, name) == Some(r.exercise)
    ensures r.PopBack? ==> ViewModel.GetExerciseByName(vm, name) == None
    ensures r.ShowDetail? ==>
      && vm.uiState.Success?
      && r.exercise.exerciseName == name
      && r.exercise in vm.uiState.exercises
  {
    match ViewModel.GetExerciseByName(vm, name)
    case Some(exercise) => ShowDetail(exercise)
    case None => PopBack
  }

  /** After a successful load, a route to the name of any listed exercise shows
      a detail screen; a name nobody has pops back. */
  lemma RouteAfterSuccessfulLoad(vm: ViewModel.ExerciseViewModel, xs: seq<Exercise>, name: string)
    requires |xs| > 0
    ensures var after := ViewModel.LoadExercises(vm, Returned(xs))[1];
      RouteForName(after, name).ShowDetail? <==> exists i :: 0 <= i < |xs| && xs[i].exerciseName == name
  {
  }

  /** Navigating to `exercise/{name}`: the destination is composed only when
      the screen is the navigation graph, and then it does what RouteForName
      says. In Loading and Error there is no destination at all. */
  function NavigateToDetail(vm: ViewModel.ExerciseViewModel, name: string): (r: Option<DetailRoute>)
    ensures r.Some? <==> vm.uiState.Success?
    ensures r.Some? ==> r.value == RouteForName(vm, name)
  {
    if ScreenFor(vm.uiState).ExerciseNavHost? then Some(RouteForName(vm, name)) else None
  }

  /** Outside Success the lookup is null, so the destination's code would take
      the pop-back branch; the app never composes the destination there
      (NavigateToDetail gives None). */
  lemma LookupOutsideSuccessPopsBack(vm: ViewModel.ExerciseViewModel, name: string)
    requires !vm.uiState.Success?
    ensures RouteForName(vm, name) == PopBack
    ensures NavigateToDetail(vm, name) == None
  {
  }
}
