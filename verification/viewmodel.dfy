/** ExerciseViewModel: the three-state UI projection, the load transition and
    the by-name lookup used by the detail screen. Each load is one atomic step;
    the coroutine that runs it is not modelled. */
module ViewModel {
  import opened Outcomes
  import opened Data
  import Dao
  import Repository

  /** ExerciseUiState (declared identically in two source files). */
  datatype UiState = Loading | Success(exercises: seq<Exercise>) | Error(message: string)

  const NoExercisesMessage: string := "API returned no exercises."
  const NetworkErrorMessage: string := "Network Error: Failed to load data."

  /** The view model's observable state together with the repository's table. */
  datatype ExerciseViewModel = ExerciseViewModel(uiState: UiState, cache: Dao.Table)

  /** A Success state is never empty: empty results become an Error. */
  predicate SuccessIsNonEmpty(s: UiState) {
    s.Success? ==> |s.exercises| > 0
  }

  /** The state `loadExercises` settles on once `fetchExercises()` has returned
      or thrown. The cache is not consulted on either path. */
  function StateAfterFetch(result: Attempt<seq<Exercise>>): (s: UiState)
    ensures !s.Loading?
    ensures s.Success? <==> result.Returned? && |result.value| > 0
    ensures s.Success? ==> s.exercises == result.value
    ensures result == Returned([]) ==> s == Error(NoExercisesMessage)
    ensures result.Threw? ==> s == Error(NetworkErrorMessage)
  {
    match result
    case Threw => Error(NetworkErrorMessage)
    case Returned(exercises) =>
      if |exercises| > 0 then Success(exercises) else Error(NoExercisesMessage)
  }

  /** The two error messages are different, so an Error state tells which of the
      two failures happened. */
  lemma ErrorMessageNamesCause(result: Attempt<seq<Exercise>>)
    ensures StateAfterFetch(result) == Error(NetworkErrorMessage) <==> result.Threw?
    ensures StateAfterFetch(result) == Error(NoExercisesMessage) <==> result == Returned([])
  {
    assert NetworkErrorMessage[0] != NoExercisesMessage[0];
  }

  /** `loadExercises()`: the states the UI observes, in order. The state is set
      to Loading first, then the fetch runs and its outcome is applied. */
  function LoadExercises(vm: ExerciseViewModel, api: Attempt<seq<Exercise>>): (steps: seq<ExerciseViewModel>)
    ensures |steps| == 2
    ensures steps[0].uiState == Loading && steps[0].cache == vm.cache
    ensures steps[1].cache == Repository.FetchExercises(api, vm.cache).cache
    ensures steps[1].uiState == StateAfterFetch(api)
    ensures SuccessIsNonEmpty(steps[0].uiState) && SuccessIsNonEmpty(steps[1].uiState)
  {
    var loading := vm.(uiState := Loading);
    var fetched := Repository.FetchExercises(api, loading.cache);
    [loading, ExerciseViewModel(StateAfterFetch(fetched.result), fetched.cache)]
  }

  /** Constructing the view model: the state starts as Loading and `init` runs
      one load straight away. */
  function Create(cache: Dao.Table, api: Attempt<seq<Exercise>>): (steps: seq<ExerciseViewModel>)
    ensures |steps| == 3
    ensures steps[0] == ExerciseViewModel(Loading, cache)
    ensures steps[1..] == LoadExercises(steps[0], api)
  {
    var initial := ExerciseViewModel(Loading, cache);
    [initial] + LoadExercises(initial, api)
  }

  /** The load outcome depends on the API result alone: neither the previous
      state nor the cached rows affect it. */
  lemma LoadIgnoresCache(vm1: ExerciseViewModel, vm2: ExerciseViewModel, api: Attempt<seq<Exercise>>)
    ensures LoadExercises(vm1, api)[1].uiState == LoadExercises(vm2, api)[1].uiState
  {
  }

  /** A failed fetch is reported as a network error even when the cache holds
      rows: the view model never reads the cache. */
  lemma FailureIgnoresCachedRows(vm: ExerciseViewModel)
    requires |vm.cache| > 0
    ensures LoadExercises(vm, Threw)[1].uiState == Error(NetworkErrorMessage)
    ensures LoadExercises(vm, Threw)[1].cache == vm.cache
  {
  }

  /** xs[i] is the first element of xs named `name`. */
  predicate IsFirstMatch(xs: seq<Exercise>, name: string, i: int) {
    && 0 <= i < |xs|
    && xs[i].exerciseName == name
    && forall j :: 0 <= j < i ==> xs[j].exerciseName != name
  }

  /** `firstOrNull { it.exercise_name == name }`. */
  function FirstWithName(xs: seq<Exercise>, name: string): (r: Option<Exercise>)
    ensures r.None? <==> forall i :: 0 <= i < |xs| ==> xs[i].exerciseName != name
    ensures r.Some? ==> exists i :: IsFirstMatch(xs, name, i) && xs[i] == r.value
  {
    if xs == [] then None
    else if xs[0].exerciseName == name then
      assert IsFirstMatch(xs, name, 0);
      Some(xs[0])
    else
      var r := FirstWithName(xs[1..], name);
      assert r.Some? ==> exists i :: IsFirstMatch(xs, name, i) && xs[i] == r.value by {
        if r.Some? {
          var i :| IsFirstMatch(xs[1..], name, i) && xs[1..][i] == r.value;
          assert IsFirstMatch(xs, name, i + 1);
        }
      }
      assert r.None? ==> forall i :: 0 <= i < |xs| ==> xs[i].exerciseName != name by {
        if r.None? {
          assert forall i :: 1 <= i < |xs| ==> xs[i] == xs[1..][i - 1];
        }
      }
      r
  }

  /** `getExerciseByName(name)`: a scan of the Success list; null in every
      other state. */
  function GetExerciseByName(vm: ExerciseViewModel, name: string): (r: Option<Exercise>)
    ensures !vm.uiState.Success? ==> r.None?
    ensures vm.uiState.Success? ==>
      (r.None? <==> forall i :: 0 <= i < |vm.uiState.exercises| ==> vm.uiState.exercises[i].exerciseName != name)
    ensures r.Some? ==> exists i :: IsFirstMatch(vm.uiState.exercises, name, i) && vm.uiState.exercises[i] == r.value
  {
    match vm.uiState
    case Success(exercises) => FirstWithName(exercises, name)
    case _ => None
  }

  /** A first match is unique. */
  lemma FirstMatchUnique(xs: seq<Exercise>, name: string, i: int, j: int)
    requires IsFirstMatch(xs, name, i) && IsFirstMatch(xs, name, j)
    ensures i == j
  {
  }

  /** After a load that fetched a non-empty list, looking up the name of the
      list's i-th element finds that name's first occurrence; with distinct
      names, it finds the i-th element itself. */
  lemma LookupAfterSuccessfulLoad(vm: ExerciseViewModel, xs: seq<Exercise>, i: int)
    requires 0 <= i < |xs|
    ensures var after := LoadExercises(vm, Returned(xs))[1];
      && GetExerciseByName(after, xs[i].exerciseName).Some?
      && GetExerciseByName(after, xs[i].exerciseName).value.exerciseName == xs[i].exerciseName
    ensures (forall a, b :: 0 <= a < b < |xs| ==> xs[a].exerciseName != xs[b].exerciseName) ==>
      GetExerciseByName(LoadExercises(vm, Returned(xs))[1], xs[i].exerciseName) == Some(xs[i])
  {
    var after := LoadExercises(vm, Returned(xs))[1];
    var r := GetExerciseByName(after, xs[i].exerciseName);
    assert after.uiState == Success(xs);
    assert r.Some?;
    var k :| IsFirstMatch(xs, xs[i].exerciseName, k) && xs[k] == r.value;
    if forall a, b :: 0 <= a < b < |xs| ==> xs[a].exerciseName != xs[b].exerciseName {
      assert IsFirstMatch(xs, xs[i].exerciseName, i);
      FirstMatchUnique(xs, xs[i].exerciseName, i, k);
    }
  }

  /** After a load whose fetch threw or returned nothing, every lookup is null. */
  lemma LookupAfterFailedLoad(vm: ExerciseViewModel, api: Attempt<seq<Exercise>>, name: string)
    requires api.Threw? || api == Returned([])
    ensures GetExerciseByName(LoadExercises(vm, api)[1], name) == None
  {
  }
}
