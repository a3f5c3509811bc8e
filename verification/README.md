# Workout Explorer core, modelled in Dafny

This project models the logic under the Workout Explorer Android app
(Mobile_Integration_CA3). The app fetches a JSON list of exercises, caches it in
a Room table keyed by exercise name, and shows it through a view model with
three states (Loading, Success, Error). A detail screen looks an exercise up by
name. Everything is modelled as pure functions over immutable values:

- `outcomes.dfy` (`Outcomes`): `Option` for Kotlin nullables. `Attempt` for a call that returns or throws.
- `data.dfy` (`Data`): `Exercise` (the remote record) and `ExerciseEntity` (the cached row). Each has six fields.
- `dao.dfy` (`Dao`): the `exercises` table as a `Table`. A `Table` is a `map<string, ExerciseEntity>` in which every row sits under its own name, so there is at most one row per primary key. `insertAll` follows SQLite's INSERT OR REPLACE, applied row by row.
- `repository.dfy` (`Repository`): the two field-for-field conversions, `fetchExercises` and `getExercisesFromDb`.
- `viewmodel.dfy` (`ViewModel`): the UI state, the load transition, construction and `getExerciseByName`. `ExerciseUiState` is declared twice in the source with identical bodies (ExerciseUiState.kt and ExerciseViewModel.kt); it is modelled once.
- `layout.dfy` (`Layout`): the width-class breakpoints (600 and 840 dp), column counts and the card stagger delay.
- `navigation.dfy` (`Navigation`): the screen chosen for each UI state, and the `exercise/{name}` destination. The destination exists only in Success, where it either shows the detail screen or pops back.

The API call and the table are passed in as values. `FetchExercises(api, cache)`
takes what `getExercises()` produced and the table before the call. It returns
what `fetchExercises()` returned or that it threw, plus the table after the call.
`LoadExercises` returns the sequence of states the UI observes: first Loading,
then the outcome. Reads are pure functions, or a method over a value, so they
cannot change the table or the UI state.

The view model never reads the cache. Its `catch` (ExerciseViewModel.kt:48-49)
sets the fixed string `Error("Network Error: Failed to load data.")`, and an
empty list becomes `Error("API returned no exercises.")`
(`FailureIgnoresCachedRows`). `getExercisesFromDb`
(ExerciseRepository.kt:38-49) is modelled, but nothing in the app calls it.
`insertAll` replaces rows by primary key and keeps the rows whose names the new
list lacks (`Dao.InsertAll`).

## Model

| member | source | states |
|---|---|---|
| `Dao.ReplaceEach` | app/src/main/java/com/example/mobile_integration_ca3/data/ExerciseDao.kt:11-12 | REPLACE applied row by row: the keys grow by the list's names, rows under other names are unchanged, and a table with every row under its own name stays that way |
| `Dao.ReplaceEachLastWins` | app/src/main/java/com/example/mobile_integration_ca3/data/ExerciseDao.kt:11-12 | a name repeated in the list ends up holding the last row with that name |
| `Dao.InsertAll` | app/src/main/java/com/example/mobile_integration_ca3/data/ExerciseDao.kt:11-12 | after `insertAll(l)` the keys are the old keys plus the names in l, each name of l holds the last row of l with that name, and rows whose names are not in l are unchanged |
| `Dao.InsertAllIdempotent` | app/src/main/java/com/example/mobile_integration_ca3/data/ExerciseDao.kt:11-12 | inserting the same list twice leaves the table as one insert does |
| `Dao.LookupAfterInsertAll` | app/src/main/java/com/example/mobile_integration_ca3/data/ExerciseDao.kt:11-18 | after `insertAll(l)`, looking up a name in l gives the last row of l with that name; any other name gives what it gave before |
| `Dao.GetAllExercises` | app/src/main/java/com/example/mobile_integration_ca3/data/ExerciseDao.kt:14-15 | `SELECT *` gives every stored row exactly once (as many rows as keys, no name twice, each row as stored), in no promised order |
| `Dao.GetExerciseByName` | app/src/main/java/com/example/mobile_integration_ca3/data/ExerciseDao.kt:17-18 | gives a stored row whose name is the argument, or null exactly when no stored row has that name |
| `Repository.ToEntity` | app/src/main/java/com/example/mobile_integration_ca3/data/ExerciseRepository.kt:22-31 | the row's primary key is the exercise's name |
| `Repository.ToExercise` | app/src/main/java/com/example/mobile_integration_ca3/data/ExerciseRepository.kt:39-48 | converting a row back to an exercise and then to a row gives the same row |
| `Repository.ExerciseRoundTrip` | app/src/main/java/com/example/mobile_integration_ca3/data/ExerciseRepository.kt:22-48 | converting an exercise to a row and back gives the original exercise |
| `Repository.ToEntities` | app/src/main/java/com/example/mobile_integration_ca3/data/ExerciseRepository.kt:22-31 | the row list has the remote list's length and order, element i is the conversion of exercise i, and the rows' names are the exercises' names |
| `Repository.ToExercises` | app/src/main/java/com/example/mobile_integration_ca3/data/ExerciseRepository.kt:39-48 | one exercise per row, in order, each converting back to its row |
| `Repository.ListRoundTrip` | app/src/main/java/com/example/mobile_integration_ca3/data/ExerciseRepository.kt:22-48 | converting a whole list to rows and back gives the same list |
| `Repository.FetchExercises` | app/src/main/java/com/example/mobile_integration_ca3/data/ExerciseRepository.kt:19-36 | a throwing API call propagates and leaves the cache unchanged; otherwise the exact remote list is returned, every remote name is cached with the row of its last occurrence, and other rows are unchanged |
| `Repository.GetExercisesFromDb` | app/src/main/java/com/example/mobile_integration_ca3/data/ExerciseRepository.kt:38-49 | one exercise per stored row: the count equals the row count, names are distinct, each result converts to its stored row, and every stored row appears |
| `Repository.FetchIntoEmptyCache` | app/src/main/java/com/example/mobile_integration_ca3/data/ExerciseRepository.kt:19-36 | with distinct remote names, a fetch into an empty cache leaves exactly the remote exercises in it |
| `ViewModel.StateAfterFetch` | app/src/main/java/com/example/mobile_integration_ca3/viewmodel/ExerciseViewModel.kt:41-50 | never Loading; Success exactly when a non-empty list came back, and then it holds that list; an empty list gives the "API returned no exercises." error; a throw gives the network error |
| `ViewModel.ErrorMessageNamesCause` | app/src/main/java/com/example/mobile_integration_ca3/viewmodel/ExerciseViewModel.kt:43-49 | the network error appears exactly when the call threw, and the no-exercises error exactly when it returned an empty list |
| `ViewModel.LoadExercises` | app/src/main/java/com/example/mobile_integration_ca3/viewmodel/ExerciseViewModel.kt:36-52 | a load shows Loading first, then the state for the fetch outcome with the table the fetch left; no observed state is an empty Success |
| `ViewModel.Create` | app/src/main/java/com/example/mobile_integration_ca3/viewmodel/ExerciseViewModel.kt:28-34 | the view model starts as Loading over the given cache, and construction runs exactly one load |
| `ViewModel.LoadIgnoresCache` | app/src/main/java/com/example/mobile_integration_ca3/viewmodel/ExerciseViewModel.kt:36-52 | the state after a load does not depend on the previous state or on the cached rows |
| `ViewModel.FailureIgnoresCachedRows` | app/src/main/java/com/example/mobile_integration_ca3/viewmodel/ExerciseViewModel.kt:48-49 | a throw gives the network error even when the cache holds rows, and the cache stays as it was |
| `ViewModel.FirstWithName` | app/src/main/java/com/example/mobile_integration_ca3/viewmodel/ExerciseViewModel.kt:57 | `firstOrNull`: null exactly when no element has the name; otherwise the element at the first index with that name |
| `ViewModel.GetExerciseByName` | app/src/main/java/com/example/mobile_integration_ca3/viewmodel/ExerciseViewModel.kt:55-60 | null in Loading and Error; in Success, the first listed exercise with the name, or null exactly when none has it |
| `ViewModel.FirstMatchUnique` | app/src/main/java/com/example/mobile_integration_ca3/viewmodel/ExerciseViewModel.kt:57 | there is only one first index for a name |
| `ViewModel.LookupAfterSuccessfulLoad` | app/src/main/java/com/example/mobile_integration_ca3/viewmodel/ExerciseViewModel.kt:43-57 | after loading a non-empty list, every listed name is found; with distinct names the lookup gives that very element |
| `ViewModel.LookupAfterFailedLoad` | app/src/main/java/com/example/mobile_integration_ca3/viewmodel/ExerciseViewModel.kt:45-58 | after a throw or an empty list, every lookup is null |
| `Layout.WidthClassOf` | app/src/main/java/com/example/mobile_integration_ca3/MainActivity.kt:66-74 | Compact below 600 dp, Medium from 600 up to but not including 840 dp, Expanded from 840 dp |
| `Layout.WidthClassMonotone` | app/src/main/java/com/example/mobile_integration_ca3/MainActivity.kt:70-74 | a wider screen never gets a narrower class |
| `Layout.ColumnCount` | app/src/main/java/com/example/mobile_integration_ca3/MainActivity.kt:248-252 | 1, 2, 3 columns for Compact, Medium, Expanded, rising with the class |
| `Layout.UsesSingleColumnList` | app/src/main/java/com/example/mobile_integration_ca3/MainActivity.kt:254 | the single-column list is used exactly for Compact |
| `Layout.UsesTwoPaneDetail` | app/src/main/java/com/example/mobile_integration_ca3/MainActivity.kt:479-485 | the detail screen uses two panes exactly for the classes whose list has more than one column |
| `Layout.ColumnsForWidth` | app/src/main/java/com/example/mobile_integration_ca3/MainActivity.kt:248-254 | 1 column below 600 dp, 2 below 840 dp, 3 from there up, never fewer on a wider screen; the two-pane detail appears exactly when the list is a grid |
| `Layout.KotlinQuot` | app/src/main/java/com/example/mobile_integration_ca3/MainActivity.kt:312 | Kotlin's `/`: truncation toward zero, i.e. what is left over has the dividend's sign and is smaller than the divisor in size |
| `Layout.KotlinRem` | app/src/main/java/com/example/mobile_integration_ca3/MainActivity.kt:312 | Kotlin's `%`: the dividend is quotient times divisor plus remainder, with the quotient truncated toward zero; the remainder is smaller than the divisor in size and takes the dividend's sign |
| `Layout.StaggerDelayMs` | app/src/main/java/com/example/mobile_integration_ca3/MainActivity.kt:312 | the delay is a multiple of 100 ms; it lies in [0, 900] for a non-negative index, and in [-900, 900] for any index |
| `Layout.StaggerPattern` | app/src/main/java/com/example/mobile_integration_ca3/MainActivity.kt:312 | delays repeat every ten cards, grow by 100 ms within a block of ten, and drop to 0 at each block start |
| `Navigation.ScreenFor` | app/src/main/java/com/example/mobile_integration_ca3/MainActivity.kt:126-134 | Loading shows the loading screen, Error the error screen with its message, and Success the navigation graph over exactly the loaded list |
| `Navigation.RouteForName` | app/src/main/java/com/example/mobile_integration_ca3/MainActivity.kt:159-171 | the detail screen is shown exactly when the lookup finds an exercise, and it shows exactly the exercise `getExerciseByName` returned (the first listed one with the route's name); otherwise the destination pops back |
| `Navigation.NavigateToDetail` | app/src/main/java/com/example/mobile_integration_ca3/MainActivity.kt:126-173 | the detail destination exists exactly in Success, and there it behaves as RouteForName |
| `Navigation.RouteAfterSuccessfulLoad` | app/src/main/java/com/example/mobile_integration_ca3/MainActivity.kt:156-171 | after loading a non-empty list, a route shows a detail screen exactly when some listed exercise has its name |
| `Navigation.LookupOutsideSuccessPopsBack` | app/src/main/java/com/example/mobile_integration_ca3/MainActivity.kt:159-171 | outside Success the lookup is null, so the destination's code would pop back; the app composes no destination there |

## Left out

- Compose UI: composables, scaffolds, cards, images, logging and the `Animatable`/tween animations are presentation only. Only the integer delay and the screen chosen per UI state are kept. The error screen's `"Error: "` prefix is text layout and is not modelled.
- Theming (Theme.kt, Color.kt) is colour tables and window side effects with no logic.
- HTTP and JSON: Retrofit and Gson are external libraries. The API is an abstract `Attempt`: it either throws or returns a list. The exception's content is never read by the app, so it is not modelled.
- The Room database builder and `ExerciseDatabase` are library plumbing. Only the table's map-level semantics are modelled.
- A failing cache write is not modelled. `insertAll` is taken to succeed; an exception from it would reach the view model's catch like a network error.
- Concurrency: coroutines, `viewModelScope.launch` and suspension are left out. Each load is one atomic step, and overlapping loads are not modelled.
- The view-model factory's reflective class check in MainActivity.kt is left out.
- Widths are integer dp. The source compares `screenWidthDp.dp` (a float) with 600.dp and 840.dp; this is exact for any real screen width.
- `getExercisesFromDb` is modelled, but no caller reads the cache, so no code path falls back to it.
- The activity builds the repository with one argument, while the repository's own file declares two parameters. The repository is modelled as its own file declares it.
- Negative item indices: `kotlinx.coroutines.delay` treats a non-positive delay as no delay. The model only computes the number.
- The detail route reads its `name` argument with `!!`; the model takes the name as given and does not model a missing argument.
