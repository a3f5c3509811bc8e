/** ExerciseRepository: fetches the remote list, writes it to the cache, and
    reads the cache back. The remote call and the table are passed in as
    values: `api` is what `getExercises()` produced, `cache` is the table
    before the call. */
module Repository {
  import opened Outcomes
  import opened Data
  import Dao

  /** The field-for-field conversion used when caching a remote exercise. */
  function ToEntity(x: Exercise): (e: ExerciseEntity)
    ensures e.name == x.exerciseName
  {
    ExerciseEntity(x.exerciseName, x.exerciseDescription, x.image, x.bodyPart, x.difficulty, x.needsEquipment)
  }

  /** The conversion used when reading a cached row back; it undoes ToEntity. */
  function ToExercise(e: ExerciseEntity): (x: Exercise)
    ensures ToEntity(x) == e
  {
    Exercise(e.name, e.description, e.image, e.bodyPart, e.difficulty, e.needsEquipment)
  }

  /** Caching an exercise and reading it back loses nothing. */
  lemma ExerciseRoundTrip(x: Exercise)
    ensures ToExercise(ToEntity(x)) == x
  {
  }

  /** The names of a remote list. */
  function ExerciseNames(xs: seq<Exercise>): set<string> {
    set x | x in xs :: x.exerciseName
  }

  /** `remote.map { ExerciseEntity(...) }`. */
  function ToEntities(xs: seq<Exercise>): (es: seq<ExerciseEntity>)
    ensures |es| == |xs|
    ensures forall i :: 0 <= i < |xs| ==> es[i] == ToEntity(xs[i])
    ensures Dao.RowNames(es) == ExerciseNames(xs)
  {
    if xs == [] then []
    else
      var es := [ToEntity(xs[0])] + ToEntities(xs[1..]);
      assert xs == [xs[0]] + xs[1..];
      es
  }

  /** `getAllExercises().map { Exercise(...) }`. */
  function ToExercises(es: seq<ExerciseEntity>): (xs: seq<Exercise>)
    ensures |xs| == |es|
    ensures forall i :: 0 <= i < |es| ==> ToEntity(xs[i]) == es[i]
  {
    if es == [] then [] else [ToExercise(es[0])] + ToExercises(es[1..])
  }

  /** Converting a whole list to rows and back gives the same list, element for
      element and in order. */
  lemma {:induction false} ListRoundTrip(xs: seq<Exercise>)
    ensures ToExercises(ToEntities(xs)) == xs
  {
    var back := ToExercises(ToEntities(xs));
    forall i | 0 <= i < |xs|
      ensures back[i] == xs[i]
    {
      ExerciseRoundTrip(xs[i]);
    }
  }

  /** No exercise after position i has the same name as xs[i]. */
  predicate IsLastOccurrence(xs: seq<Exercise>, i: int)
    requires 0 <= i < |xs|
  {
    forall j :: i < j < |xs| ==> xs[j].exerciseName != xs[i].exerciseName
  }

  /** What `fetchExercises()` leaves behind: what it returned or that it threw,
      and the table after the call. */
  datatype Fetched = Fetched(result: Attempt<seq<Exercise>>, cache: Dao.Table)

  /** `fetchExercises()`: call the API; if it throws, the exception propagates
      before the cache is touched; otherwise write the converted rows with
      `insertAll` and return the remote list itself. */
  function FetchExercises(api: Attempt<seq<Exercise>>, cache: Dao.Table): (f: Fetched)
    ensures api.Threw? ==> f.result.Threw? && f.cache == cache
    ensures api.Returned? ==> f.result == api
    ensures api.Returned? ==> f.cache.Keys == cache.Keys + ExerciseNames(api.value)
    ensures api.Returned? ==>
      forall n :: n in cache && n !in ExerciseNames(api.value) ==> f.cache[n] == cache[n]
    ensures api.Returned? ==>
      forall i :: 0 <= i < |api.value| && IsLastOccurrence(api.value, i) ==>
        f.cache[api.value[i].exerciseName] == ToEntity(api.value[i])
  {
    match api
    case Threw => Fetched(Threw, cache)
    case Returned(remote) =>
      var entities := ToEntities(remote);
      assert forall i :: 0 <= i < |remote| && IsLastOccurrence(remote, i) ==> Dao.IsLastOfName(entities, i);
      Fetched(Returned(remote), Dao.InsertAll(cache, entities))
  }

  /** `getExercisesFromDb()`: one exercise per stored row, each the conversion
      of its row, in the store's order. */
  method GetExercisesFromDb(cache: Dao.Table) returns (xs: seq<Exercise>)
    ensures |xs| == |cache|
    ensures forall i :: 0 <= i < |xs| ==> xs[i].exerciseName in cache && cache[xs[i].exerciseName] == ToEntity(xs[i])
    ensures forall n :: n in cache ==> ToExercise(cache[n]) in xs
    ensures forall i, j :: 0 <= i < j < |xs| ==> xs[i].exerciseName != xs[j].exerciseName
  {
    var rows := Dao.GetAllExercises(cache);
    xs := ToExercises(rows);
    forall n | n in cache
      ensures ToExercise(cache[n]) in xs
    {
      var i :| 0 <= i < |rows| && rows[i] == cache[n];
      assert ToEntity(xs[i]) == rows[i];
      ExerciseRoundTrip(xs[i]);
    }
  }

  /** With distinct remote names, a successful fetch into an empty cache leaves
      exactly the remote exercises in it: reading the cache back gives the
      same set of exercises. */
  lemma FetchIntoEmptyCache(xs: seq<Exercise>)
    requires forall i, j :: 0 <= i < j < |xs| ==> xs[i].exerciseName != xs[j].exerciseName
    ensures (set e | e in FetchExercises(Returned(xs), map[]).cache.Values :: ToExercise(e)) == (set x | x in xs)
  {
    var es := ToEntities(xs);
    var c := FetchExercises(Returned(xs), map[]).cache;
    forall i | 0 <= i < |xs|
      ensures c[xs[i].exerciseName] == ToEntity(xs[i])
    {
      assert IsLastOccurrence(xs, i);
    }
    var lhs := set e | e in c.Values :: ToExercise(e);
    forall x | x in lhs
      ensures x in xs
    {
      var e :| e in c.Values && x == ToExercise(e);
      var n :| n in c && c[n] == e;
      assert n in ExerciseNames(xs);
      var y :| y in xs && y.exerciseName == n;
      var i :| 0 <= i < |xs| && xs[i] == y;
      ExerciseRoundTrip(xs[i]);
    }
    forall x | x in xs
      ensures x in lhs
    {
      var i :| 0 <= i < |xs| && xs[i] == x;
      ExerciseRoundTrip(x);
      assert c[x.exerciseName] in c.Values;
    }
  }
}
