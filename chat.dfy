/** The chat endpoint: it builds the prompt context from the caller's exercises,
    pulls the JSON object out of the language model's text, and applies the parsed
    actions one after another to an in-memory copy of the caller's state. The
    language model, `JSON.parse` and the datastore are parameters (oracles). */
module Chat {
  import opened Database
  import opened Text
  import opened Seqs

  datatype ActionKind = Add | Update | Delete | Note | Unrecognised(tag: string)

  /** One parsed action. For `weight`, `None` is a missing field and `Some(None)`
      an explicit `null`; the two differ for `update`. */
  datatype Action = Action(
    kind: ActionKind,
    exercise: Option<string>,
    sets: Option<int>,
    reps: Option<int>,
    weight: Option<Option<real>>,
    content: Option<string>)

  datatype AIResponse = AIResponse(actions: seq<Action>, response: string)

  /** The request body: the workout id, and the exercise list and workout the caller
      holds, which are the base the turn mutates. */
  datatype TurnInput = TurnInput(workoutId: string, exercises: seq<Exercise>, workout: Workout)

  /** `updatedExercises` and `updatedWorkout`. */
  datatype View = View(exercises: seq<Exercise>, workout: Workout)

  function Start(t: TurnInput): View
  {
    View(t.exercises, t.workout)
  }

  // ---------------------------------------------------------------------------
  // Exercise-name matching for update and delete

  /** Case-insensitive substring match in either direction. */
  predicate Matches(e: Exercise, search: string)
  {
    Contains(Lower(e.name), Lower(search)) || Contains(Lower(search), Lower(e.name))
  }

  /** `updatedExercises.find(...)`: the index of the first matching row. */
  function FindMatch(xs: seq<Exercise>, search: string): (r: Option<nat>)
    ensures r.Some? ==> r.value < |xs| && Matches(xs[r.value], search)
    ensures r.Some? ==> forall j :: 0 <= j < r.value ==> !Matches(xs[j], search)
    ensures r.None? ==> forall j :: 0 <= j < |xs| ==> !Matches(xs[j], search)
  {
    if xs == [] then None
    else if Matches(xs[0], search) then Some(0)
    else match FindMatch(xs[1..], search)
      case None => None
      case Some(k) => Some(k + 1)
  }

  /** The matcher is the substring relation, taken after lower-casing both names,
      in one direction or the other. */
  lemma MatchesIff(e: Exercise, search: string)
    ensures Matches(e, search) <==>
      (exists i :: OccursAt(Lower(e.name), Lower(search), i)) ||
      (exists i :: OccursAt(Lower(search), Lower(e.name), i))
  {
    var name, s := Lower(e.name), Lower(search);
    ContainsIffOccurs(name, s);
    ContainsIffOccurs(s, name);
    if Contains(name, s) {
      var i :| OccursAt(name, s, i);
      assert OccursAt(Lower(e.name), Lower(search), i);
    }
    if Contains(s, name) {
      var i :| OccursAt(s, name, i);
      assert OccursAt(Lower(search), Lower(e.name), i);
    }
    forall i | OccursAt(Lower(e.name), Lower(search), i) ensures Matches(e, search) {
      assert OccursAt(name, s, i);
    }
    forall i | OccursAt(Lower(search), Lower(e.name), i) ensures Matches(e, search) {
      assert OccursAt(s, name, i);
    }
  }

  /** Searches that differ only in the case of ASCII letters find the same row. */
  lemma {:induction false} FindMatchIgnoresCase(xs: seq<Exercise>, s1: string, s2: string)
    requires Lower(s1) == Lower(s2)
    ensures FindMatch(xs, s1) == FindMatch(xs, s2)
  {
    if xs != [] {
      FindMatchIgnoresCase(xs[1..], s1, s2);
    }
  }

  /** A stored name matches every search spelled inside it, whatever the case. */
  lemma SearchInsideNameMatches(e: Exercise, before: string, search: string, after: string)
    requires e.name == before + search + after
    ensures Matches(e, search)
  {
    LowerContainsMiddle(before, search, after);
  }

  /** A stored name matches every search it is spelled inside, whatever the case. */
  lemma NameInsideSearchMatches(e: Exercise, before: string, after: string)
    ensures Matches(e, before + e.name + after)
  {
    LowerContainsMiddle(before, e.name, after);
  }

  /** A search that spells, up to letter case, the start of the stored name matches it. */
  lemma PrefixIgnoringCaseMatches(e: Exercise, search: string)
    requires |search| <= |e.name|
    requires forall i :: 0 <= i < |search| ==> LowerChar(search[i]) == LowerChar(e.name[i])
    ensures Matches(e, search)
  {
    var ls, ln := Lower(search), Lower(e.name);
    assert ls == ln[..|search|];
    assert ls <= ln;
  }

  /** Upper- or lower-case, "bench" finds "Bench Press". */
  lemma ShortSearchMatches(e: Exercise)
    requires e.name == "Bench Press"
    ensures Matches(e, "bench")
  {
    PrefixIgnoringCaseMatches(e, "bench");
  }

  // ---------------------------------------------------------------------------
  // The effect of one action

  /** `n || fallback`: a missing or zero count takes the fallback. */
  function CountOr(given: Option<int>, fallback: int): int
  {
    if given.Some? && given.value != 0 then given.value else fallback
  }

  /** `weight ?? null`. */
  function WeightOrNull(w: Option<Option<real>>): Option<real>
  {
    if w.Some? then w.value else None
  }

  /** The row an `add` inserts, completed with what the datastore assigned. */
  function AddedRow(a: Action, id: string, createdAt: string, t: TurnInput): Exercise
    requires a.exercise.Some?
  {
    Exercise(id, t.workoutId, a.exercise.value, CountOr(a.sets, 3), CountOr(a.reps, 8),
             WeightOrNull(a.weight), |t.exercises|, createdAt, None)
  }

  /** The stored row merged with the fields an `update` carries. */
  function Patched(e: Exercise, a: Action): Exercise
  {
    e.(sets := if a.sets.Some? then a.sets.value else e.sets,
       reps := if a.reps.Some? then a.reps.value else e.reps,
       weight := if a.weight.Some? then a.weight.value else e.weight)
  }

  /** `xs.map(e => e.id === id ? row : e)`. */
  function ReplaceId(xs: seq<Exercise>, id: string, row: Exercise): (r: seq<Exercise>)
  {
    seq(|xs|, i requires 0 <= i < |xs| => if xs[i].id == id then row else xs[i])
  }

  function KeepsOtherId(id: string): Exercise -> bool
  {
    (e: Exercise) => e.id != id
  }

  /** `xs.filter(e => e.id !== id)`. */
  function RemoveId(xs: seq<Exercise>, id: string): seq<Exercise>
  {
    Filter(xs, KeepsOtherId(id))
  }

  /** `workout.notes ? notes + "\n" + content : content`. */
  function NewNotes(notes: Option<string>, content: string): string
  {
    if Truthy(notes) then notes.value + "\n" + content else content
  }

  /** A note action whose datastore update succeeded. */
  predicate NoteLands(a: Action, reply: DbReply)
  {
    a.kind.Note? && Truthy(a.content) && reply.DbRow?
  }

  /** The workout a successful note produces; it always builds on the caller's
      original notes, not on an earlier note of the same turn. */
  function NotedWorkout(t: TurnInput, content: string): Workout
  {
    t.workout.(notes := Some(NewNotes(t.workout.notes, content)))
  }

  /** One pass of the action loop's body. `reply` is the datastore's answer to the
      call that action makes (ignored by kinds that make none, and by delete). */
  function Step(v: View, a: Action, reply: DbReply, t: TurnInput): View
  {
    if a.kind.Add? && Truthy(a.exercise) then
      if reply.DbRow? then v.(exercises := v.exercises + [AddedRow(a, reply.id, reply.createdAt, t)]) else v
    else if a.kind.Update? && Truthy(a.exercise) then
      match FindMatch(v.exercises, a.exercise.value)
      case None => v
      case Some(k) =>
        if reply.DbRow? then v.(exercises := ReplaceId(v.exercises, v.exercises[k].id, Patched(v.exercises[k], a)))
        else v
    else if a.kind.Delete? && Truthy(a.exercise) then
      match FindMatch(v.exercises, a.exercise.value)
      case None => v
      case Some(k) => v.(exercises := RemoveId(v.exercises, v.exercises[k].id))
    else if NoteLands(a, reply) then
      v.(workout := NotedWorkout(t, a.content.value))
    else v
  }

  /** The actions applied in order; action `i` gets the datastore answer `db(i)`. */
  function Run(v: View, acts: seq<Action>, db: nat -> DbReply, t: TurnInput): View
    decreases |acts|
  {
    if acts == [] then v
    else Step(Run(v, acts[..|acts| - 1], db, t), acts[|acts| - 1], db(|acts| - 1), t)
  }

  // ---------------------------------------------------------------------------
  // What each kind of action does

  /** `add` appends exactly one row, and only when the insert succeeds; its counts
      default to 3 sets and 8 reps (also when given as 0), its weight to null, and
      its order is the length of the list the caller sent. */
  lemma AddAppendsOneRow(v: View, a: Action, reply: DbReply, t: TurnInput)
    requires a.kind.Add?
    ensures var s := Step(v, a, reply, t);
      if Truthy(a.exercise) && reply.DbRow? then
        && |s.exercises| == |v.exercises| + 1
        && s.exercises[..|v.exercises|] == v.exercises
        && s.workout == v.workout
        && var row := s.exercises[|v.exercises|];
           && row.id == reply.id && row.name == a.exercise.value && row.workoutId == t.workoutId
           && row.order == |t.exercises|
           && row.sets == (if a.sets == None || a.sets == Some(0) then 3 else a.sets.value)
           && row.reps == (if a.reps == None || a.reps == Some(0) then 8 else a.reps.value)
           && row.weight == (if a.weight.Some? then a.weight.value else None)
      else s == v
  {
  }

  /** `update` rewrites the rows carrying the matched row's id with that row merged
      with the given fields, keeps every other row and the length, and changes
      nothing when the name is missing or empty, no row matches or the datastore fails. */
  lemma UpdateRewritesMatchedRow(v: View, a: Action, reply: DbReply, t: TurnInput)
    requires a.kind.Update?
    ensures var s := Step(v, a, reply, t);
      if !Truthy(a.exercise) then s == v
      else
        && s.workout == v.workout
        && |s.exercises| == |v.exercises|
        && match FindMatch(v.exercises, a.exercise.value)
           case None => s == v
           case Some(k) =>
             if reply.DbError? then s == v
             else forall i :: 0 <= i < |v.exercises| ==>
               if v.exercises[i].id == v.exercises[k].id then
                 && s.exercises[i] == Patched(v.exercises[k], a)
                 && s.exercises[i].sets == (if a.sets.Some? then a.sets.value else v.exercises[k].sets)
                 && s.exercises[i].reps == (if a.reps.Some? then a.reps.value else v.exercises[k].reps)
                 && s.exercises[i].weight == (if a.weight.Some? then a.weight.value else v.exercises[k].weight)
                 && s.exercises[i].(sets := 0, reps := 0, weight := None) == v.exercises[k].(sets := 0, reps := 0, weight := None)
               else s.exercises[i] == v.exercises[i]
  {
  }

  predicate UniqueIds(xs: seq<Exercise>)
  {
    forall i, j :: 0 <= i < |xs| && 0 <= j < |xs| && xs[i].id == xs[j].id ==> i == j
  }

  /** Removing an id held by exactly one row cuts that row out and keeps the rest in order. */
  lemma {:induction false} RemoveUniqueId(xs: seq<Exercise>, k: nat)
    requires k < |xs| && UniqueIds(xs)
    ensures RemoveId(xs, xs[k].id) == xs[..k] + xs[k + 1..]
  {
    var id := xs[k].id;
    var n := |xs|;
    var init := xs[..n - 1];
    assert xs == init + [xs[n - 1]];
    if k == n - 1 {
      FilterAll(init, KeepsOtherId(id));
    } else {
      assert UniqueIds(init);
      RemoveUniqueId(init, k);
      assert init[k] == xs[k];
      assert xs[n - 1].id != id;
      assert xs[k + 1..] == init[k + 1..] + [xs[n - 1]];
    }
  }

  /** `delete` removes every row with the matched id whatever the datastore answers;
      when ids are unique that is exactly the matched row, the others keeping their
      order. It is a no-op when the name is missing or empty or nothing matches. */
  lemma DeleteRemovesMatchedRow(v: View, a: Action, reply: DbReply, t: TurnInput)
    requires a.kind.Delete?
    ensures var s := Step(v, a, reply, t);
      if !Truthy(a.exercise) then s == v
      else
        && s.workout == v.workout
        && match FindMatch(v.exercises, a.exercise.value)
           case None => s == v
           case Some(k) =>
             && (forall e :: e in s.exercises <==> e in v.exercises && e.id != v.exercises[k].id)
             && (UniqueIds(v.exercises) ==> s.exercises == v.exercises[..k] + v.exercises[k + 1..])
  {
    var s := Step(v, a, reply, t);
    if Truthy(a.exercise) {
      match FindMatch(v.exercises, a.exercise.value)
      case None =>
        assert s == v;
      case Some(k) =>
        var id := v.exercises[k].id;
        assert s == v.(exercises := RemoveId(v.exercises, id));
        FilterMembers(v.exercises, KeepsOtherId(id));
        if UniqueIds(v.exercises) {
          RemoveUniqueId(v.exercises, k);
        }
    }
  }

  /** A successful `note` sets the notes to the caller's original notes, a newline
      and the content (the content alone when there were none); anything else
      leaves the workout as it was. */
  lemma NoteSetsNotes(v: View, a: Action, reply: DbReply, t: TurnInput)
    requires a.kind.Note?
    ensures var s := Step(v, a, reply, t);
      && s.exercises == v.exercises
      && if Truthy(a.content) && reply.DbRow? then
           s.workout.notes == Some(if Truthy(t.workout.notes) then t.workout.notes.value + "\n" + a.content.value else a.content.value)
           && s.workout.(notes := None) == t.workout.(notes := None)
         else s.workout == v.workout
  {
  }

  /** An action of a kind the handler does not know changes nothing. */
  lemma UnrecognisedIsNoop(v: View, a: Action, reply: DbReply, t: TurnInput)
    requires a.kind.Unrecognised?
    ensures Step(v, a, reply, t) == v
  {
  }

  // ---------------------------------------------------------------------------
  // The loop as a whole

  function Shift(db: nat -> DbReply, n: nat): nat -> DbReply
  {
    (i: nat) => db(n + i)
  }

  /** Running two batches one after the other is running them as one batch: each
      action sees exactly the state the earlier ones left. */
  lemma {:induction false} RunSplit(v: View, as1: seq<Action>, as2: seq<Action>, db: nat -> DbReply, t: TurnInput)
    ensures Run(v, as1 + as2, db, t) == Run(Run(v, as1, db, t), as2, Shift(db, |as1|), t)
    decreases |as2|
  {
    if as2 == [] {
      assert as1 + as2 == as1;
    } else {
      var n := |as2|;
      RunSplit(v, as1, as2[..n - 1], db, t);
      assert (as1 + as2)[..|as1 + as2| - 1] == as1 + as2[..n - 1];
      assert (as1 + as2)[|as1 + as2| - 1] == as2[n - 1];
      assert Shift(db, |as1|)(n - 1) == db(|as1 + as2| - 1);
    }
  }

  /** The index of the last note whose update succeeded. */
  function LastNote(acts: seq<Action>, db: nat -> DbReply): (r: Option<nat>)
    ensures r.Some? ==> r.value < |acts| && NoteLands(acts[r.value], db(r.value))
    ensures r.Some? ==> forall j :: r.value < j < |acts| ==> !NoteLands(acts[j], db(j))
    ensures r.None? ==> forall j :: 0 <= j < |acts| ==> !NoteLands(acts[j], db(j))
    decreases |acts|
  {
    if acts == [] then None
    else if NoteLands(acts[|acts| - 1], db(|acts| - 1)) then Some(|acts| - 1)
    else LastNote(acts[..|acts| - 1], db)
  }

  /** Of several notes in one turn only the last successful one survives, and it is
      built on the caller's original notes. */
  lemma {:induction false} RunKeepsLastNote(v: View, acts: seq<Action>, db: nat -> DbReply, t: TurnInput)
    ensures Run(v, acts, db, t).workout ==
      match LastNote(acts, db)
      case None => v.workout
      case Some(i) => NotedWorkout(t, acts[i].content.value)
    decreases |acts|
  {
    if acts != [] {
      var n := |acts|;
      RunKeepsLastNote(v, acts[..n - 1], db, t);
      if !NoteLands(acts[n - 1], db(n - 1)) {
        var prev := Run(v, acts[..n - 1], db, t);
        assert Step(prev, acts[n - 1], db(n - 1), t).workout == prev.workout;
      }
    }
  }

  /** Every row's order is the caller's list length (a row added this turn) or the
      order of one of the caller's rows. */
  predicate OrdersFromInput(xs: seq<Exercise>, t: TurnInput)
  {
    forall e :: e in xs ==> e.order == |t.exercises| || exists e0 :: e0 in t.exercises && e0.order == e.order
  }

  /** One action keeps `OrdersFromInput`: it appends a row with the caller's list
      length as its order, or removes rows, or
      replaces rows by a patched copy of the matched row, which keeps that row's order. */
  lemma StepKeepsOrders(v: View, a: Action, reply: DbReply, t: TurnInput)
    requires OrdersFromInput(v.exercises, t)
    ensures OrdersFromInput(Step(v, a, reply, t).exercises, t)
  {
    if a.kind.Delete? && Truthy(a.exercise) {
      match FindMatch(v.exercises, a.exercise.value)
      case None =>
      case Some(k) => FilterMembers(v.exercises, KeepsOtherId(v.exercises[k].id));
    }
  }

  /** After a turn every row's order is the length of the list the caller sent or
      the order of one of the caller's rows: no action invents another order. */
  lemma {:induction false} RunKeepsOrders(acts: seq<Action>, db: nat -> DbReply, t: TurnInput)
    ensures OrdersFromInput(Run(Start(t), acts, db, t).exercises, t)
    decreases |acts|
  {
    if acts == [] {
    } else {
      var n := |acts|;
      RunKeepsOrders(acts[..n - 1], db, t);
      StepKeepsOrders(Run(Start(t), acts[..n - 1], db, t), acts[n - 1], db(n - 1), t);
    }
  }

  /** Every add of a turn that lands appends a row whose order is the length of
      the list the caller sent, however many actions came before it. */
  lemma AddInTurnTakesOriginalLength(acts: seq<Action>, db: nat -> DbReply, t: TurnInput, i: nat)
    requires i < |acts| && acts[i].kind.Add? && Truthy(acts[i].exercise) && db(i).DbRow?
    ensures var before := Run(Start(t), acts[..i], db, t).exercises;
      var after := Run(Start(t), acts[..i + 1], db, t).exercises;
      && |after| == |before| + 1
      && after[..|before|] == before
      && after[|before|].order == |t.exercises|
      && after[|before|].name == acts[i].exercise.value
  {
    assert acts[..i + 1][..i] == acts[..i];
    var prev := Run(Start(t), acts[..i], db, t);
    AddAppendsOneRow(prev, acts[i], db(i), t);
  }

  /** An update can hit the row an earlier add of the same turn created. */
  lemma UpdateSeesEarlierAdd(t: TurnInput, db: nat -> DbReply)
    requires t.exercises == []
    requires db(0) == DbRow("new-id", "now") && db(1) == DbRow("new-id", "now")
    ensures var acts := [
        Action(Add, Some("Squats"), Some(3), Some(5), None, None),
        Action(Update, Some("squat"), Some(5), None, None, None)];
      Run(Start(t), acts, db, t).exercises ==
        [Exercise("new-id", t.workoutId, "Squats", 5, 5, None, 0, "now", None)]
  {
    var add := Action(Add, Some("Squats"), Some(3), Some(5), None, None);
    var upd := Action(Update, Some("squat"), Some(5), None, None, None);
    var acts := [add, upd];
    var row := Exercise("new-id", t.workoutId, "Squats", 3, 5, None, 0, "now", None);
    assert acts[..1] == [add];
    assert [add][..0] == [];
    assert Run(Start(t), [], db, t) == Start(t);
    assert AddedRow(add, "new-id", "now", t) == row;
    assert Step(Start(t), add, db(0), t).exercises == [row];
    var v1 := Run(Start(t), [add], db, t);
    assert v1.exercises == [row];
    PrefixIgnoringCaseMatches(row, "squat");
    assert FindMatch(v1.exercises, "squat") == Some(0);
  }

  /** The loop of the handler: `updatedExercises` and `updatedWorkout` start as the
      caller's copies and each action is dispatched on its kind. */
  method ApplyActions(t: TurnInput, acts: seq<Action>, db: nat -> DbReply)
    returns (exercises: seq<Exercise>, workout: Workout)
    ensures View(exercises, workout) == Run(Start(t), acts, db, t)
  {
    exercises := t.exercises;
    workout := t.workout;
    for i := 0 to |acts|
      invariant View(exercises, workout) == Run(Start(t), acts[..i], db, t)
    {
      assert acts[..i + 1][..i] == acts[..i];
      var action := acts[i];
      var reply := db(i);
      if action.kind.Add? && Truthy(action.exercise) {
        if reply.DbRow? {
          exercises := exercises + [AddedRow(action, reply.id, reply.createdAt, t)];
        }
      } else if action.kind.Update? && Truthy(action.exercise) {
        var found := FindMatch(exercises, action.exercise.value);
        if found.Some? && reply.DbRow? {
          var matching := exercises[found.value];
          exercises := ReplaceId(exercises, matching.id, Patched(matching, action));
        }
      } else if action.kind.Delete? && Truthy(action.exercise) {
        var found := FindMatch(exercises, action.exercise.value);
        if found.Some? {
          exercises := RemoveId(exercises, exercises[found.value].id);
        }
      } else if action.kind.Note? && Truthy(action.content) {
        if reply.DbRow? {
          workout := NotedWorkout(t, action.content.value);
        }
      }
    }
    assert acts[..|acts|] == acts;
  }

  // ---------------------------------------------------------------------------
  // The prompt context

  /** JavaScript truthiness of a nullable number. */
  predicate WeightTruthy(w: Option<real>)
  {
    w.Some? && w.value != 0.0
  }

  /** One context line. `numeral` stands for JavaScript's rendering of a number. */
  function ExerciseLine(e: Exercise, numeral: real -> string): string
  {
    "- " + e.name + ": " + IntToString(e.sets) + " sets x " + IntToString(e.reps) + " reps"
      + (if WeightTruthy(e.weight) then " @ " + numeral(e.weight.value) + " lbs" else "")
  }

  function Lines(xs: seq<Exercise>, numeral: real -> string): (r: seq<string>)
    ensures |r| == |xs|
  {
    seq(|xs|, i requires 0 <= i < |xs| => ExerciseLine(xs[i], numeral))
  }

  const NoExercisesText := "No exercises in this workout yet."
  const ContextHeader := "Current exercises in this workout:\n"

  function ExerciseContext(xs: seq<Exercise>, numeral: real -> string): string
  {
    if |xs| > 0 then ContextHeader + Join(Lines(xs, numeral), "\n") else NoExercisesText
  }

  /** The context is the fixed sentence for an empty list; otherwise it opens with
      the header and contains the line of every exercise. */
  lemma ContextShape(xs: seq<Exercise>, numeral: real -> string)
    ensures xs == [] ==> ExerciseContext(xs, numeral) == "No exercises in this workout yet."
    ensures xs != [] ==> "Current exercises in this workout:\n" <= ExerciseContext(xs, numeral)
    ensures forall i :: 0 <= i < |xs| ==> Contains(ExerciseContext(xs, numeral), ExerciseLine(xs[i], numeral))
  {
    forall i | 0 <= i < |xs|
      ensures Contains(ExerciseContext(xs, numeral), ExerciseLine(xs[i], numeral))
    {
      ContextHasLine(xs, numeral, i);
    }
  }

  lemma ContextHasLine(xs: seq<Exercise>, numeral: real -> string, i: nat)
    requires i < |xs|
    ensures Contains(ExerciseContext(xs, numeral), ExerciseLine(xs[i], numeral))
  {
    var lines := Lines(xs, numeral);
    var body := Join(lines, "\n");
    JoinContainsParts(lines, "\n", i);
    ContainsIffOccurs(body, lines[i]);
    ContainsAfterPrefix(ContextHeader, body, lines[i]);
  }

  /** The context is the header followed by the lines in list order, one per
      exercise, separated by newlines: one exercise gives the header and its line,
      and each further exercise adds a newline and its line at the end. */
  lemma ContextGrowsByLine(xs: seq<Exercise>, e: Exercise, numeral: real -> string)
    ensures ExerciseContext([e], numeral) == ContextHeader + ExerciseLine(e, numeral)
    ensures xs != [] ==>
      ExerciseContext(xs + [e], numeral) == ExerciseContext(xs, numeral) + "\n" + ExerciseLine(e, numeral)
  {
    assert Lines([e], numeral) == [ExerciseLine(e, numeral)];
    if xs != [] {
      assert Lines(xs + [e], numeral) == Lines(xs, numeral) + [ExerciseLine(e, numeral)];
      JoinSnoc(Lines(xs, numeral), "\n", ExerciseLine(e, numeral));
    }
  }

  /** A line names the exercise and its counts, and ends in " lbs" exactly when the
      weight is truthy (otherwise in " reps"). */
  lemma LineShape(e: Exercise, numeral: real -> string)
    ensures "- " + e.name + ": " + IntToString(e.sets) + " sets x " <= ExerciseLine(e, numeral)
    ensures EndsWith(ExerciseLine(e, numeral), " lbs") <==> WeightTruthy(e.weight)
    ensures !WeightTruthy(e.weight) ==> EndsWith(ExerciseLine(e, numeral), " reps")
  {
    var line := ExerciseLine(e, numeral);
    if !WeightTruthy(e.weight) {
      assert line[|line| - 4..] == "reps"[..];
      assert line[|line| - 5..] == " reps";
    }
  }

  function Prompt(t: TurnInput, message: string, numeral: real -> string): string
  {
    ExerciseContext(t.exercises, numeral) + "\n\nUser says: \"" + message + "\""
  }

  // ---------------------------------------------------------------------------
  // Extracting the JSON object from the model's text

  function FirstIndex(s: string, c: char): (r: Option<nat>)
    ensures r.Some? ==> r.value < |s| && s[r.value] == c && forall k :: 0 <= k < r.value ==> s[k] != c
    ensures r.None? ==> forall k :: 0 <= k < |s| ==> s[k] != c
  {
    if s == [] then None
    else if s[0] == c then Some(0)
    else match FirstIndex(s[1..], c)
      case None => None
      case Some(k) => Some(k + 1)
  }

  function LastIndex(s: string, c: char): (r: Option<nat>)
    ensures r.Some? ==> r.value < |s| && s[r.value] == c && forall k :: r.value < k < |s| ==> s[k] != c
    ensures r.None? ==> forall k :: 0 <= k < |s| ==> s[k] != c
  {
    if s == [] then None
    else if s[|s| - 1] == c then Some(|s| - 1)
    else LastIndex(s[..|s| - 1], c)
  }

  /** `text.match(/\{[\s\S]*\}/)`: from the first `{` to the last `}` after it. There
      is a match exactly when some `{` comes before some `}`. */
  function JsonSpan(text: string): (r: Option<string>)
    ensures r.Some? <==> exists i, j :: 0 <= i < j < |text| && text[i] == '{' && text[j] == '}'
    ensures r.Some? ==> exists i, j ::
      && 0 <= i < j < |text| && text[i] == '{' && text[j] == '}'
      && r.value == text[i..j + 1]
      && (forall k :: 0 <= k < i ==> text[k] != '{')
      && (forall k :: j < k < |text| ==> text[k] != '}')
  {
    match (FirstIndex(text, '{'), LastIndex(text, '}'))
    case (Some(i), Some(j)) => if i < j then Some(text[i..j + 1]) else None
    case _ => None
  }

  // ---------------------------------------------------------------------------
  // The handler

  datatype ModelReply = ModelCallFailed | NoTextBlock | TextBlock(text: string)

  datatype ChatResponse =
    | ChatError(status: int, message: string)
    | ChatReply(response: string, exercises: seq<Exercise>, workout: Workout)

  const Apology := "I had trouble understanding that. Could you rephrase it?"
  const MissingKey := "AI service not configured. Please add ANTHROPIC_API_KEY."

  /** POST /api/chat. `sessionUser` is `session?.user?.id`, `apiKeyConfigured`
      whether the model's API key is set to a non-empty value, `llm` answers the prompt, `parse` is `JSON.parse` on the
      extracted span, `db(i)` is the datastore's answer to action `i`. */
  method Post(sessionUser: Option<string>, apiKeyConfigured: bool, t: TurnInput, message: string,
              numeral: real -> string, llm: string -> ModelReply,
              parse: string -> Option<AIResponse>, db: nat -> DbReply)
    returns (r: ChatResponse)
    ensures !Truthy(sessionUser) ==> r == ChatError(401, "Unauthorized")
    ensures Truthy(sessionUser) && !apiKeyConfigured ==> r == ChatError(500, MissingKey)
    ensures Truthy(sessionUser) && apiKeyConfigured ==>
      match llm(Prompt(t, message, numeral))
      case ModelCallFailed => r == ChatError(500, "Failed to process your message")
      case NoTextBlock => r == ChatError(500, "Invalid AI response")
      case TextBlock(text) =>
        match JsonSpan(text)
        case None => r == ChatReply(Apology, t.exercises, t.workout)
        case Some(span) =>
          match parse(span)
          case None => r == ChatReply(Apology, t.exercises, t.workout)
          case Some(ai) =>
            var v := Run(Start(t), ai.actions, db, t);
            r == ChatReply(ai.response, v.exercises, v.workout)
  {
    if !Truthy(sessionUser) {
      return ChatError(401, "Unauthorized");
    }
    if !apiKeyConfigured {
      return ChatError(500, MissingKey);
    }
    var reply := llm(Prompt(t, message, numeral));
    if reply.ModelCallFailed? {
      return ChatError(500, "Failed to process your message");
    }
    if reply.NoTextBlock? {
      return ChatError(500, "Invalid AI response");
    }
    var span := JsonSpan(reply.text);
    if span.None? {
      return ChatReply(Apology, t.exercises, t.workout);
    }
    var parsed := parse(span.value);
    if parsed.None? {
      return ChatReply(Apology, t.exercises, t.workout);
    }
    var exercises, workout := ApplyActions(t, parsed.value.actions, db);
    r := ChatReply(parsed.value.response, exercises, workout);
  }
}
