/** POST /api/workouts: create a workout for the signed-in user from a template and
    copy the template's exercises into it. The datastore is an oracle: the workout
    insert either fails or returns the new row's id and timestamp, and the outcome
    of the exercise insert is a flag. The model returns the response together with
    the writes the handler issues, in order. */
module Workouts {
  import opened Database
  import opened Templates

  /** One row of the exercise insert. */
  datatype ExerciseRow = ExerciseRow(workoutId: string, name: string, sets: int, reps: int, weight: Option<real>, order: int)

  datatype Write =
    | InsertWorkout(userId: string, name: string, tag: string, date: int)
    | InsertExercises(rows: seq<ExerciseRow>)

  datatype Response = Failure(status: int, error: string) | Created(workout: Workout)

  datatype Outcome = Outcome(response: Response, writes: seq<Write>)

  /** Index `i` holds the first template with this id. */
  predicate FirstWithId(table: seq<Template>, id: string, i: int)
  {
    0 <= i < |table| && table[i].id == id && forall j :: 0 <= j < i ==> table[j].id != id
  }

  /** `workoutTemplates.find((t) => t.id === templateId)`; a missing or non-string
      `templateId` is `None` and matches nothing. */
  function FindTemplate(table: seq<Template>, templateId: Option<string>): (r: Option<Template>)
    ensures r.Some? ==> templateId.Some? && r.value in table && r.value.id == templateId.value
    ensures r.Some? ==> exists i :: FirstWithId(table, templateId.value, i) && table[i] == r.value
    ensures r.None? <==> templateId.None? || forall t :: t in table ==> t.id != templateId.value
  {
    if templateId.None? || table == [] then None
    else if table[0].id == templateId.value then Some(table[0])
    else
      var rest := FindTemplate(table[1..], templateId);
      assert forall t :: t in table[1..] ==> t in table;
      assert rest.Some? ==> exists i :: FirstWithId(table, templateId.value, i) && table[i] == rest.value by {
        if rest.Some? {
          var i :| FirstWithId(table[1..], templateId.value, i) && table[1..][i] == rest.value;
          assert FirstWithId(table, templateId.value, i + 1);
        }
      }
      rest
  }

  /** With distinct ids, looking up any template's id finds that template. */
  lemma FindTemplateUnique(table: seq<Template>, k: nat)
    requires DistinctIds(table) && k < |table|
    ensures FindTemplate(table, Some(table[k].id)) == Some(table[k])
  {
    var r := FindTemplate(table, Some(table[k].id));
    var i :| FirstWithId(table, table[k].id, i) && table[i] == r.value;
    assert !(k < i);
  }

  /** Each of the four shipped templates is found by its own id. */
  lemma ShippedTemplatesFound(k: nat)
    requires k < |WorkoutTemplates|
    ensures FindTemplate(WorkoutTemplates, Some(WorkoutTemplates[k].id)) == Some(WorkoutTemplates[k])
  {
    TemplateIdsDistinct();
    FindTemplateUnique(WorkoutTemplates, k);
  }

  /** The `map((exercise, index) => ...)` that builds the insert payload. */
  function ExerciseRows(workoutId: string, exercises: seq<TemplateExercise>): (rows: seq<ExerciseRow>)
  {
    seq(|exercises|, i requires 0 <= i < |exercises| =>
      ExerciseRow(workoutId, exercises[i].name, exercises[i].sets, exercises[i].reps, exercises[i].weight, i))
  }

  function AsTemplateExercise(row: ExerciseRow): TemplateExercise
  {
    TemplateExercise(row.name, row.sets, row.reps, row.weight)
  }

  /** One row per template exercise, in template order, with `order` its index and
      the workout's id; reading the rows back gives the template's list. */
  lemma ExerciseRowsFaithful(workoutId: string, exercises: seq<TemplateExercise>)
    ensures var rows := ExerciseRows(workoutId, exercises);
      && |rows| == |exercises|
      && (forall i :: 0 <= i < |rows| ==> rows[i].order == i && rows[i].workoutId == workoutId)
      && seq(|rows|, i requires 0 <= i < |rows| => AsTemplateExercise(rows[i])) == exercises
  {
    var rows := ExerciseRows(workoutId, exercises);
    assert forall i :: 0 <= i < |rows| ==> AsTemplateExercise(rows[i]) == exercises[i];
  }

  /** The POST handler. `sessionUser` is `session?.user?.id`, `templateId` the body's
      field, `today` the server's date, `workoutReply` the answer to the workout
      insert and `exercisesInserted` whether the exercise insert succeeded. */
  function Post(sessionUser: Option<string>, templateId: Option<string>, today: int,
                workoutReply: DbReply, exercisesInserted: bool): (o: Outcome)
  {
    if !Truthy(sessionUser) then Outcome(Failure(401, "Unauthorized"), [])
    else
      var found := FindTemplate(WorkoutTemplates, templateId);
      if found.None? then Outcome(Failure(400, "Invalid template"), [])
      else
        var template, user := found.value, sessionUser.value;
        var insert := InsertWorkout(user, template.name, template.tag, today);
        if workoutReply.DbError? then Outcome(Failure(500, "Failed to create workout"), [insert])
        else
          var workout := Workout(workoutReply.id, user, template.name, template.tag, today, None, workoutReply.createdAt);
          var exerciseWrites := if |template.exercises| > 0
            then [InsertExercises(ExerciseRows(workoutReply.id, template.exercises))] else [];
          Outcome(Created(workout), [insert] + exerciseWrites)
  }

  /** Without a signed-in user the answer is 401 and nothing is written. */
  lemma UnauthenticatedWritesNothing(sessionUser: Option<string>, templateId: Option<string>, today: int,
                                     reply: DbReply, inserted: bool)
    requires !Truthy(sessionUser)
    ensures Post(sessionUser, templateId, today, reply, inserted) == Outcome(Failure(401, "Unauthorized"), [])
  {
  }

  /** An id that names no template gives 400 and writes nothing. */
  lemma UnknownTemplateWritesNothing(sessionUser: Option<string>, templateId: Option<string>, today: int,
                                     reply: DbReply, inserted: bool)
    requires Truthy(sessionUser)
    requires templateId.None? || forall t :: t in WorkoutTemplates ==> t.id != templateId.value
    ensures Post(sessionUser, templateId, today, reply, inserted) == Outcome(Failure(400, "Invalid template"), [])
  {
  }

  /** For a signed-in user and a known template the first write is the workout
      insert, carrying the template's name and tag, today's date and the user id;
      when the datastore accepts it the response is that new workout. */
  lemma CreatedWorkoutFields(sessionUser: Option<string>, k: nat, today: int, reply: DbReply, inserted: bool)
    requires Truthy(sessionUser) && k < |WorkoutTemplates|
    ensures var t := WorkoutTemplates[k];
      var o := Post(sessionUser, Some(t.id), today, reply, inserted);
      && |o.writes| >= 1
      && o.writes[0] == InsertWorkout(sessionUser.value, t.name, t.tag, today)
      && (reply.DbError? <==> o.response == Failure(500, "Failed to create workout"))
      && (reply.DbError? ==> |o.writes| == 1)
      && (reply.DbRow? ==>
            && o.response.Created?
            && o.response.workout.userId == sessionUser.value
            && o.response.workout.name == t.name && o.response.workout.tag == t.tag
            && o.response.workout.date == today && o.response.workout.id == reply.id)
  {
    ShippedTemplatesFound(k);
  }

  /** After the workout is created, a template with exercises adds exactly one
      exercise insert holding the template's rows, and the empty template adds none. */
  lemma ExerciseInsertOnlyWhenNonEmpty(sessionUser: Option<string>, k: nat, today: int, id: string,
                                       createdAt: string, inserted: bool)
    requires Truthy(sessionUser) && k < |WorkoutTemplates|
    ensures var t := WorkoutTemplates[k];
      var o := Post(sessionUser, Some(t.id), today, DbRow(id, createdAt), inserted);
      && (t.exercises == [] ==> |o.writes| == 1)
      && (t.exercises != [] ==> |o.writes| == 2 && o.writes[1] == InsertExercises(ExerciseRows(id, t.exercises)))
  {
    var t := WorkoutTemplates[k];
    ShippedTemplatesFound(k);
    var o := Post(sessionUser, Some(t.id), today, DbRow(id, createdAt), inserted);
    var insert := InsertWorkout(sessionUser.value, t.name, t.tag, today);
    assert o.writes == [insert] + (if |t.exercises| > 0 then [InsertExercises(ExerciseRows(id, t.exercises))] else []);
  }

  /** Choosing "custom" creates the workout and writes no exercises. */
  lemma CustomTemplateInsertsNoExercises(user: string, today: int, id: string, createdAt: string, inserted: bool)
    requires user != ""
    ensures var o := Post(Some(user), Some("custom"), today, DbRow(id, createdAt), inserted);
      o.response.Created? && o.response.workout.name == "Custom" && |o.writes| == 1
  {
    ShippedTemplatesFound(3);
  }

  /** A failed exercise insert does not change the response or the writes issued. */
  lemma ExerciseFailureIgnored(sessionUser: Option<string>, templateId: Option<string>, today: int, reply: DbReply)
    ensures Post(sessionUser, templateId, today, reply, false) == Post(sessionUser, templateId, today, reply, true)
  {
  }
}
