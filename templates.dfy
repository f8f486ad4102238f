/** The fixed table of workout templates the "new workout" request chooses from,
    and the list of tags a workout may carry. */
module Templates {
  import opened Database

  datatype TemplateExercise = TemplateExercise(name: string, sets: int, reps: int, weight: Option<real>)

  datatype Template = Template(id: string, name: string, tag: string, exercises: seq<TemplateExercise>)

  function Lift(name: string, sets: int, reps: int): TemplateExercise
  {
    TemplateExercise(name, sets, reps, None)
  }

  const WorkoutTemplates: seq<Template> := [
    Template("back-day", "Back Day", "Lifting", [
      Lift("Pull ups", 3, 8),
      Lift("Face pulls", 3, 12),
      Lift("Dumbbell curls", 3, 10),
      Lift("Rows", 3, 8)]),
    Template("chest-day", "Chest Day", "Lifting", [
      Lift("Bench press", 3, 8),
      Lift("Incline dumbbell press", 3, 10),
      Lift("Cable flyes", 3, 12),
      Lift("Dips", 3, 10)]),
    Template("leg-day", "Leg Day", "Lifting", [
      Lift("Squats", 4, 8),
      Lift("Romanian deadlifts", 3, 10),
      Lift("Leg press", 3, 12),
      Lift("Calf raises", 4, 15)]),
    Template("custom", "Custom", "Lifting", [])
  ]

  const AvailableTags: seq<string> := ["Lifting", "Cardio", "HIIT", "Stretching", "Sports"]

  predicate DistinctIds(table: seq<Template>)
  {
    forall i, j :: 0 <= i < j < |table| ==> table[i].id != table[j].id
  }

  /** No two templates share an id, so a lookup by id is unambiguous. */
  lemma TemplateIdsDistinct()
    ensures |WorkoutTemplates| == 4
    ensures DistinctIds(WorkoutTemplates)
  {
    assert WorkoutTemplates[0].id[0] == 'b' && WorkoutTemplates[1].id[0] == 'c';
    assert WorkoutTemplates[2].id[0] == 'l' && WorkoutTemplates[3].id[1] == 'u';
    assert WorkoutTemplates[1].id[1] == 'h';
  }

  /** Only the custom template starts empty; the other three list four exercises each. */
  lemma TemplateSizes()
    ensures forall t :: t in WorkoutTemplates ==> (t.exercises == [] <==> t.id == "custom")
    ensures forall t :: t in WorkoutTemplates && t.id != "custom" ==> |t.exercises| == 4
  {
  }

  /** Every template exercise starts without a weight and with positive sets and reps. */
  lemma TemplateExercisesUnweighted()
    ensures forall t, e :: t in WorkoutTemplates && e in t.exercises ==>
      e.weight.None? && e.sets > 0 && e.reps > 0
  {
  }

  /** Every template's tag is one of the available tags. */
  lemma TemplateTagsAvailable()
    ensures forall t :: t in WorkoutTemplates ==> t.tag in AvailableTags && t.tag == "Lifting"
  {
  }
}
