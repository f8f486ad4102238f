/** Row shapes of the two tables the handlers read and write, and the answer the
    datastore gives to a write that asks for the written row back. */
module Database {

  datatype Option<T> = None | Some(value: T)

  /** A row of `workouts`. `date` is a calendar day, counted as a day number. */
  datatype Workout = Workout(
    id: string,
    userId: string,
    name: string,
    tag: string,
    date: int,
    notes: Option<string>,
    createdAt: string)

  /** A row of `exercises`. `weight` is the nullable load (or magnitude for cardio
      rows); `unit` is the optional unit string the metrics code reads. */
  datatype Exercise = Exercise(
    id: string,
    workoutId: string,
    name: string,
    sets: int,
    reps: int,
    weight: Option<real>,
    order: int,
    createdAt: string,
    unit: Option<string>)

  /** The outcome of one insert/update that ends in `.select().single()`: an error,
      or the row back with the identifier and timestamp the datastore assigned. */
  datatype DbReply = DbError | DbRow(id: string, createdAt: string)

  /** JavaScript truthiness of an optional string: present and non-empty. */
  predicate Truthy(s: Option<string>)
  {
    s.Some? && s.value != ""
  }
}
