/** The record and the response built by `POST /api/users/:_id/exercises`,
    and how a created exercise shows up in the owner's log afterwards. */
module ExerciseCreation {
  import opened Options
  import opened JsSemantics
  import opened Sequences
  import opened ExerciseLog

  /** The form body, with `duration` already cast to a number. */
  datatype ExerciseForm = ExerciseForm(duration: real, description: string, date: Field)

  /** The JSON body `{username, duration, description, date, _id}`. */
  datatype ExerciseResponse = ExerciseResponse(username: string, duration: real, description: string, date: string, id: ObjectId)

  /** What the handler produces: the saved exercise and the response. */
  datatype Created = Created(stored: Exercise, response: ExerciseResponse)

  /** The date written into a new exercise: the supplied date, re-rendered
      by `toDateString`, when it is truthy; otherwise the current date
      rendered the same way. */
  function StoredDate(date: Field, now: int, parse: DateParser, format: DateFormatter): (d: string)
    ensures !Truthy(date) ==> d == format(now)
    ensures Truthy(date) && parse(date.value).Some? ==> d == format(parse(date.value).value)
    ensures Truthy(date) && parse(date.value).None? ==> d == InvalidDateString
  {
    if Truthy(date) then ToDateString(parse(date.value), format) else ToDateString(Some(now), format)
  }

  /** The handler between the user lookup and the reply. `newId` is the
      identifier the store gives the new exercise and `now` the current
      time value. */
  function CreateExercise(ownerId: ObjectId, username: string, form: ExerciseForm, newId: ObjectId,
                          now: int, parse: DateParser, format: DateFormatter): (c: Created)
    ensures c.stored.id == newId && c.stored.owner == ownerId
    ensures c.stored.duration == form.duration && c.stored.description == form.description
    ensures c.stored.date == StoredDate(form.date, now, parse, format)
    ensures c.response.username == username
    ensures c.response.duration == c.stored.duration
    ensures c.response.description == c.stored.description
    ensures c.response.date == c.stored.date
    ensures c.response.id == ownerId
    ensures newId != ownerId ==> c.response.id != c.stored.id
  {
    var stored := Exercise(newId, form.duration, form.description, StoredDate(form.date, now, parse, format), ownerId);
    Created(stored, ExerciseResponse(username, stored.duration, stored.description, stored.date, stored.owner))
  }

  /** After an exercise is created for a user, the unfiltered log of that
      user gains exactly one entry, at the end, carrying what the creation
      response reported, and the two responses name the same `_id`. */
  lemma CreatedExerciseEndsLog(user: User, exercises: seq<Exercise>, form: ExerciseForm, newId: ObjectId,
                               now: int, parse: DateParser, format: DateFormatter, toInteger: IntegerConversion)
    ensures
      var c := CreateExercise(user.id, user.username, form, newId, now, parse, format);
      var q := LogQuery(None, None, None);
      var before := QueryLog(user, exercises, q, parse, toInteger);
      var after := QueryLog(user, exercises + [c.stored], q, parse, toInteger);
      && after.log == before.log + [LogEntry(c.response.description, c.response.duration, c.response.date)]
      && after.count == before.count + 1
      && after.id == c.response.id
      && after.username == c.response.username
  {
  }

  /** An exercise created with a date that parses, queried with that same
      date as both `from` and `to`, is in the log, provided the stored
      date string parses back to the same time value. */
  lemma DatedExerciseFoundOnItsDay(user: User, exercises: seq<Exercise>, form: ExerciseForm, newId: ObjectId,
                                   now: int, parse: DateParser, format: DateFormatter, toInteger: IntegerConversion)
    requires Truthy(form.date) && parse(form.date.value).Some?
    requires parse(format(parse(form.date.value).value)) == parse(form.date.value)
    ensures
      var c := CreateExercise(user.id, user.username, form, newId, now, parse, format);
      var q := LogQuery(form.date, form.date, None);
      ToEntry(c.stored) in QueryLog(user, exercises + [c.stored], q, parse, toInteger).log
  {
    var c := CreateExercise(user.id, user.username, form, newId, now, parse, format);
    var q := LogQuery(form.date, form.date, None);
    ProjectAppend(exercises, [c.stored]);
    FilterLogAppend(Project(exercises), Project([c.stored]), q, parse);
    assert Project([c.stored]) == [ToEntry(c.stored)];
    assert ToEntry(c.stored) in FilterLog(Project([c.stored]), q, parse);
  }

  /** An exercise created with a truthy date that does not parse is stored
      as "Invalid Date"; since that string does not parse either, no query
      with a `from` or `to` bound ever shows it. */
  lemma UnparseableDateHiddenFromBoundedLogs(exercises: seq<Exercise>, ownerId: ObjectId, username: string,
                                             form: ExerciseForm, newId: ObjectId, now: int,
                                             parse: DateParser, format: DateFormatter, q: LogQuery)
    requires Truthy(form.date) && parse(form.date.value).None?
    requires parse(InvalidDateString).None?
    requires Truthy(q.from) || Truthy(q.to)
    ensures
      var c := CreateExercise(ownerId, username, form, newId, now, parse, format);
      FilterLog(Project(exercises + [c.stored]), q, parse) == FilterLog(Project(exercises), q, parse)
  {
    var c := CreateExercise(ownerId, username, form, newId, now, parse, format);
    ProjectAppend(exercises, [c.stored]);
    FilterLogAppend(Project(exercises), Project([c.stored]), q, parse);
    assert Project([c.stored]) == [ToEntry(c.stored)];
    assert c.stored.date == InvalidDateString;
    assert !Admits(WindowOf(q, parse).value, parse(c.stored.date));
    assert [ToEntry(c.stored)][1..] == [];
  }
}
