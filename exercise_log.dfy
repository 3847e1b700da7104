/** The exercise-log query of `GET /api/users/:_id/logs`: project the
    user's exercises to log entries, keep those inside the requested date
    window, cut the result at `limit`, and report it with its length. */
module ExerciseLog {
  import opened Options
  import opened JsSemantics
  import opened Sequences

  /** A document identifier. */
  type ObjectId = string

  datatype User = User(id: ObjectId, username: string)

  /** A stored exercise; `date` is the string written at creation time. */
  datatype Exercise = Exercise(id: ObjectId, duration: real, description: string, date: string, owner: ObjectId)

  /** One element of the `log` array of the response. */
  datatype LogEntry = LogEntry(description: string, duration: real, date: string)

  /** The query string: `from`, `to` and `limit`, each possibly absent. */
  datatype LogQuery = LogQuery(from: Field, to: Field, limit: Field)

  /** The JSON body `{username, count, _id, log}`. */
  datatype LogResponse = LogResponse(username: string, count: nat, id: ObjectId, log: seq<LogEntry>)

  function ToEntry(e: Exercise): LogEntry
  {
    LogEntry(e.description, e.duration, e.date)
  }

  /** `user.exercises.map(...)`: one entry per exercise, in the same order,
      carrying that exercise's description, duration and date. */
  function Project(exercises: seq<Exercise>): (log: seq<LogEntry>)
    ensures |log| == |exercises|
    ensures forall i :: 0 <= i < |log| ==>
      && log[i].description == exercises[i].description
      && log[i].duration == exercises[i].duration
      && log[i].date == exercises[i].date
  {
    if exercises == [] then [] else [ToEntry(exercises[0])] + Project(exercises[1..])
  }

  /** Projecting a store that grew by some exercises appends their entries. */
  lemma ProjectAppend(a: seq<Exercise>, b: seq<Exercise>)
    ensures Project(a + b) == Project(a) + Project(b)
  {
  }

  /** The filter chosen by which of `from` and `to` are present; each bound
      is held as the time value of `new Date(bound)`. */
  datatype DateWindow = Between(from: TimeValue, to: TimeValue) | Since(from: TimeValue) | Until(to: TimeValue)

  /** The filter callback of each branch, applied to `new Date(item.date)`. */
  predicate Admits(w: DateWindow, t: TimeValue)
  {
    match w
    case Between(f, u) => AtOrAfter(t, f) && AtOrBefore(t, u)
    case Since(f) => AtOrAfter(t, f)
    case Until(u) => AtOrBefore(t, u)
  }

  /** The branch selection of the handler; None is the branch that keeps the
      projected log as it is. */
  function WindowOf(q: LogQuery, parse: DateParser): (w: Option<DateWindow>)
    ensures w.None? <==> !Truthy(q.from) && !Truthy(q.to)
    ensures w.Some? && w.value.Between? ==> Truthy(q.from) && Truthy(q.to)
    ensures w.Some? && w.value.Since? ==> Truthy(q.from) && !Truthy(q.to)
    ensures w.Some? && w.value.Until? ==> !Truthy(q.from) && Truthy(q.to)
  {
    if Truthy(q.from) && Truthy(q.to) then Some(Between(parse(q.from.value), parse(q.to.value)))
    else if Truthy(q.from) then Some(Since(parse(q.from.value)))
    else if Truthy(q.to) then Some(Until(parse(q.to.value)))
    else None
  }

  /** `log.filter(...)` with the callback of window `w`: keeps exactly the
      admitted entries, in their original order. */
  function KeepWithin(log: seq<LogEntry>, w: DateWindow, parse: DateParser): (r: seq<LogEntry>)
    ensures IsSubsequence(r, log)
    ensures forall x :: x in r <==> x in log && Admits(w, parse(x.date))
  {
    if log == [] then []
    else if Admits(w, parse(log[0].date)) then [log[0]] + KeepWithin(log[1..], w, parse)
    else KeepWithin(log[1..], w, parse)
  }

  /** Filtering keeps every admitted entry as often as it occurs and drops
      every other one: together with IsSubsequence this fixes the result. */
  lemma {:induction false} KeepWithinCount(log: seq<LogEntry>, w: DateWindow, parse: DateParser, x: LogEntry)
    ensures multiset(KeepWithin(log, w, parse))[x] == if Admits(w, parse(x.date)) then multiset(log)[x] else 0
    decreases |log|
  {
    if log != [] {
      KeepWithinCount(log[1..], w, parse, x);
      assert log == [log[0]] + log[1..];
    }
  }

  /** Filtering distributes over concatenation. */
  lemma {:induction false} KeepWithinAppend(a: seq<LogEntry>, b: seq<LogEntry>, w: DateWindow, parse: DateParser)
    ensures KeepWithin(a + b, w, parse) == KeepWithin(a, w, parse) + KeepWithin(b, w, parse)
    decreases |a|
  {
    if a == [] {
      assert a + b == b;
    } else {
      assert (a + b)[0] == a[0];
      assert (a + b)[1..] == a[1..] + b;
      KeepWithinAppend(a[1..], b, w, parse);
    }
  }

  /** The two-bound filter is the `to` filter applied after the `from`
      filter. */
  lemma {:induction false} BetweenIsSinceThenUntil(log: seq<LogEntry>, f: TimeValue, u: TimeValue, parse: DateParser)
    ensures KeepWithin(log, Between(f, u), parse) == KeepWithin(KeepWithin(log, Since(f), parse), Until(u), parse)
    decreases |log|
  {
    if log != [] {
      BetweenIsSinceThenUntil(log[1..], f, u, parse);
    }
  }

  /** The date-range step of the handler, case by case. */
  function FilterLog(log: seq<LogEntry>, q: LogQuery, parse: DateParser): (r: seq<LogEntry>)
    ensures IsSubsequence(r, log)
    ensures Truthy(q.from) && Truthy(q.to) ==> forall x :: x in r <==>
      x in log && AtOrAfter(parse(x.date), parse(q.from.value)) && AtOrBefore(parse(x.date), parse(q.to.value))
    ensures Truthy(q.from) && !Truthy(q.to) ==> forall x :: x in r <==>
      x in log && AtOrAfter(parse(x.date), parse(q.from.value))
    ensures !Truthy(q.from) && Truthy(q.to) ==> forall x :: x in r <==>
      x in log && AtOrBefore(parse(x.date), parse(q.to.value))
    ensures !Truthy(q.from) && !Truthy(q.to) ==> r == log
  {
    match WindowOf(q, parse)
    case None => SubsequenceReflexive(log); log
    case Some(w) => KeepWithin(log, w, parse)
  }

  /** No entry appears in the filtered log more often than in the projected
      log, and an entry the window admits appears exactly as often. */
  lemma FilterLogCount(log: seq<LogEntry>, q: LogQuery, parse: DateParser, x: LogEntry)
    ensures multiset(FilterLog(log, q, parse))[x] <= multiset(log)[x]
    ensures (WindowOf(q, parse).None? || Admits(WindowOf(q, parse).value, parse(x.date))) ==>
      multiset(FilterLog(log, q, parse))[x] == multiset(log)[x]
  {
    SubsequenceMultiset(FilterLog(log, q, parse), log);
    if WindowOf(q, parse).Some? {
      KeepWithinCount(log, WindowOf(q, parse).value, parse, x);
    }
  }

  /** A window that admits no time value keeps no entry. */
  lemma {:induction false} KeepWithinNothing(log: seq<LogEntry>, w: DateWindow, parse: DateParser)
    requires forall t :: !Admits(w, t)
    ensures KeepWithin(log, w, parse) == []
    decreases |log|
  {
    if log != [] {
      KeepWithinNothing(log[1..], w, parse);
    }
  }

  /** A present bound that does not parse makes every comparison false, so
      the filtered log is empty. */
  lemma InvalidBoundKeepsNothing(log: seq<LogEntry>, q: LogQuery, parse: DateParser)
    requires (Truthy(q.from) && parse(q.from.value).None?) || (Truthy(q.to) && parse(q.to.value).None?)
    ensures FilterLog(log, q, parse) == []
  {
    KeepWithinNothing(log, WindowOf(q, parse).value, parse);
  }

  /** Filtering a log that grew by some entries filters those separately. */
  lemma FilterLogAppend(a: seq<LogEntry>, b: seq<LogEntry>, q: LogQuery, parse: DateParser)
    ensures FilterLog(a + b, q, parse) == FilterLog(a, q, parse) + FilterLog(b, q, parse)
  {
    if WindowOf(q, parse).Some? {
      KeepWithinAppend(a, b, WindowOf(q, parse).value, parse);
    }
  }

  /** The `limit` step: `filteredLog.slice(0, limit)` when `limit` is
      present, the log unchanged otherwise. */
  function LimitLog(log: seq<LogEntry>, limit: Field, toInteger: IntegerConversion): (r: seq<LogEntry>)
    ensures r <= log
    ensures !Truthy(limit) ==> r == log
    ensures Truthy(limit) && toInteger(limit.value).Finite? && toInteger(limit.value).n >= 0 ==>
      r == log[..Min(toInteger(limit.value).n, |log|)] && |r| <= toInteger(limit.value).n
    ensures Truthy(limit) && toInteger(limit.value).Finite? && toInteger(limit.value).n < 0 ==>
      r == log[..Max(|log| + toInteger(limit.value).n, 0)]
  {
    if Truthy(limit) then SliceFromStart(log, toInteger(limit.value)) else log
  }

  /** The whole handler after the user and their exercises are loaded. */
  function QueryLog(user: User, exercises: seq<Exercise>, q: LogQuery, parse: DateParser, toInteger: IntegerConversion): (r: LogResponse)
    ensures r.username == user.username && r.id == user.id
    ensures r.count == |r.log|
    ensures IsSubsequence(r.log, Project(exercises))
    ensures r.log <= FilterLog(Project(exercises), q, parse)
    ensures !Truthy(q.limit) ==> r.log == FilterLog(Project(exercises), q, parse)
    ensures Truthy(q.limit) && toInteger(q.limit.value).Finite? && toInteger(q.limit.value).n >= 0 ==>
      r.count <= toInteger(q.limit.value).n
    ensures Truthy(q.limit) && toInteger(q.limit.value).Finite? && toInteger(q.limit.value).n >= 0 ==>
      r.count == Min(toInteger(q.limit.value).n, |FilterLog(Project(exercises), q, parse)|)
  {
    var log := Project(exercises);
    var filtered := FilterLog(log, q, parse);
    var limited := LimitLog(filtered, q.limit, toInteger);
    PrefixOfSubsequence(filtered, log, |limited|);
    assert filtered[..|limited|] == limited;
    LogResponse(user.username, |limited|, user.id, limited)
  }

  /** Every entry of the response lies inside the requested window. */
  lemma QueryLogWithinWindow(user: User, exercises: seq<Exercise>, q: LogQuery, parse: DateParser, toInteger: IntegerConversion)
    requires WindowOf(q, parse).Some?
    ensures forall x :: x in QueryLog(user, exercises, q, parse, toInteger).log ==>
      Admits(WindowOf(q, parse).value, parse(x.date))
  {
  }

  /** With exercises dated D1 < D2 < D3 and `from` = D2, the log is exactly
      the last two exercises, in their original order. */
  lemma FromScenario(user: User, e1: Exercise, e2: Exercise, e3: Exercise, d1: int, d2: int, d3: int,
                     from: string, parse: DateParser, toInteger: IntegerConversion)
    requires d1 < d2 < d3
    requires parse(e1.date) == Some(d1) && parse(e2.date) == Some(d2) && parse(e3.date) == Some(d3)
    requires parse(from) == Some(d2) && from != ""
    ensures QueryLog(user, [e1, e2, e3], LogQuery(Some(from), None, None), parse, toInteger).log == [ToEntry(e2), ToEntry(e3)]
  {
    var log := Project([e1, e2, e3]);
    assert log == [ToEntry(e1), ToEntry(e2), ToEntry(e3)];
    var w := Since(Some(d2));
    assert log[1..] == [ToEntry(e2), ToEntry(e3)];
    assert log[1..][1..] == [ToEntry(e3)];
    assert KeepWithin([ToEntry(e3)], w, parse) == [ToEntry(e3)];
    assert KeepWithin(log[1..], w, parse) == [ToEntry(e2), ToEntry(e3)];
    assert KeepWithin(log, w, parse) == [ToEntry(e2), ToEntry(e3)];
  }

  /** With two exercises and `limit=1`, the response holds one entry, the
      first, and reports a count of one. */
  lemma LimitOneScenario(user: User, e1: Exercise, e2: Exercise, parse: DateParser, toInteger: IntegerConversion)
    requires toInteger("1") == Finite(1)
    ensures QueryLog(user, [e1, e2], LogQuery(None, None, Some("1")), parse, toInteger).count == 1
    ensures QueryLog(user, [e1, e2], LogQuery(None, None, Some("1")), parse, toInteger).log == [ToEntry(e1)]
  {
  }
}
