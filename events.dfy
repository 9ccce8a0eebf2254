/** Event kinds and the sparse event map every graph object carries
    (gprof2dot.py:119-202). */
module Events {
  import opened Wrappers

  /** The closed set of event kinds. `Samples`, `Samples2` and
      `TotalSamples` share the display name "Samples" but are distinct keys. */
  datatype Event =
    | Calls
    | Samples
    | Samples2
    | TotalSamples
    | Time
    | TimeRatio
    | TotalTime
    | TotalTimeRatio

  /** How two values of one event kind combine: `add`, or `fail`, which
      asserts False in the source. */
  datatype Aggregator = Add | Fail

  function Name(e: Event): string
  {
    match e
    case Calls => "Calls"
    case Samples => "Samples"
    case Samples2 => "Samples"
    case TotalSamples => "Samples"
    case Time => "Time"
    case TimeRatio => "Time ratio"
    case TotalTime => "Total time"
    case TotalTimeRatio => "Total time ratio"
  }

  /** Every kind's null value is zero (an integer 0 for the counts, 0.0 for
      the times; both are the real 0.0 here). */
  function Null(e: Event): real
  {
    0.0
  }

  function AggregatorOf(e: Event): Aggregator
  {
    match e
    case TotalTime => Fail
    case TotalTimeRatio => Fail
    case _ => Add
  }

  /** `Event.aggregate`: `None` stands for the assertion failure of `fail`. */
  function Aggregate(e: Event, a: real, b: real): Option<real>
  {
    match AggregatorOf(e)
    case Add => Some(a + b)
    case Fail => None
  }

  /** Only the two total-time kinds refuse to aggregate; every other kind
      sums, with its null value as the unit. */
  lemma AggregateFailsExactlyForTotals(e: Event, a: real, b: real)
    ensures Aggregate(e, a, b).None? <==> e == TotalTime || e == TotalTimeRatio
    ensures Aggregate(e, a, b).Some? ==> Aggregate(e, a, b).value == Aggregate(e, b, a).value
    ensures Aggregate(e, a, b).Some? ==> Aggregate(e, Null(e), b) == Some(b)
  {
  }

  /** `Object.events`: the kinds defined on one object and their values. */
  type EventMap = map<Event, real>

  /** The `UndefinedEvent` exception. */
  datatype UndefinedEvent = UndefinedEvent(event: Event)

  /** `Object.__getitem__`. */
  function Get(m: EventMap, e: Event): Result<real, UndefinedEvent>
  {
    if e in m then Ok(m[e]) else Err(UndefinedEvent(e))
  }

  /** `Object.__setitem__`: storing `None` deletes the key. */
  function Put(m: EventMap, e: Event, v: Option<real>): EventMap
  {
    match v
    case Some(x) => m[e := x]
    case None => m - {e}
  }

  /** Reading back what was stored: a value is returned as stored, a `None`
      makes the kind undefined; every other kind keeps its value. */
  lemma GetAfterPut(m: EventMap, e: Event, v: Option<real>, other: Event)
    ensures Get(Put(m, e, v), e) == (if v.Some? then Ok(v.value) else Err(UndefinedEvent(e)))
    ensures other != e ==> Get(Put(m, e, v), other) == Get(m, other)
  {
  }
}
