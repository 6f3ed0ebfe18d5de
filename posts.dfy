/** The stored `mywin_posts` documents as the backfills read them: loosely typed
    field values, Python truthiness, the `(x or "").strip()` and `int(x)`
    conversions, and the UTC normalisation of timestamps. */
module Posts {
  import opened Optional
  import opened PyText

  /** A `datetime`: a wall-clock reading in seconds and, for an aware datetime, its
      offset from UTC in seconds (`None` for a naive one). */
  datatype DateTime = DateTime(wall: int, utcOffset: Option<int>) {

    predicate IsAware() {
      utcOffset.Some?
    }

    predicate IsUtc() {
      utcOffset == Some(0)
    }

    /** The instant the value denotes, in UTC seconds; a naive value is read as UTC,
        which is how the store hands back the datetimes it keeps. */
    function Instant(): int {
      wall - utcOffset.GetOr(0)
    }
  }

  /** A field value as `post.get(...)` returns it; a missing field reads as `Null`. */
  datatype Value = Null | Bool(b: bool) | Int(i: int) | Str(s: string) | Date(dt: DateTime)

  /** Python truthiness (`bool(v)`); a `datetime` is always true. */
  predicate Truthy(v: Value) {
    match v
    case Null => false
    case Bool(b) => b
    case Int(i) => i != 0
    case Str(s) => s != []
    case Date(_) => true
  }

  /** One stored submission. */
  datatype Post = Post(id: Value, fileId: Value, userId: Value, tag: Value, gameName: Value, ts: Value)

  /** `(v or "").strip()`; `None` when `.strip()` raises, i.e. `v` is a truthy
      value that is not a string. */
  function StrippedOrEmpty(v: Value): (r: Option<string>)
    ensures r.None? <==> Truthy(v) && !v.Str?
    ensures v.Str? ==> r == Some(Strip(v.s))
    ensures !Truthy(v) ==> r == Some([])
  {
    if !Truthy(v) then Some([])
    else if v.Str? then Some(Strip(v.s))
    else None
  }

  /** `int(v)`; `None` when it raises (`TypeError` for `None` and `datetime`,
      `ValueError` for a string that is not a decimal integer). */
  function IntOf(v: Value): (r: Option<int>)
    ensures v.Int? ==> r == Some(v.i)
    ensures v.Str? ==> r == ParseInt(v.s)
    ensures v.Null? || v.Date? ==> r.None?
  {
    match v
    case Null => None
    case Bool(b) => Some(if b then 1 else 0)
    case Int(i) => Some(i)
    case Str(s) => ParseInt(s)
    case Date(_) => None
  }

  /** `to_utc_aware(v)` (also `_to_utc_aware`): `None` unless `v` is a datetime;
      otherwise the same instant as an aware UTC datetime, a naive value being
      tagged as UTC without shifting its wall clock. */
  function ToUtcAware(v: Value): (r: Option<DateTime>)
    ensures r.Some? <==> v.Date?
    ensures r.Some? ==> r.value.IsUtc() && r.value.Instant() == v.dt.Instant()
    ensures r.Some? && !v.dt.IsAware() ==> r.value.wall == v.dt.wall
  {
    match v
    case Date(dt) =>
      if !dt.IsAware() then Some(DateTime(dt.wall, Some(0)))
      else Some(DateTime(dt.wall - dt.utcOffset.value, Some(0)))
    case _ => None
  }

  /** An aware UTC result is fully determined by the instant it keeps: there is
      exactly one value `ToUtcAware` may return for a given datetime. */
  lemma UtcValueUnique(a: DateTime, b: DateTime)
    requires a.IsUtc() && b.IsUtc() && a.Instant() == b.Instant()
    ensures a == b
  {
  }
}
