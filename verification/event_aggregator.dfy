/** The event sections of the dashboard: what `populateEvents` derives from
    the event catalog, namely the registered, upcoming and ongoing buckets
    and the summary counters of the stats card. */
module EventAggregator {
  import opened Wrappers
  import opened JsMath
  import opened JsArray

  /** A catalog event. `date` is a calendar day written YYYY-MM-DD and
      `time` a clock time written HH:MM. */
  datatype Event = Event(
    id: int,
    title: string,
    date: string,
    time: string,
    location: string,
    category: string,
    description: string,
    attendees: nat)

  /** The three event sections. */
  datatype Buckets = Buckets(registered: seq<Event>, upcoming: seq<Event>, ongoing: seq<Event>)

  /** The buckets are chosen by position: "registered" is `slice(0, 2)`,
      "upcoming" is `slice(1, 4)` and "ongoing" is always empty. Both slices
      clamp to the catalog, and the second catalog event lands in both of
      the first two buckets. */
  function Bucket(events: seq<Event>): (b: Buckets)
    ensures b.registered == events[..Min(2, |events|)]
    ensures b.upcoming == events[Min(1, |events|)..Min(4, |events|)]
    ensures b.ongoing == []
    ensures |events| >= 2 ==> events[1] in b.registered && events[1] in b.upcoming
  {
    SliceClamped(events, 0, 2);
    SliceClamped(events, 1, 4);
    Buckets(Slice(events, 0, 2), Slice(events, 1, 4), [])
  }

  /** The summary counters. `attendance` is `None` where the source's
      percentage is NaN. */
  datatype Summary = Summary(total: nat, attendance: Option<nat>, achievements: nat)

  /** The stats card: the catalog size; `Math.round` of the registered
      share in percent, which is NaN on an empty catalog because the source
      divides 0 by 0; and one achievement per two registered events, rounded
      down. Since at most two events count as registered, the percentage is
      the rounding of 100 * min(2, n) / n and achievements are 1 from two
      events on. */
  function Summarize(events: seq<Event>): (s: Summary)
    ensures s.total == |events|
    ensures s.attendance.None? <==> events == []
    ensures s.attendance.Some? ==>
      var n := |events|;
      var r := Min(2, n);
      var p := s.attendance.value;
      n * (2 * p - 1) <= 200 * r < n * (2 * p + 1) && p <= 100
    ensures s.achievements == (if |events| >= 2 then 1 else 0)
  {
    var registered := Bucket(events).registered;
    var n := |events|;
    var attendance := if n == 0 then None else Some(RoundPercent(|registered|, n));
    Summary(n, attendance, |registered| / 2)
  }

  /** A catalog of one or two events is fully registered: 100 percent. */
  lemma SmallCatalogFullAttendance(events: seq<Event>)
    requires 1 <= |events| <= 2
    ensures Summarize(events).attendance == Some(100)
  {
    var n := |events|;
    RoundPercentUnique(n, n, 100);
  }
}
