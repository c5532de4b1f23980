/** The activity timeline of the dashboard: what `populateTimeline` builds,
    an entry for joining followed by the first three catalog events in
    catalog order. */
module Timeline {
  import opened Wrappers
  import opened JsMath
  import opened JsArray
  import opened TimeMath
  import opened EventAggregator

  /** One timeline entry: the status or date line, the title and the line
      under it. */
  datatype Entry = Entry(status: string, title: string, subtitle: string)

  const JoinTitle := "Joined ACM Chapter"
  const JoinText := "Welcome to our student community!"

  /** The entry for joining, dated by `formatDay`, the page's rendering of
      the join instant's calendar day. */
  function JoinEntry(joined: int, formatDay: int -> string): Entry {
    Entry(formatDay(joined), JoinTitle, JoinText)
  }

  /** The entry for a catalog event: its status `d` days ahead of `now`,
      where the event day starts at `dayStart(e.date)`, then its title and
      location. */
  function EventEntry(e: Event, now: int, dayStart: string -> int): Entry {
    Entry(RelativeDayLabel(DaysBetween(now, dayStart(e.date))), e.title, e.location)
  }

  /** `populateTimeline` as a value. The account joined at `joinedAt` (at
      `now` when missing). The join entry comes first whatever the catalog
      holds; then come the first three catalog events, one entry each, in
      catalog order and not re-sorted by date. */
  method BuildTimeline(
    joinedAt: Option<int>, events: seq<Event>, now: int,
    formatDay: int -> string, dayStart: string -> int)
    returns (entries: seq<Entry>)
    ensures |entries| == 1 + Min(3, |events|)
    ensures entries[0] == JoinEntry(joinedAt.GetOr(now), formatDay)
    ensures entries[0].title == JoinTitle && entries[0].subtitle == JoinText
    ensures forall i :: 0 <= i < |entries| - 1 ==>
      entries[i + 1] == EventEntry(events[i], now, dayStart)
  {
    entries := [JoinEntry(joinedAt.GetOr(now), formatDay)];
    var recent := Slice(events, 0, 3);
    SliceClamped(events, 0, 3);
    var k := 0;
    while k < |recent|
      invariant 0 <= k <= |recent|
      invariant |entries| == 1 + k
      invariant entries[0] == JoinEntry(joinedAt.GetOr(now), formatDay)
      invariant forall i :: 0 <= i < k ==> entries[i + 1] == EventEntry(events[i], now, dayStart)
    {
      entries := entries + [EventEntry(recent[k], now, dayStart)];
      k := k + 1;
    }
  }
}
