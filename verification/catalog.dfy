/** The fixed five-event catalog the dashboard shows, and what the
    aggregation makes of it. */
module Catalog {
  import opened Wrappers
  import opened EventAggregator

  const MockEvents: seq<Event> := [
    Event(1, "AI/ML Workshop", "2025-12-15", "14:00", "Tech Lab 101", "workshop",
      "Learn fundamentals of machine learning", 45),
    Event(2, "Winter Hackathon", "2025-12-20", "09:00", "Main Campus", "hackathon",
      "48-hour coding competition", 120),
    Event(3, "Industry Panel Discussion", "2026-01-10", "16:00", "Auditorium A", "seminar",
      "Meet professionals from top tech companies", 200),
    Event(4, "Web Dev Bootcamp", "2026-01-15", "15:00", "Online", "workshop",
      "Master modern web development", 60),
    Event(5, "Monthly Meetup", "2026-01-12", "18:00", "Student Center", "meetup",
      "Casual networking and social gathering", 30)
  ]

  /** On the catalog: two registered, three upcoming, none ongoing, the
      Winter Hackathon in both of the first two sections, five events in
      all, 40 percent attendance and one achievement. */
  lemma MockCatalogCounters()
    ensures var b := Bucket(MockEvents);
      && |b.registered| == 2 && |b.upcoming| == 3 && |b.ongoing| == 0
      && MockEvents[1] in b.registered && MockEvents[1] in b.upcoming
      && MockEvents[1].title == "Winter Hackathon"
    ensures Summarize(MockEvents) == Summary(5, Some(40), 1)
  {
    var s := Summarize(MockEvents);
    assert 5 * (2 * 40 - 1) <= 200 * 2 < 5 * (2 * 40 + 1);
    assert s.attendance.Some?;
    var p := s.attendance.value;
    assert 5 * (2 * p - 1) <= 400 < 5 * (2 * p + 1);
  }
}
