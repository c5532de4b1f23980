/** Day arithmetic on instants, as the dashboard does it: instants are
    integer milliseconds, as `Date` values subtract to, and day counts are
    floored quotients by the length of a day. */
module TimeMath {
  import opened Wrappers
  import opened JsNumber

  /** Milliseconds in a day, `1000 * 60 * 60 * 24`. */
  const DayMs: int := 1000 * 60 * 60 * 24

  /** `Math.floor((to - from) / DayMs)`: whole days from `from` to `to`,
      rounded toward minus infinity, so negative when `to` is earlier. The
      count is the `d` whose day-long window [d days, d + 1 days) holds the
      difference. */
  function DaysBetween(from: int, to: int): (d: int)
    ensures d * DayMs <= to - from < (d + 1) * DayMs
  {
    (to - from) / DayMs
  }

  /** Only one count fits the window, so `DaysBetween` is the floor. */
  lemma DaysBetweenUnique(from: int, to: int, d: int)
    requires d * DayMs <= to - from < (d + 1) * DayMs
    ensures DaysBetween(from, to) == d
  {
  }

  /** The count is negative exactly when `to` is before `from`, zero exactly
      when `to` lies within the first day after `from`, and never decreases
      as `to` moves later. */
  lemma DaysBetweenShape(from: int, to: int, later: int)
    requires to <= later
    ensures DaysBetween(from, to) < 0 <==> to < from
    ensures DaysBetween(from, to) == 0 <==> from <= to < from + DayMs
    ensures DaysBetween(from, to) <= DaysBetween(from, later)
  {
  }

  /** The status text of a timeline event `d` days away: "Completed" before
      today, "Today", "Tomorrow", and "In d days" further on. Each of the
      three fixed words is produced for exactly its days, and for every
      later day the count can be read back from the text. */
  function RelativeDayLabel(d: int): (status: string)
    ensures status == "Completed" <==> d < 0
    ensures status == "Today" <==> d == 0
    ensures status == "Tomorrow" <==> d == 1
    ensures DaysInStatus(status) == (if d >= 2 then Some(d) else None)
  {
    if d < 0 then "Completed"
    else if d == 0 then "Today"
    else if d == 1 then "Tomorrow"
    else
      var status := "In " + IntToString(d) + " days";
      InDaysStatus(d, status);
      status
  }

  /** The "In N days" text is determined by its count: any text whose
      count reads back as `d`, for `d` of two or more, is the status of
      `d`, so the count is written exactly as JavaScript writes it. */
  lemma StatusDetermined(d: int, t: string)
    requires d >= 2 && DaysInStatus(t) == Some(d)
    ensures t == RelativeDayLabel(d)
  {
    var u := RelativeDayLabel(d);
    ParseIntExact(t[3..|t| - 5]);
    ParseIntExact(u[3..|u| - 5]);
    assert t == t[..3] + t[3..|t| - 5] + t[|t| - 5..];
    assert u == u[..3] + u[3..|u| - 5] + u[|u| - 5..];
  }

  /** The count in an "In N days" status; none for any other text. */
  function DaysInStatus(status: string): Option<int> {
    if |status| > 8 && status[..3] == "In " && status[|status| - 5..] == " days" then
      ParseInt(status[3..|status| - 5])
    else
      None
  }

  /** The facts behind the last case of `RelativeDayLabel`. */
  lemma InDaysStatus(d: int, status: string)
    requires d >= 2 && status == "In " + IntToString(d) + " days"
    ensures status[0] == 'I' && |status| > 8
    ensures DaysInStatus(status) == Some(d)
  {
    var digits := IntToString(d);
    assert status[..3] == "In ";
    assert status[|status| - 5..] == " days";
    assert status[3..|status| - 5] == digits;
    IntToStringRoundTrip(d);
  }
}
