/** The profile header of the dashboard: what `populateProfile` and
    `getInitials` derive from the signed-in account, the current instant and
    the local hour, as plain values instead of text written into the page. */
module AccountView {
  import opened Wrappers
  import opened JsMath
  import opened JsString
  import opened JsNumber
  import opened TimeMath

  /** A stored account record. Any field may be missing; `joinedAt` is the
      join instant in milliseconds, already read from its stored text. */
  datatype Account = Account(
    email: Option<string>,
    displayName: Option<string>,
    role: Option<string>,
    year: Option<string>,
    joinedAt: Option<int>)

  /** JavaScript truthiness of an optional string: present and not empty. */
  predicate Truthy(o: Option<string>) {
    o.Some? && o.value != ""
  }

  /** `a || b` on optional strings: the first when it is truthy, else the
      second. */
  function Or(a: Option<string>, b: Option<string>): (r: Option<string>)
    ensures Truthy(r) <==> Truthy(a) || Truthy(b)
    ensures Truthy(a) ==> r == a
    ensures !Truthy(a) ==> r == b
  {
    if Truthy(a) then a else b
  }

  /** The name the header is built from, `account.displayName ||
      account.email`. */
  function NameSource(a: Account): Option<string> {
    Or(a.displayName, a.email)
  }

  /** `getInitials` exactly as written: "AC" for a missing or empty name;
      otherwise the first character of the first and of the second field of
      `name.trim().split(/\s+/)`, upper-cased. On a name of white space only
      the first field is empty, its first character is `undefined`, and the
      concatenation yields the text "undefined". */
  function InitialsAsWritten(name: Option<string>): (r: string)
    ensures name.None? || name.value == "" ==> r == "AC"
  {
    if name.None? || name.value == "" then "AC"
    else Upper(FieldInitials(Split(Trim(name.value))))
  }

  /** `parts[0][0] + (parts[1]?.[0] || '')`, where a missing first
      character reads as the text "undefined". */
  function FieldInitials(parts: seq<string>): string
    requires |parts| >= 1
  {
    var head := if |parts[0]| > 0 then [parts[0][0]] else "undefined";
    var next := if |parts| > 1 && |parts[1]| > 0 then [parts[1][0]] else "";
    head + next
  }

  /** A name of white space only gets the avatar code "UNDEFINED". */
  lemma InitialsAsWrittenOnBlank(name: Option<string>)
    requires name.Some? && name.value != "" && Blank(name.value)
    ensures InitialsAsWritten(name) == "UNDEFINED"
  {
    assert Trim(name.value) == "";
    assert Split("") == [""];
    var u := Upper("undefined");
    assert u[0] == 'U' && u[1] == 'N' && u[2] == 'D' && u[3] == 'E' && u[4] == 'F';
    assert u[5] == 'I' && u[6] == 'N' && u[7] == 'E' && u[8] == 'D';
  }

  /** The avatar code, with blank names treated like missing ones: "AC"
      when there is no word, otherwise the upper-cased first letters of the
      first word and, when there is one, of the second. */
  function Initials(name: Option<string>): (r: string)
    ensures name.None? || Blank(name.value) ==> r == "AC"
    ensures name.Some? && !Blank(name.value) ==>
      var w := Words(name.value);
      r == [UpperChar(w[0][0])] + (if |w| > 1 then [UpperChar(w[1][0])] else [])
    ensures 1 <= |r| <= 2
  {
    if name.None? || Trim(name.value) == "" then "AC"
    else
      InitialsOfWords(name.value);
      InitialsAsWritten(name)
  }

  /** On a name with a word, the source's fields are the words, so the
      avatar code comes from the first letters of the first two words. */
  lemma InitialsOfWords(s: string)
    requires !Blank(s)
    ensures var w := Words(s);
      InitialsAsWritten(Some(s)) ==
        [UpperChar(w[0][0])] + (if |w| > 1 then [UpperChar(w[1][0])] else [])
  {
    var w := Words(s);
    SplitTrimIsWords(s);
    assert InitialsAsWritten(Some(s)) == Upper(FieldInitials(w));
    UpperFieldInitials(w);
  }

  /** The first characters of two non-empty fields, upper-cased. */
  lemma UpperFieldInitials(w: seq<string>)
    requires |w| >= 1 && |w[0]| > 0 && (|w| > 1 ==> |w[1]| > 0)
    ensures Upper(FieldInitials(w)) ==
      [UpperChar(w[0][0])] + (if |w| > 1 then [UpperChar(w[1][0])] else [])
  {
    var f := FieldInitials(w);
    if |w| > 1 {
      assert f == [w[0][0], w[1][0]];
    } else {
      assert f == [w[0][0]];
    }
  }

  /** The correction changes nothing but the blank, non-empty names. */
  lemma InitialsCorrectionIsNarrow(name: Option<string>)
    ensures Initials(name) != InitialsAsWritten(name) <==>
      name.Some? && name.value != "" && Blank(name.value)
  {
    if name.Some? && name.value != "" && Blank(name.value) {
      InitialsAsWrittenOnBlank(name);
    }
  }

  /** The greeting for a local hour of the day. The initial "Welcome back"
      of the source is overwritten on every path and never shown. */
  function Greeting(hour: int): (g: string)
    ensures g == "Good morning" <==> hour < 12
    ensures g == "Good afternoon" <==> 12 <= hour < 17
    ensures g == "Good evening" <==> 17 <= hour
    ensures g != "Welcome back"
  {
    if hour < 12 then "Good morning"
    else if hour < 17 then "Good afternoon"
    else "Good evening"
  }

  /** The membership counters of the stats card. */
  datatype MemberStats = MemberStats(days: int, streak: int, points: int)

  /** Membership counters at instant `now` for an account that joined at
      `joinedAt` (at `now` when missing). `days` counts the join day as day
      1: it is the `d` whose window [d - 1 days, d days) holds the time since
      joining. A join instant in the future gives zero or fewer days; the
      counters are not floored at 1. The streak is the day count capped at
      7 and the points are ten per day. */
  function Membership(joinedAt: Option<int>, now: int): (m: MemberStats)
    ensures var joined := joinedAt.GetOr(now);
      (m.days - 1) * DayMs <= now - joined < m.days * DayMs
    ensures joinedAt.GetOr(now) <= now ==> m.days >= 1 && m.streak >= 1
    ensures joinedAt.GetOr(now) == now ==> m == MemberStats(1, 1, 10)
    ensures m.streak <= 7 && m.streak <= m.days && (m.streak == 7 || m.streak == m.days)
    ensures m.points == 10 * m.days
  {
    var days := DaysBetween(joinedAt.GetOr(now), now) + 1;
    MemberStats(days, Min(days, 7), days * 10)
  }

  /** Joining one millisecond in the future gives zero days, streak and
      points. */
  lemma MembershipNotFloored(now: int)
    ensures Membership(Some(now + 1), now) == MemberStats(0, 0, 0)
  {
  }

  /** The member-since text, `daysSinceMember + ' days'`: the count in
      decimal, which reads back as the count, then " days" (also for one
      day). */
  function DaysText(days: int): (t: string)
    ensures |t| > 5 && t[|t| - 5..] == " days"
    ensures ParseInt(t[..|t| - 5]) == Some(days)
  {
    var t := IntToString(days) + " days";
    IntToStringRoundTrip(days);
    assert t[..|t| - 5] == IntToString(days);
    assert t[|t| - 5..] == " days";
    t
  }

  /** `DaysText`'s contract leaves no choice of text: any text that ends
      in " days" and whose count reads back as `days` is `DaysText(days)`,
      so the count is written exactly as JavaScript writes it. */
  lemma DaysTextDetermined(days: int, t: string)
    requires |t| > 5 && t[|t| - 5..] == " days"
    requires ParseInt(t[..|t| - 5]) == Some(days)
    ensures t == DaysText(days)
  {
    var u := DaysText(days);
    ParseIntExact(t[..|t| - 5]);
    ParseIntExact(u[..|u| - 5]);
    assert t == t[..|t| - 5] + t[|t| - 5..];
    assert u == u[..|u| - 5] + u[|u| - 5..];
  }

  /** The rest of the welcome line after the greeting. */
  const WelcomeTail := "! Explore upcoming events, connect with peers, and grow your skills with ACM."

  /** Everything the profile header shows. */
  datatype ProfileView = ProfileView(
    initials: string,
    heading: string,
    email: string,
    role: string,
    firstName: string,
    welcome: string,
    eventsCount: int,
    stats: MemberStats,
    memberSince: string)

  /** `populateProfile` as a value: the header for account `a` at instant
      `now` and local hour `hour`. The first name is the name before its
      first ordinary space; the role falls back from role to year to
      "Member" and so is never empty; the e-mail line is empty exactly when
      the account has no e-mail; the events counter starts at 0. */
  function Profile(a: Account, now: int, hour: int): (v: ProfileView)
    ensures v.initials == Initials(NameSource(a)) && 1 <= |v.initials| <= 2
    ensures !(NameSource(a).Some? && NameSource(a).value != "" && Blank(NameSource(a).value)) ==>
      v.initials == InitialsAsWritten(NameSource(a))
    ensures v.firstName == FirstField(NameSource(a).GetOr(""))
    ensures v.firstName <= NameSource(a).GetOr("") && ' ' !in v.firstName
    ensures v.heading == "Welcome, " + v.firstName + "!"
    ensures v.email == "" <==> !Truthy(a.email)
    ensures Truthy(a.email) ==> v.email == a.email.value
    ensures v.role != ""
    ensures Truthy(a.role) ==> v.role == a.role.value
    ensures !Truthy(a.role) ==> v.role == (if Truthy(a.year) then a.year.value else "Member")
    ensures v.welcome == Greeting(hour) + WelcomeTail
    ensures v.eventsCount == 0
    ensures v.stats == Membership(a.joinedAt, now)
    ensures v.memberSince == DaysText(v.stats.days)
    ensures a.joinedAt.None? ==> v.stats == MemberStats(1, 1, 10)
  {
    var firstName := FirstField(NameSource(a).GetOr(""));
    var stats := Membership(a.joinedAt, now);
    var role := if Truthy(a.role) then a.role.value
      else if Truthy(a.year) then a.year.value
      else "Member";
    var memberSince := DaysText(stats.days);
    InitialsCorrectionIsNarrow(NameSource(a));
    ProfileView(
      Initials(NameSource(a)),
      "Welcome, " + firstName + "!",
      a.email.GetOr(""),
      role,
      firstName,
      Greeting(hour) + WelcomeTail,
      0,
      stats,
      memberSince)
  }
}
