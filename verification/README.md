# ACM chapter student dashboard: the derivations behind the page

This project models the logic of the student dashboard script `js/profile.js` in
Dafny. It covers what that script derives from the signed-in account and the
event catalog before writing it into the page. The writes themselves are left out.
Each derivation becomes a pure function, or a method with a loop, that returns a
plain value:

- the avatar initials (`getInitials`);
- the first name, the greeting for the hour, the role fallback and the
  membership counters (days, streak, points) of `populateProfile`;
- the registered / upcoming / ongoing sections and the summary counters
  (total, attendance percentage, achievements) of `populateEvents`;
- the activity timeline of `populateTimeline`, with its "Completed" / "Today" /
  "Tomorrow" / "In N days" status texts;
- the case-insensitive, first-match account search of `getCurrentAccount`.

The JavaScript built-ins these derivations rely on are modelled with their
JavaScript meaning, each in its own module:

- `trim`, `split(/\s+/)`, `split(' ')`, `toUpperCase` and `toLowerCase` (`JsString`);
- `Math.min` and `Math.round` of a percentage (`JsMath`); `Max` there only
  resolves the negative indices of `slice`;
- `Array.prototype.slice` (`JsArray`);
- integer-to-text conversion (`JsNumber`).

Instants are integer milliseconds. The current instant `now` and the local hour
are parameters.

Where the code and a natural reading of the page differ, the model follows the
code, with one exception: the avatar initials of a name made only of white space
(see "## Findings"). In the other cases:

- Membership days are not floored at 1. A join instant in the future gives zero
  or fewer days.
- An empty catalog gives the attendance NaN (0 / 0), not 0. The model writes
  that as `None`.
- The "registered" section (`slice(0, 2)`) and the "upcoming" section
  (`slice(1, 4)`) overlap, and the model keeps the overlap.
- The timeline takes the first three events in catalog order. It does not sort
  them by date.

Modules: `Wrappers` (Option), `JsMath`, `JsString`, `JsNumber`, `JsArray`,
`TimeMath`, `AccountView`, `EventAggregator`, `Timeline`, `Session`, `Catalog`
(the five-event sample catalog as a constant).

## Model

| member | source | states |
|---|---|---|
| `JsMath.Min` | js/profile.js:113 | `Math.min` is the smaller of its two arguments: at most each, and equal to one of them |
| `JsMath.RoundPercent` | js/profile.js:139 | `Math.round` of the percentage part/whole is the integer p with p - 1/2 <= 100·part/whole < p + 1/2 (halves round up), and it is at most 100 when part <= whole |
| `JsMath.RoundPercentUnique` | js/profile.js:139 | only one integer meets that rounding condition, so the percentage is determined by it |
| `JsString.LeadingSpace` | js/profile.js:121 | the leading run that `trim` removes is all white space and is followed by a non-space character or by the end |
| `JsString.TrailingSpace` | js/profile.js:121 | the trailing run that `trim` removes is all white space and is preceded by a non-space character or by the start |
| `JsString.TrimStart` | js/profile.js:121 | what `trimStart` leaves is empty or starts with a non-space character |
| `JsString.TrimEnd` | js/profile.js:121 | what `trimEnd` leaves is empty or ends with a non-space character |
| `JsString.Trim` | js/profile.js:121 | `trim` leaves nothing exactly when the name is blank; otherwise what it leaves starts and ends with a non-space character |
| `JsString.TrimStartIsSuffix` | js/profile.js:121 | what `trimStart` leaves is a suffix of the string, and what it removed is white space |
| `JsString.TrimEndIsPrefix` | js/profile.js:121 | what `trimEnd` leaves is a prefix of the string, and what it removed is white space |
| `JsString.TrimRemovesOnlyEnds` | js/profile.js:121 | what `trim` leaves is a stretch of the string with only white space before and after it; with `Trim`'s contract this fixes the result |
| `JsString.Split` | js/profile.js:121 | `split(/\s+/)` always yields at least one field, and no field contains white space |
| `JsString.Words` | js/profile.js:121 | reference tokenisation: every word is non-empty and free of white space, and there are no words exactly when the string is blank |
| `JsString.WordsKeepEveryLetter` | js/profile.js:121 | the words laid end to end are exactly the non-space characters of the string, in order |
| `JsString.SplitTrimIsWords` | js/profile.js:121 | for a non-blank name, `name.trim().split(/\s+/)` is exactly the list of its words |
| `JsString.FirstField` | js/profile.js:92 | `split(' ')[0]` is the longest prefix without an ordinary space: the whole string, or the part ending just before a space |
| `JsString.Upper` | js/profile.js:122 | `toUpperCase` keeps the length and leaves no lower-case ASCII letter |
| `JsString.Lower` | js/profile.js:14 | `toLowerCase` keeps the length and leaves no upper-case ASCII letter |
| `JsString.LowerEqualIff` | js/profile.js:14 | two strings have equal lower-case forms exactly when they have the same length and each pair of characters is equal or an upper-case ASCII letter and its own lower-case letter |
| `JsString.LowerOfUpper` | js/profile.js:14 | upper-casing first does not change the lower-case form |
| `JsNumber.NatToString` | js/profile.js:115 | a count is written as at least one decimal digit, with no leading zero |
| `JsNumber.NatToStringRoundTrip` | js/profile.js:115 | the decimal digits written for a count n read back as n |
| `JsNumber.IntToStringRoundTrip` | js/profile.js:219 | the decimal text of every integer, sign included, reads back as that integer |
| `JsNumber.IntToStringInjective` | js/profile.js:219 | different day counts give different texts |
| `JsNumber.DigitsOfValue` | js/profile.js:115 | digits without a leading zero are the decimal text of the number they denote |
| `JsNumber.ParseIntExact` | js/profile.js:115 | a text that reads as an integer (no leading zero, no "-0") is that integer's decimal text, so the number determines the text |
| `JsArray.Slice` | js/profile.js:130-131 | `slice` yields the elements between the two clamped (and, when negative, end-relative) indices, in order, and nothing when the end is not after the start |
| `JsArray.SliceClamped` | js/profile.js:130-131 | with non-negative bounds, `slice(a, b)` is the subsequence between a and b, each clamped to the length |
| `TimeMath.DaysBetween` | js/profile.js:214 | the floored day count d is the one whose window [d days, d + 1 days) holds the difference of the instants |
| `TimeMath.DaysBetweenUnique` | js/profile.js:111 | any d whose day window holds the difference is the day count |
| `TimeMath.DaysBetweenShape` | js/profile.js:214 | the day count is negative exactly when the event is earlier than now, is zero exactly within the first day, and never decreases as the event moves later |
| `TimeMath.RelativeDayLabel` | js/profile.js:215-219 | the status is "Completed" exactly for d < 0, "Today" exactly for d = 0 and "Tomorrow" exactly for d = 1; from d >= 2 on it is the text "In N days", and d can be read back from it |
| `TimeMath.StatusDetermined` | js/profile.js:219 | for d >= 2, any text "In N days" whose N reads back as d is the status of d: N is written as JavaScript writes it, without a leading zero |
| `AccountView.Or` | js/profile.js:92-93 | JavaScript's or-operator on optional strings: the first value when it is non-empty, otherwise the second; the result is non-empty when either one is |
| `AccountView.InitialsAsWritten` | js/profile.js:119-123 | `getInitials` as written returns "AC" for a missing or empty name |
| `AccountView.InitialsAsWrittenOnBlank` | js/profile.js:120-122 | as written, a non-empty name of white space only gets the avatar code "UNDEFINED" |
| `AccountView.InitialsOfWords` | js/profile.js:121-122 | for a non-blank name the code is the upper-cased first letter of the first word, followed by that of the second word when there is one |
| `AccountView.Initials` | js/profile.js:119-123 | avatar code: "AC" for a missing or blank name; otherwise the upper-cased first letters of the first one or two words; always 1 or 2 characters |
| `AccountView.InitialsCorrectionIsNarrow` | js/profile.js:120-122 | the corrected code differs from the as-written one exactly on non-empty blank names |
| `AccountView.Greeting` | js/profile.js:102-106 | "Good morning" exactly when hour < 12, "Good afternoon" exactly when 12 <= hour < 17, "Good evening" exactly when hour >= 17, never "Welcome back" |
| `AccountView.Membership` | js/profile.js:110-115 | days is the d whose window [d - 1 days, d days) holds now - joined; it is at least 1 when the join is not in the future; joining at `now`, or no join date, gives 1 day, streak 1 and 10 points; the streak is the day count capped at 7; points are 10 per day |
| `AccountView.MembershipNotFloored` | js/profile.js:111 | a join instant 1 ms in the future gives 0 days, streak 0 and 0 points |
| `AccountView.DaysText` | js/profile.js:115 | the member-since text ends in " days" (also for one day), and what comes before reads back as the day count, written without a leading zero or "-0" |
| `AccountView.DaysTextDetermined` | js/profile.js:115 | any text that ends in " days" and whose count reads back as the day count is the member-since text: the count is written as JavaScript writes it |
| `AccountView.Profile` | js/profile.js:91-116 | header: the initials are the (corrected) avatar code of displayName-or-email, equal to `getInitials`' result on every name except a non-empty blank one; the first name is `split(' ')[0]` of displayName-or-email; the welcome heading embeds it; the e-mail line is the e-mail, and empty exactly without one; the role is the role, else the year, else "Member"; the welcome line is the greeting followed by the fixed tail; the counters are the membership counters of the join instant; the member-since text is the day count followed by " days"; no join date gives 1 day, streak 1 and 10 points |
| `EventAggregator.Bucket` | js/profile.js:130-132 | registered is the catalog prefix of length min(2, n); upcoming is the events at positions [min(1, n), min(4, n)); ongoing is empty; from two events on, the second event is in both registered and upcoming |
| `EventAggregator.Summarize` | js/profile.js:135-140 | total is the catalog size; attendance is NaN exactly for the empty catalog, otherwise the round-half-up of 100·min(2, n)/n and at most 100; achievements are 1 from two events on, else 0 |
| `EventAggregator.SmallCatalogFullAttendance` | js/profile.js:139 | a catalog of one or two events gives 100 percent attendance |
| `Timeline.BuildTimeline` | js/profile.js:193-234 | exactly 1 + min(3, n) entries; the first is the join entry ("Joined ACM Chapter", "Welcome to our student community!") whatever the catalog; entry i + 1 carries event i's status, title and location, in catalog order |
| `Session.EmailMatchesIff` | js/profile.js:14 | an account matches the session e-mail exactly when its e-mail (empty when missing) has the same length and agrees character by character up to ASCII case |
| `Session.FindAccount` | js/profile.js:14 | `find` returns nothing exactly when no account's e-mail equals the key ignoring ASCII case; otherwise it returns the first such account |
| `Session.CurrentAccount` | js/profile.js:9-18 | a missing or empty session e-mail finds no account; otherwise the result is the first account whose e-mail matches it ignoring case; a found account is in the list and matches the e-mail |
| `Session.FindAccountIgnoresCase` | js/profile.js:14 | keys with the same lower-case form find the same account |
| `Session.CurrentAccountUpperCase` | js/profile.js:14 | the upper-cased session e-mail finds the same account as the original |
| `Catalog.MockCatalogCounters` | js/profile.js:127-140 | on the five-event catalog: 2 registered, 3 upcoming and 0 ongoing; the Winter Hackathon is in both registered and upcoming; 5 events in all, 40 percent attendance and 1 achievement |

## Findings

| source | as written | input that shows it | evidently intended | confidence | as-written member | corrected member |
|---|---|---|---|---|---|---|
| js/profile.js:120-122 | A non-empty name made only of white space passes the `!name` guard. `trim().split(/\s+/)` then gives the single field `""`. Its first character is `undefined`, and `undefined + ''` is the text "undefined", so the avatar shows "UNDEFINED" | `getInitials("   ")`, e.g. an account whose displayName is three spaces | "AC", the code for a missing name | high; not executed | `AccountView.InitialsAsWritten` (shown by `AccountView.InitialsAsWrittenOnBlank`) | `AccountView.Initials` (used by `AccountView.Profile`) |

## Left out

- Browser storage and JSON are not modelled: `localStorage` reads and writes, the `JSON.parse` of the account list with its fall-back to "no account", and the redirects in `verifyAuth` and `handleLogout` (js/profile.js:9-28, 259-263). They are I/O. The model keeps only the search over an already-parsed list of accounts.
- The theme toggle (`initializeTheme`, `toggleTheme`, js/profile.js:241-253) is not modelled. It is storage and page-class I/O.
- The page is not modelled: DOM writes, the `innerHTML` templates of `renderEventItem`, the event listeners, `scrollIntoView`, `alert`, the `DOMContentLoaded` wiring and the console message (js/profile.js:95-99, 135-160, 167-184, 266-319). The model returns the values those writes would show.
- `formatDate` (js/profile.js:187-190) depends on locale and time-zone rendering. The timeline takes it as the function parameter `formatDay`.
- Parsing dates is not modelled: `new Date(event.date)` and the stored `joinedAt`. Event days come from the function parameter `dayStart`, and the join instant is an integer. An unparseable date gives NaN in the page ("NaN days", "In NaN days"); the model has no such value. An unparseable `joinedAt` also makes `joinedDate.toISOString()` (js/profile.js:204) throw a RangeError inside `populateEvents` (js/profile.js:163), so the rest of the `DOMContentLoaded` handler (js/profile.js:299-319) never runs: the theme and logout buttons and the quick actions get no handlers. The model has no exceptions and no handler wiring.
- The clock is a parameter. The source reads it several times, a few milliseconds apart. The model reads one `now` and takes the local `hour` of `getHours` as a separate parameter.
- Falsy values: `account.joinedAt || new Date()` also replaces a stored `0`. The model has only "missing" (`None`).
- The timeline gets the join instant as an argument. The source looks the account up again with `getCurrentAccount`.
- `getMockEvents` (js/profile.js:31-84) is static data. It appears only as the constant `Catalog.MockEvents`.
- Floating point is not modelled: `Math.round((r / n) * 100)` is computed exactly on integers as the round-half-up of 100·r/n. Double rounding error at exact halves is not modelled.
- Determinism and idempotence (the same inputs give the same output) hold because every derivation is a Dafny function or a method without state. No separate lemma states them.
- `tailwind.config.js` has no behaviour. It is styling configuration.
- AccountView.Profile: shows the corrected avatar code (`AccountView.Initials`), not the code as written. For a non-empty displayName (or, without one, e-mail) made only of white space, the page shows "UNDEFINED" and the model shows "AC". On every other name the two agree, as `Profile`'s contract and `AccountView.InitialsCorrectionIsNarrow` state.
- JsString.Upper: maps only the ASCII letters `a`-`z`. JavaScript's `toUpperCase` also maps other letters and can lengthen a string (`ß` becomes `SS`). So "1 or 2 characters" for `AccountView.Initials` holds only for this ASCII mapping.
- JsString.Lower: maps only `A`-`Z`, so the e-mail comparison in `Session.FindAccount` ignores only ASCII case.
- JsString.IsSpace: strings are sequences of Unicode scalar values, not UTF-16 code units. A first character outside the Basic Multilingual Plane is one character here but half a surrogate pair in JavaScript.
