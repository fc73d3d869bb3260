# log-dumper date-range resolver, in Dafny

log-dumper prints syslog hits from a search backend for a time window chosen
with the optional `-d` flag. `date_handler.py` turns that flag into the
inclusive window `(date_from, date_to)`:

1. `get_date_arguments` splits the argument on `:` and runs each token through an
   ordered rule table (`is_date_type`): an integer no greater than `RANGE_LIMIT`
   is a day count; otherwise a parseable date at position 0 is the lower
   bound; any other parseable date is the upper bound; anything else is
   logged and skipped. A later token for the same slot overwrites an earlier one.
2. `date_handler` fills the missing side: both dates are used as given; one
   date is widened by the day count (0 when none was given); no date anchors
   the upper side at the current time.
3. The lower side is moved to 00:00:00.000000 of its day and the upper side to
   23:59:59.999999 of its day.

The model is functional. A timestamp is a day ordinal plus the microsecond of
the day (`DateTimes.DateTime`), so `timedelta(days=n)` moves the ordinal and
`datetime.replace` sets the time of day. The fuzzy parser of `dateutil` is a
function-typed field of `DateHandling.Config`, always called with the
configured day-first and year-first flags. `Config` also holds those two
flags (`DAYFIRST`, `YEARFIRST`) and `RANGE_LIMIT`. The current time is a parameter. Modules:

- `Arith` — division facts for splitting numbers into digits and clock fields.
- `Optional` — the `Option` slots.
- `DateTimes` — timestamps, clock readings, `replace`, day arithmetic.
- `Tokens` — `str.split(':')` and `int(...)` on a token.
- `DateHandling` — classification, the token loop, the defaulting table, the snap.
- `DateHandlingFacts` — properties across calls and argument families.

Three facts about the code shape the model:

- There is no lower bound on the day count (`date_handler.py:43` compares
  only against `RANGE_LIMIT`), so negative integers are day counts.
- A missing day count is 0 (`date_handler.py:57-59`). The comments at
  `date_handler.py:66`, `:70` and `:75` speak of "one day after",
  "yesterday" and "the last day", but with no range given the code yields
  the given date's day, or today, as a single whole day.
- `from <= to` does not always hold. Two dates in reverse order break it, and
  so does a negative day count (`TwoDates`, `ReversedDatesExample`, `LoneRange`).

## Model

| member | source | states |
|---|---|---|
| `Tokens.Split` | date_handler.py:17 | every piece is colon-free and there is at least one piece, as with `str.split(':')` |
| `Tokens.JoinSplit` | date_handler.py:17 | joining the pieces with `:` gives back the argument, so splitting loses no character |
| `Tokens.SplitJoin` | date_handler.py:17 | splitting a `:`-join of colon-free tokens gives back exactly those tokens |
| `Tokens.SplitColonFree` | date_handler.py:17 | a colon-free argument is one token |
| `Tokens.ParseInt` | date_handler.py:43 | `int()` of a token: a value is only ever read from a non-empty, colon-free token |
| `Tokens.ParseIntAccepts` | date_handler.py:43 | every token `int()` accepts is an optional sign, leading zeros and the decimal rendering of the magnitude it reads; a `-` reads a value at most 0, otherwise at least 0 |
| `Tokens.ParseIntSpelled` | date_handler.py:21 | every such spelling, `+5`, `007` and `-0` included, is accepted and read as its value |
| `Tokens.ParseShowInt` | date_handler.py:21 | `int()` reads back the decimal rendering of any integer, negative ones included |
| `DateTimes.ClockRoundTrip` | date_handler.py:81-84 | composing hour, minute, second and microsecond into a time of day and reading the clock back gives the same four fields |
| `DateTimes.Replace` | date_handler.py:81-84 | `datetime.replace` never changes the calendar day |
| `DateTimes.ReplaceSetsClock` | date_handler.py:81-84 | `replace` keeps the calendar day and makes the clock read exactly the requested fields |
| `DateTimes.AddDaysInverse` | date_handler.py:68 | adding `n` days and then subtracting `n` days returns the same instant |
| `DateTimes.StartOfDayBound` | date_handler.py:83-84 | replacing the clock with 00:00:00.000000 gives the first instant of the same day |
| `DateTimes.EndOfDayBound` | date_handler.py:81-82 | replacing the clock with 23:59:59.999999 gives the last instant of the same day |
| `DateTimes.AddDays` | date_handler.py:68 | adding `n` days moves the day by exactly `n`, keeps the time of day, and moves forward exactly when `n >= 0` |
| `DateHandling.Classify` | date_handler.py:19-30 | the range test wins over the date tests; a non-range date is the lower bound only at position 0 and the upper bound elsewhere; a token that is neither is unrecognised |
| `DateHandling.Scan` | date_handler.py:19-30 | every date token kept in a slot parses, and the lower bound is the first token when that token is a non-range date, and is empty otherwise |
| `DateHandling.ScanLastWins` | date_handler.py:19-28 | the range slot is empty iff no token is a range, and otherwise holds the value of the last range token; the upper-bound slot is empty iff no later token is a non-range date, and otherwise holds the last such token |
| `DateHandling.GetDateArguments` | date_handler.py:9-34 | a missing argument gives three empty slots without error; the lower bound, when set, is the first token |
| `DateHandling.Defaults` | date_handler.py:57-77 | a given date is used as parsed; with only one date given, or none, the two sides lie exactly the day count apart (0 when none was given) at the same time of day; with none, the upper side is now |
| `DateHandling.Snap` | date_handler.py:79-84 | the lower side moves to 00:00:00.000000 and the upper side to 23:59:59.999999, neither calendar day changes, and the result contains exactly the instants whose day lies between the two days |
| `DateHandling.SnapIsReplace` | date_handler.py:81-84 | the snap equals the two `replace` calls of the source |
| `DateHandling.DateHandler` | date_handler.py:54-86 | the result spans whole days, and unless both dates were given its last day is the day count after its first |
| `DateHandlingFacts.BareIntegerRole` | date_handler.py:40-43 | a rendered integer is a day count iff it is at most the range limit, negative values included; above the limit it falls through to the date tests |
| `DateHandlingFacts.UnrecognisedStep` | date_handler.py:29-30 | an unrecognised token leaves all three slots unchanged |
| `DateHandlingFacts.InsertUnrecognised` | date_handler.py:19-30 | inserting an unrecognised token anywhere after position 0 changes no slot, so processing of the remaining tokens is unaffected |
| `DateHandlingFacts.OrderedIffRangeNonNegative` | date_handler.py:57-84 | with at most one date given, the window is ordered iff the day count is not negative, and it contains exactly the instants of the day count plus one whole calendar days from its first day (none when the count is negative) |
| `DateHandlingFacts.NoArgumentIsToday` | date_handler.py:54-86 | no argument gives empty slots and the whole-day window of the current day |
| `DateHandlingFacts.AllUnrecognisedIsToday` | date_handler.py:29-30 | an argument with no recognised token resolves like no argument at all |
| `DateHandlingFacts.LoneDate` | date_handler.py:65-68 | a lone date with no range gives the single whole day of that date |
| `DateHandlingFacts.TwoDates` | date_handler.py:61-64 | with both dates given, each side is its parsed date's day, snapped, and the window is ordered iff the first day is not after the second |
| `DateHandlingFacts.DateThenRange` | date_handler.py:65-68 | `date:n` runs from the date's day through `n` days later |
| `DateHandlingFacts.RangeThenDate` | date_handler.py:69-73 | `n:date` puts the date in the upper slot and runs from `n` days before it through it |
| `DateHandlingFacts.LoneRange` | date_handler.py:74-77 | a lone day count `n` runs from `n` days before now through today, and is ordered iff `n >= 0` |
| `DateHandlingFacts.ReversedDatesExample` | date_handler.py:61-64 | example: under a parser that reads `a` as a later day than `b`, the argument `a:b` gives a window that ends before it starts |

## Left out

- The fuzzy date parser of `dateutil` is a parameter: its formats, locale
  rules and fuzzy matching are not modelled, only that it is called with the
  configured day-first and year-first flags and either gives a timestamp or fails.
- The parser of `dateutil` fills fields missing from a token from today's
  date, so in the program it depends on the clock; here `parser` and `now`
  are independent. The program also parses each kept date token twice (the
  test at `date_handler.py:46`, then again at line 63, 67 or 71); the model
  parses it through the same deterministic function both times.
- Time zones and `fold`: a parsed timestamp is naive. `replace` and day
  arithmetic on an aware timestamp keep its zone and behave the same on the day
  and time fields. Comparing aware and naive values is not modelled.
- Exceptions the code does not catch are not modelled: an `OverflowError` from
  the parser, and year-range overflow in the `timedelta` arithmetic. Days are
  unbounded integers.
- `Tokens.ParseInt` reads an optional `+` or `-` and at least one ASCII digit.
  Python's `int()` also strips whitespace, accepts `_` between digits and
  accepts non-ASCII decimal digits. Those tokens are not ranges in the model.
- `is_date_type` answers true for any kind other than `'range'` and `'date'`.
  The code never asks for another kind, so the model has only the two predicates.
- Logging calls are side effects only and are dropped.
- The current time (`datetime.now()`) is the parameter `now`.
- `log_dumper.py` (search-backend client, query building, argument parsing,
  printing) and `logger.py` (logging set-up) are not part of this model.
- The backend date-math expression output, with its `||` offsets and format
  string, does not appear in `date_handler.py` and is not part of this model.
