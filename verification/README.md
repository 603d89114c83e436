# PepperBot deal alerts and category schedules, in Dafny

PepperBot is a Discord bot that watches deals on Pepper.pl. This project models three parts of it and proves what they promise.

1. **The alert cycle** (`AlertsManager.check_alerts`).
   - For every distinct watched query, the bot takes the deals the scraper fetched.
   - For every alert subscribed to the query, it decides whether the `(alert id, deal link)` pair is new.
   - A pair counts as new when it is neither in the in-cycle set nor in the persistent alert history.
   - It also checks the deal's price against the alert's ceiling.
   - It emits notifications and writes the new pairs to the history in one batch at the end.
   - The price comes from `_parse_price`, a normaliser for texts such as `"29,99 zł"` or `"Darmowa"`. It never fails.
2. **Category schedules** (`CategoryManager`).
   - `parse_schedule` validates what a user asks for, as an ordered chain of checks with one message each.
   - `should_run_now` decides whether a stored config is due at a given moment: an exact hour and minute, then a daily, weekly, biweekly or monthly gate.
   - `format_schedule` describes a config.
3. **The store** (`Database`).
   - The SQLite tables become maps and sets on a `Database` class: sent deals, alerts keyed by `(user_id, query)`, the alert history, category configs keyed by `(guild_id, slug)`, category sent deals and per-day category statistics.
   - Each method changes what its SQL statement changes, given the table constraints listed under "## Left out".

Layout (one module per file):
- `wrappers.dfy` (`Option`).
- `text.dfy`: the parts of Python's `str` in use. That is decimal digits, `str(int)`, `lower`/`capitalize`, `replace`, `in`, and `strip`.
- `clock.dfy`: the parts of `datetime` in use. That is the proleptic ordinal, `weekday()` and `timedelta.days`.
- `price.dfy` (`_parse_price`).
- `schedule.dfy` (the three `CategoryManager` operations).
- `store.dfy` (the `Database` class).
- `alerts.dfy`: the cycle's specification, the `AlertsManager` class and the cycle lemmas.

The alert cycle is specified by a fold (`CycleFold`, built from `SubStep`, `SubsFold`, `DealsFold` and `QueryStep`). It runs over the query listing and subscriber listings the cycle reads. The SQL has no `ORDER BY` there, so their order is left open.
- `AlertsManager.CheckAlerts` runs the source's three nested loops and is proved to compute that fold.
- `CycleOutcome` shows which facts do not depend on the listing order. The order of the notifications does depend on it: it follows the listings. What holds over every order is that the batch, taken as a set, holds exactly the wanted pairs (`Wanted`: a stored alert, a deal fetched for its query, a price within its ceiling) that the history does not already hold. No pair appears twice, and there is one batch entry per notification, with matching alert and link.
- `SecondCycleIsQuiet` shows that a second cycle over the same fetch results notifies nobody.

## Model

| member | source | states |
|---|---|---|
| Price.ParsePrice | utils/alerts.py:87-99 | Never fails. A missing or empty price gives 0. A price whose cleaned text (lower-cased, `zł` and spaces removed, comma turned into a point) contains `darm`, `free` or `bezpłatn` gives 0. So does one whose cleaned text `float()` cannot read. |
| Price.Clean | utils/alerts.py:92 | No contract of its own. `CleanHasNoSeparators`, `CleanOfPolishPrice`, `CleanOfWholePrice` and `CleanOfWord` state what the replace chain produces. |
| Price.MentionsFree | utils/alerts.py:94 | No contract of its own. `PlainNumberFacts` shows that a number mentions no free token. `PriceOfFreeWord` shows that a cleaned text starting with any of the three tokens is free, and `ExampleFree` and `ExampleFreePolish` reach the first and third. |
| Price.ParseFloat | utils/alerts.py:97 | No contract of its own. `float()` strips whitespace and reads a decimal literal: `PlainNumberFacts` and `PriceOfPlainNumber` tie it to `ParseDecimal`. |
| Price.ParseDecimal | utils/alerts.py:97 | No contract of its own. `DigitsPointDigits`, `DigitsOnly`, `DecimalRoundTrip` and `WholeRoundTrip` give its value on every `W` and `W.F`, and `PriceOfWord` shows it rejects letters. |
| Price.CleanHasNoSeparators | utils/alerts.py:92 | The cleaned text contains no space and no comma. |
| Price.CommaToPoint | utils/alerts.py:92 | Replacing the comma in `digits,digits` gives `digits.digits`. |
| Price.DropTrailingZloty | utils/alerts.py:92 | Removing `zł` from text that ends with it, and has no `z` before it, leaves the text before it. |
| Price.DropTrailingSpace | utils/alerts.py:92 | Removing spaces from text ending in its only space leaves the text before it. |
| Price.CleanOfPolishPrice | utils/alerts.py:92 | `W,F zł` cleans to `W.F` for digit strings W and F. |
| Price.CleanOfWholePrice | utils/alerts.py:92 | `W zł` cleans to `W` for a digit string W. |
| Price.CleanOfWord | utils/alerts.py:92 | A text whose lower case is small ASCII letters without `z` cleans to its lower case. |
| Price.LeadingDigits | utils/alerts.py:97 | The run of digits at the start of a text: all digits, and followed by a non-digit or the end. |
| Price.ParseAfterDigits | utils/alerts.py:97 | Reading digits followed by a non-digit is reading the whole part and then the rest. |
| Price.ReadPointed | utils/alerts.py:97 | Digits, a point and digits read as whole part plus fraction. |
| Price.DigitFirstUnsigned | utils/alerts.py:97 | A text starting with a digit has no sign to read. |
| Price.DigitsPointDigits | utils/alerts.py:97 | `float("W.F")` is W plus F as a decimal fraction. |
| Price.DigitsOnly | utils/alerts.py:97 | `float("W")` is W. |
| Price.DecimalRoundTrip | utils/alerts.py:97 | `float(str(n) + "." + F)` is n plus F as a decimal fraction. |
| Price.WholeRoundTrip | utils/alerts.py:97 | `float(str(n))` is n. |
| Price.LeadingDigitsOfNumber | utils/alerts.py:97 | The leading digit run of W followed by a non-digit is exactly W. |
| Price.PlainNumberFacts | utils/alerts.py:94-97 | A text of digits and points that starts and ends with a digit is unchanged by `strip()` and mentions no free token. |
| Price.PriceOfPlainNumber | utils/alerts.py:92-97 | A price that cleans to such a number is worth that number, or 0 when it does not parse. |
| Price.PriceWithDecimalComma | utils/alerts.py:92-97 | `"N,F zł"` is worth N plus F as a decimal fraction: the comma acts as the decimal point. |
| Price.PriceOfWholeAmount | utils/alerts.py:92-97 | `"N zł"` is worth N. |
| Price.FractionOfNinetyNine | utils/alerts.py:97 | The fraction `99` is 0.99. |
| Price.ExampleDecimalComma | utils/alerts.py:92-97 | `"29,99 zł"` is worth 29.99. |
| Price.SmallLettersAreLower | utils/alerts.py:92 | A word of small ASCII letters is its own lower case. |
| Price.PriceOfFreeWord | utils/alerts.py:94-95 | A non-empty price whose cleaned text starts with one of the three free tokens is worth 0, whatever follows. |
| Price.ExampleFree | utils/alerts.py:94-95 | `"Darmowa"` is worth 0. |
| Price.ExampleFreePolish | utils/alerts.py:92-95 | `"Bezpłatne"` is worth 0. Its `z` is not followed by `ł`, so the currency removal leaves it alone and `bezpłatn` is found. |
| Price.CleanOfPlain | utils/alerts.py:92 | A text without `z`, spaces or commas comes out of the replace chain unchanged. |
| Price.CleanAroundZ | utils/alerts.py:92 | A text without spaces or commas whose only `z` is followed by something other than `ł` comes out of the replace chain unchanged. |
| Price.PriceOfWord | utils/alerts.py:97-99 | A non-empty word of small ASCII letters without `z` is no decimal literal, so the fallback makes it worth 0. That includes `inf`, `nan` and `infinity`, which the modelled float grammar leaves out (see "## Left out"). |
| Price.ExampleGarbage | utils/alerts.py:97-99 | `"garbage"` is worth 0. |
| Price.ReplaceKeepsAbsentChar | utils/alerts.py:92 | A replacement that brings no `x` in leaves a text without `x` without it. |
| Price.Fraction | utils/alerts.py:97 | A fraction read from digits is never negative. |
| Text.NatToString | utils/category_manager.py:113 | `str(n)` is a non-empty string of digits. |
| Text.NatToStringRoundTrip | utils/category_manager.py:113 | Reading back the digits of `str(n)` gives n. |
| Text.DigitsValueAppend | utils/category_manager.py:73-74 | One more digit multiplies the value by ten and adds the digit. |
| Text.DigitsValue | utils/category_manager.py:73-74 | No contract of its own. It is `int()` of a digit string: `DigitsValueAppend`, `NatToStringRoundTrip`, `OneDigitValue` and `TwoDigitsValue` state its values. |
| Text.IntToString | utils/category_manager.py:113 | No contract of its own. `str()` of an integer: the `-` sign, then `NatToString` of the magnitude, whose digits `NatToStringRoundTrip` reads back. |
| Text.DigitValue | utils/category_manager.py:73-74 | A digit's value is below 10. |
| Text.DigitChar | utils/category_manager.py:113 | The digit written for a value below 10 reads back as that value. |
| Text.LowerChar | utils/alerts.py:92 | A lower-cased character is never a capital, and a non-capital is left unchanged. |
| Text.UpperChar | utils/category_manager.py:109-111 | No contract of its own. `LowerOfUpper` shows that upper-casing then lower-casing a character is lower-casing it, and `Capitalize` uses it for the first character. |
| Text.Lower | utils/alerts.py:92 | `lower()` keeps the length and lower-cases each character in place. |
| Text.LowerIdempotent | utils/category_manager.py:44 | Lower-casing twice is lower-casing once. |
| Text.LowerOfLowered | utils/category_manager.py:44 | A text without capitals is its own lower case. |
| Text.LowerOfUpper | utils/category_manager.py:109 | Upper-casing then lower-casing a character is lower-casing it. |
| Text.LowerCons | utils/alerts.py:92 | Lower-casing works character by character from the front. |
| Text.Capitalize | utils/category_manager.py:109 | `capitalize()` keeps the length. It upper-cases the first character and lower-cases the rest, so no character after the first is a capital. |
| Text.CapitalizeKeepsLetters | utils/category_manager.py:109 | `capitalize()` changes only case: lower-casing its result gives the lower-cased input. |
| Text.DigitCharOfValue | utils/category_manager.py:73-74 | Writing a digit's value gives the digit back. |
| Text.NoOccurrenceWithoutChar | utils/alerts.py:94 | A text lacking one of a token's characters does not contain the token. |
| Text.ContainsPrefix | utils/alerts.py:94 | A text starting with a token contains it. |
| Text.Contains | utils/alerts.py:94 | No contract of its own. `ContainsPrefix` and `NoOccurrenceWithoutChar` state when a token is and is not contained. |
| Text.ReplaceSkipsPlainPrefix | utils/alerts.py:92 | `replace` passes a stretch without the pattern's first character through unchanged. |
| Text.NoMatchShort | utils/alerts.py:92 | `replace` leaves a text shorter than the pattern as it is. |
| Text.ReplaceLeavesPlain | utils/alerts.py:92 | `replace` leaves a text without the pattern's first character as it is. |
| Text.ReplaceAtFront | utils/alerts.py:92 | A pattern at the front is replaced and the scan goes on after it. |
| Text.ReplaceCharRemovesIt | utils/alerts.py:92 | Replacing a character by a text without it removes every copy of it. |
| Text.ReplaceAll | utils/alerts.py:92 | No contract of its own. `ReplaceAtFront`, `ReplaceSkipsPlainPrefix`, `ReplaceLeavesPlain`, `NoMatchShort` and `ReplaceCharRemovesIt` state how `replace` scans. |
| Text.StripStart | utils/alerts.py:97 | Stripping never lengthens a text. |
| Text.StripEnd | utils/alerts.py:97 | Stripping never lengthens a text. |
| Text.StripOfTrimmed | utils/alerts.py:97 | A text that neither starts nor ends with whitespace is unchanged by `strip()`. |
| Text.Strip | utils/alerts.py:97 | No contract of its own. `StripOfTrimmed` states that a text without whitespace at either end is unchanged. |
| Text.IsSpace | utils/alerts.py:97 | No contract of its own. It is the set of characters `str.isspace()` accepts, which `float()` strips. `StripOfTrimmed` and `PlainNumberFacts` use it. |
| Clock.DaysInMonth | utils/category_manager.py:101 | A month has 28 to 31 days. |
| Clock.Weekday | utils/category_manager.py:88 | `weekday()` is between 0 (Monday) and 6. |
| Clock.DaysBetween | utils/category_manager.py:94 | `(now - last_run).days` is the time difference rounded down to whole days. |
| Clock.DaysBetweenSameClockTime | utils/category_manager.py:94 | Two moments at the same time of day are the difference of their ordinals apart. |
| Clock.Ordinal | utils/category_manager.py:88-94 | `toordinal()` is at least 1 on every valid date. |
| Clock.NextDay | utils/category_manager.py:88-94 | The calendar day after a valid date is a valid date. |
| Clock.MonthLength | utils/category_manager.py:88-94 | The days before the next month are the days before this month plus this month's length. |
| Clock.YearLength | utils/category_manager.py:88-94 | A year has 366 days when it is a leap year and 365 otherwise. |
| Clock.OrdinalNextDay | utils/category_manager.py:88-94 | Consecutive calendar days have consecutive ordinals, including across month and year ends. |
| Clock.WeekdayNextDay | utils/category_manager.py:88 | `weekday()` moves on by one from one calendar day to the next, wrapping from Sunday to Monday. |
| Schedule.ParseSchedule | utils/category_manager.py:34-67 | A schedule is accepted iff every check passes. The accepted schedule has the lower-cased frequency, the time unchanged, the lower-cased day or none, and the date unchanged. Each failing check gives its own message, the day-name check included, given that the earlier checks passed, and the time check comes first. A day-name message means the day is not one of the seven. |
| Schedule.DayRequiredMessage | utils/category_manager.py:55 | No contract of its own. The message quotes the frequency as the user wrote it, and `ParseSchedule`'s ensures give it for a weekly or biweekly schedule without a day. |
| Schedule.ParseAcceptsItsOutput | utils/category_manager.py:43-67 | Parsing an accepted schedule's own fields accepts it again, unchanged. |
| Schedule.AcceptedDayIsKnown | utils/category_manager.py:54-65 | An accepted weekly or biweekly schedule names a day the weekday map knows. |
| Schedule.AcceptedMonthlyHasDate | utils/category_manager.py:57-61 | An accepted monthly schedule has a date from 1 to 31. |
| Schedule.ClockPart | utils/category_manager.py:39 | The text the pattern's `$` sees is a prefix of the time, at most one character shorter. It is shorter iff the time ends with a newline. |
| Schedule.IsClockText | utils/category_manager.py:39 | No contract of its own. `ClockTextRoundTrip` and `MatchedIsClockText` state the texts it accepts. |
| Schedule.TimeMatches | utils/category_manager.py:39-40 | No contract of its own. `ClockTextRoundTrip` and `MatchedIsClockText` state the texts it accepts. |
| Schedule.ClockTextRoundTrip | utils/category_manager.py:39-40 | Every time from 0:00 to 23:59 is accepted. That holds with one or two hour digits, and with or without one final newline. The hour and minute read back are those written. |
| Schedule.MatchedIsClockText | utils/category_manager.py:39-40 | Every accepted time is such a text: without its final newline, it is the clock text of the hour and minute read from it. It has two hour digits when it is five characters long. |
| Schedule.OneDigitValue | utils/category_manager.py:73 | A one-digit hour is worth its digit. |
| Schedule.TwoDigitsValue | utils/category_manager.py:73-74 | A two-digit field is worth ten times its first digit plus its second. |
| Schedule.ScheduleHour | utils/category_manager.py:73 | The hour read from an accepted time is below 24. |
| Schedule.ScheduleMinute | utils/category_manager.py:74 | The minute read from an accepted time is below 60. |
| Schedule.PaddedTimeRoundTrip | utils/category_manager.py:72-74 | Every zero-padded `HH:MM` time is accepted and reads back as its hour and minute. |
| Schedule.DayNumber | utils/category_manager.py:83-87 | The map gives a number iff the name is one of the seven, and that number is the name's position from Monday. |
| Schedule.ShouldRunNow | utils/category_manager.py:69-103 | A config is due only at its exact hour and minute, and only when its kind is one of the four. The per-kind lemmas below give each branch. |
| Schedule.DueOnlyAtScheduledMinute | utils/category_manager.py:76-77 | Nothing is due outside its exact hour and minute. |
| Schedule.DailyDue | utils/category_manager.py:79-80 | A daily config is due iff the time matches. |
| Schedule.WeeklyDue | utils/category_manager.py:82-98 | A weekly config is due iff the time matches and today is its mapped weekday. An unknown day is never due. |
| Schedule.BiweeklyDue | utils/category_manager.py:82-98 | A biweekly config is due iff the time matches, today is its weekday, and either it never ran or it ran at least 13 whole days ago. |
| Schedule.MonthlyDue | utils/category_manager.py:100-101 | A monthly config is due iff the time matches and today's day of the month is its date. |
| Schedule.OtherKindsNeverDue | utils/category_manager.py:103 | A config of any other kind is never due. |
| Schedule.StatusIsIgnored | utils/category_manager.py:69-103 | The status plays no part: a paused config is due exactly when an active one would be. |
| Schedule.MonthlyDateBeyondMonthEnd | utils/category_manager.py:100-101 | A monthly date past the end of the current month is never due that month. |
| Schedule.BiweeklyAfterDays | utils/category_manager.py:91-96 | A biweekly config last run at this time of day k days ago, on its weekday, is due iff k is at least 13. So it is not due a week later and is due two weeks later. |
| Schedule.WeeklyNotDueNextDay | utils/category_manager.py:82-98 | A weekly or biweekly config that is due today is not due at the same minute on the next calendar day. |
| Schedule.NewYear2024IsMonday | utils/category_manager.py:88 | `weekday()` of 1 January 2024 is 0 (Monday). |
| Schedule.FormatEndsWithTime | utils/category_manager.py:105-113 | The description of each of the four kinds ends with " at " and the time. |
| Schedule.FormatUnknownIffOtherKind | utils/category_manager.py:105-114 | "Unknown schedule" is shown iff the kind is none of the four. |
| Schedule.FormatWeeklyNamesDay | utils/category_manager.py:108-109 | A weekly description carries `capitalize()` of the day right after "Weekly (": the first letter upper-cased and the rest lower-cased. Lower-cased, it is the day lower-cased. |
| Schedule.FormatMonthlyShowsDate | utils/category_manager.py:112-113 | A monthly description carries the date in decimal after "Monthly (day ", and those digits read back as the date. |
| Schedule.DateText | utils/category_manager.py:113 | No contract of its own. `FormatMonthlyShowsDate` shows that a date's digits appear and read back as the date. A missing date prints as `None`. |
| Schedule.FormatSchedule | utils/category_manager.py:105-114 | No contract of its own. `FormatEndsWithTime`, `FormatUnknownIffOtherKind`, `FormatWeeklyNamesDay` and `FormatMonthlyShowsDate` state what it produces. |
| Store.Stamp | utils/db.py:30 | `CURRENT_TIMESTAMP` keeps the date, and whole seconds only. |
| Store.Database.AddSentDeal | utils/db.py:102-105 | Insert-or-ignore of the deal id, stamped with the current time. |
| Store.Database.IsDealSent | utils/db.py:107-112 | True iff the deal id is stored. |
| Store.Database.CleanupOldDeals | utils/db.py:114-119 | Exactly the entries older than `days` days before now are removed. |
| Store.Prune | utils/db.py:114-119 | The kept entries still have valid timestamps. |
| Store.PruneKeepsRecent | utils/db.py:114-119 | An entry survives a purge iff it was there and is not older than the cut-off, and it keeps its timestamp. |
| Store.PruneIdempotent | utils/db.py:114-119 | Purging twice with the same clock is purging once. |
| Store.Expired | utils/db.py:117 | No contract of its own. It is the `WHERE sent_at < datetime('now', '-N days')` test. `PruneKeepsRecent` shows that a purge removes exactly the rows it holds for. |
| Store.InsertOrIgnore | utils/db.py:309-315 | The key is present afterwards, no existing entry changes, and a new key gets the stamp. |
| Store.InsertOrIgnoreIdempotent | utils/db.py:309-315 | Inserting the same key again changes nothing. |
| Store.AlertsValidInsert | utils/db.py:25-32 | A new alert with the next id keeps the ids unique and below the counter. |
| Store.AlertsValidUpdate | utils/db.py:129-131 | Changing an alert's ceiling keeps the ids unique and below the counter. |
| Store.Database.AddAlert | utils/db.py:121-138 | An upsert that returns true. A new `(user, query)` gets the next id, the ceiling and the current stamp. An existing one keeps its id and creation stamp and takes the new ceiling. No other alert changes. |
| Store.Database.RemoveAlert | utils/db.py:140-146 | Removes only that `(user, query)` alert and returns true iff it existed. The history is kept, since foreign keys are not enforced. |
| Store.Database.GetUserAlerts | utils/db.py:148-153 | Lists every alert of the user once, and nothing else. |
| Store.Database.GetAllUniqueQueries | utils/db.py:155-160 | Lists every stored query once, and nothing else. |
| Store.Database.GetAlertsByQuery | utils/db.py:162-168 | Lists every alert watching the query once, and nothing else. |
| Store.Database.IsDealSeenByAlert | utils/db.py:170-176 | True iff the `(alert, deal)` pair is in the history. |
| Store.Database.MarkDealSeen | utils/db.py:178-184 | Adds the pair to the history. |
| Store.Database.MarkDealsSeenBatch | utils/db.py:186-202 | The history becomes the old history together with the records. An empty batch changes nothing, and repeating a batch adds nothing more. |
| Store.ConfigsValidInsert | utils/db.py:217-236 | A new config with the next id keeps ids unique and every config under its own key. |
| Store.ConfigsValidUpdate | utils/db.py:271-282 | Changing a config's fields other than id, guild and slug keeps the table constraints. |
| Store.Database.AddCategoryConfig | utils/db.py:204-236 | On a `(guild, slug)` conflict: none, and nothing changes. Otherwise the next id, for a new config that is active, has never run and is stamped now. |
| Store.Database.RemoveCategoryConfig | utils/db.py:238-245 | Removes only that `(guild, slug)` config and returns true iff it existed. |
| Store.Database.GetGuildCategories | utils/db.py:247-259 | Lists every config of the guild once, filtered by status unless the filter is missing or empty. |
| Store.Database.GetCategoryBySlug | utils/db.py:261-269 | The config stored under `(guild, slug)`, or none iff there is none. |
| Store.Database.UpdateCategoryStatus | utils/db.py:271-282 | Only the matching config changes (status, and `updated_at` stamped now), and the result is true iff one matched. |
| Store.LastRunSet | utils/db.py:284-290 | Every config with that id gets the stamp as its last run, and every other config is unchanged. |
| Store.ConfigsValidLastRun | utils/db.py:284-290 | Stamping a last run keeps the table constraints. |
| Store.Database.UpdateCategoryLastRun | utils/db.py:284-290 | The configs become the old ones with that id's last run stamped now. |
| Store.InsertOrdered | utils/db.py:296 | Putting a config into a listing adds exactly one entry. |
| Store.InsertOrderedKeepsOrder | utils/db.py:296 | Inserting a config with a new id keeps the listing ordered by `(guild_id, id)` and adds just that config. |
| Store.OrderedListingUnique | utils/db.py:296 | Two listings of the same configs ordered by `(guild_id, id)` are equal, so the result is fully determined. |
| Store.Database.GetActiveCategoriesForSchedule | utils/db.py:292-299 | Lists exactly the active configs, each once, ordered by `(guild_id, id)`. |
| Store.Database.IsCategoryDealSent | utils/db.py:301-307 | True iff the `(category, deal)` pair is stored. |
| Store.Database.MarkCategoryDealSent | utils/db.py:309-315 | Insert-or-ignore of the pair, stamped now. |
| Store.InsertAllAddsRecords | utils/db.py:317-325 | A batch insert-or-ignore adds exactly the records, keeps every old stamp and stamps the new ones. |
| Store.InsertAll | utils/db.py:321-324 | No contract of its own. It is `executemany` of `INSERT OR IGNORE`, and `InsertAllAddsRecords` states its effect. |
| Store.Database.MarkCategoryDealsSentBatch | utils/db.py:317-325 | The batch insert-or-ignore of the records, stamped now. |
| Store.Database.CleanupCategoryDeals | utils/db.py:327-333 | Exactly the pairs older than `days` days before now are removed. |
| Store.Accumulate | utils/db.py:335-347 | Creates the `(category, date)` row with the given counts or adds them to its counters. Every other row is unchanged. |
| Store.AccumulateTwice | utils/db.py:335-347 | Two updates of one day add up. |
| Store.AccumulateNeverOverwrites | utils/db.py:341-346 | Non-negative counts never decrease a counter. |
| Store.Database.UpdateCategoryStats | utils/db.py:335-347 | Accumulates the counts into today's row for the category. |
| Alerts.SubStepKeeps | utils/alerts.py:53-75 | One subscriber against one deal keeps the cycle invariant: one staged key per notification, no key twice, none from the history, each notification justified, and the in-cycle set holds only history and staged keys. The visited pair is added to the in-cycle set when its price is within the ceiling. |
| Alerts.SubsFoldKeeps | utils/alerts.py:53-75 | The loop over subscribers keeps the invariant and visits every within-ceiling pair of the deal. |
| Alerts.DealsFoldKeeps | utils/alerts.py:49-75 | The loop over deals keeps the invariant and visits every within-ceiling pair of the query. |
| Alerts.CycleFoldKeeps | utils/alerts.py:38-75 | The loop over queries keeps the invariant and visits every within-ceiling pair of the cycle. |
| Alerts.SubKeysHas | utils/alerts.py:53-66 | A listed subscriber within its ceiling is a visited pair for the deal. |
| Alerts.DealKeysHas | utils/alerts.py:49-66 | A fetched deal and a listed subscriber within its ceiling form a visited pair for the query. |
| Alerts.CycleKeysHas | utils/alerts.py:38-47 | Every query's pairs are among the cycle's. |
| Alerts.WantedVisited | utils/alerts.py:35-53 | Over complete listings, every wanted pair is visited. A wanted pair is a stored alert, a deal fetched for its query, and a price within its ceiling. |
| Alerts.JustifiedIsWanted | utils/alerts.py:66-74 | A justified notification's key is a wanted pair. |
| Alerts.CycleOutcome | utils/alerts.py:31-75 | Over complete listings in any order, the staged batch, taken as a set, holds exactly the wanted pairs not already in the history. The order of the notifications follows the listings. No pair appears twice. There is one batch entry per notification, in the same order. Each notification is for a stored alert of its query, a deal fetched for that query and a price within the alert's ceiling. |
| Alerts.SecondCycleIsQuiet | utils/alerts.py:80-81 | After the batch is added to the history, a second cycle over the same alerts and fetch results, listed in any order, notifies nobody. |
| Alerts.SkippedQueriesAddNothing | utils/alerts.py:41-47 | Queries whose fetch failed or that have no subscribers add no notifications and stage no keys. |
| Alerts.PriceOk | utils/alerts.py:66 | No contract of its own. It is `max_price is None or deal_price <= max_price`. `SubKeysHas`, `DealKeysHas` and `CycleOutcome` show that a new pair is notified exactly when it passes this test. |
| Alerts.SubStep | utils/alerts.py:53-75 | No contract of its own. `SubStepKeeps` states what one subscriber step keeps and adds. |
| Alerts.SubsFold | utils/alerts.py:53-75 | No contract of its own. `SubsFoldKeeps` and `SubKeysHas` state what the subscriber loop keeps and visits. |
| Alerts.DealsFold | utils/alerts.py:49-75 | No contract of its own. `DealsFoldKeeps` and `DealKeysHas` state what the deal loop keeps and visits. |
| Alerts.QueryStep | utils/alerts.py:39-75 | No contract of its own. `SkippedQueriesAddNothing` and `CycleKeysHas` state what one query's step adds. |
| Alerts.CycleFold | utils/alerts.py:31-75 | No contract of its own. `CycleFoldKeeps`, `CycleOutcome` and `SecondCycleIsQuiet` state what the whole cycle computes. |
| Alerts.Wanted | utils/alerts.py:35-68 | No contract of its own. It is the reference for the cycle's result: `WantedVisited`, `JustifiedIsWanted` and `CycleOutcome` relate the fold to it. |
| Alerts.AlertsManager.MatchDeal | utils/alerts.py:50-75 | The loop over subscribers, for one deal, computes the subscriber fold. |
| Alerts.AlertsManager.MatchDeals | utils/alerts.py:49-75 | The loop over deals computes the deal fold. |
| Alerts.AlertsManager.MatchQuery | utils/alerts.py:39-75 | One query's step: nothing for a failed fetch or no subscribers, otherwise the deal fold over the listed subscribers. Those are complete for a fetched query. |
| Alerts.AlertsManager.CheckAlerts | utils/alerts.py:26-85 | Returns the notifications of the fold over the query and subscriber listings it read, which are complete. The history afterwards is the old history together with the staged batch, written once and only when the batch is non-empty. |
| Alerts.RecheckIsQuiet | utils/alerts.py:80-85 | Running the check twice with the same fetch results gives no notifications the second time. |

## Left out

- I/O and timing are left out.
  - SQLite, `aiosqlite`, commits and logging are replaced by the fields of `Database`.
  - `async`/`await` become sequential calls.
  - The `asyncio.sleep(1.5)` throttle in `check_alerts` only delays.
- The scraper is a parameter. `search_deals(query, limit=5, sort="new")` is the `fetch` function from query to result. Its limit and sort arguments are not modelled.
- `Database.init`, `run_migration` and `close` are schema set-up and are not modelled. The `category_configs`, `category_sent_deals` and `category_stats` schemas live in a migration file that is not part of this model. The model assumes these constraints of it:
  - `AddCategoryConfig` starts a new config with status `'active'`.
  - Config ids are `AUTOINCREMENT` ids that are never reused (`nextConfigId` only grows). A plain `INTEGER PRIMARY KEY` may reuse the largest deleted id, and stale `category_sent_deals` rows would then apply to the new config. That case is not modelled.
  - `(guild_id, slug)` is `UNIQUE`, so `AddCategoryConfig` fails on a conflict.
  - `updated_at` and `sent_at` default to `CURRENT_TIMESTAMP`.
  - `category_sent_deals` has a uniqueness constraint on `(category_id, deal_id)`, so its `INSERT OR IGNORE` deduplicates. Without one, marking a pair again would add a second, later row, and purging the older row would leave the pair sent.
  - `category_stats` has `UNIQUE(category_id, date)`. That is the conflict target of the upsert, so there is one row per category and day.
- `CategoryManager.validate_slug` and `validate_channel_permissions` are not modelled: they are calls into the scraper and Discord. `get_category_emoji` is a display table and is also not modelled.
- `AlertsManager.load_alerts`, `add_alert`, `remove_alert` and `get_alerts` only forward to the `Database` methods modelled here.
- Clock readings are parameters. `datetime.now()`, `CURRENT_TIMESTAMP` and `DATE('now')` become `now` or `today`. SQLite's readings are UTC, while `datetime.now()` in `should_run_now` is local time. Each operation takes its own reading, so the model does not relate the two clocks. `last_run` arrives already parsed, since `fromisoformat` raises on a malformed one.
- Schedule.ShouldRunNow: requires a schedule time the pattern of `parse_schedule` accepts and a valid last run. The source's `split(':')` and `int()` also read other `H:M` texts stored through `add_category_config`, and raise on the rest. Those are not modelled.
- Schedule.FormatSchedule: requires a day for weekly and biweekly configs. `None.capitalize()` raises there.
- Price.ParseFloat: `float()` is modelled for decimal literals only: an optional sign, digits, an optional point and digits, and surrounding whitespace. Exponents, `inf`/`nan`, underscores and non-ASCII digits are not modelled, and neither is binary floating-point rounding. Prices are reals. So a price that cleans to `inf`, `infinity` or `nan` (with or without a sign) is worth 0 in the model, whereas the source reads it as an infinity or NaN. An infinity or NaN would never be within a ceiling, except minus infinity, which is within every ceiling.
- Price.PriceOfWord: for `inf`, `nan` and `infinity` it states the model's 0, not the infinity or NaN the source's `float()` returns, as the `Price.ParseFloat` line says.
- Text.Lower: `lower()`/`capitalize()` map ASCII, the Latin-1 letters and the Polish letters only. Other characters are left unchanged, including those whose lower case is two characters. `ÿ`, `µ` and `ß` stay unchanged under upper-casing too. The capitals of the first two lie outside Latin-1, and `ß` upper-cases to the two characters `SS` (`'ß'.capitalize()` is `Ss`).
- Store.Database.CleanupOldDeals: `days` is a natural number. A negative count, which builds an unparseable SQLite modifier, is not modelled.
- Store.Database.CleanupCategoryDeals: `days` is a natural number, as for `CleanupOldDeals`. A negative count is not modelled.
- Store.Database.AddCategoryConfig: returns none only on a `(guild, slug)` conflict. The source's `except Exception: return None` path, for any other database error, is not modelled, since database errors are not.
- Store.Database.AddAlert: always returns true. The source returns false when the database raises, and database errors are not modelled.
- The 64-bit limits of SQLite integers are not modelled.
