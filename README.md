# truenas-jobs-caldav: the CRON to iCalendar translator, in Dafny

This project models the part of truenas-jobs-caldav that has real logic. That
part is `cron_to_ical`. It turns the five fields of a TrueNAS job's CRON
schedule into an iCalendar recurrence rule (an RRULE, section 3.3.10 of
RFC 5545). The rule has a frequency (MINUTELY … YEARLY) and one BY part for
each constrained field. The module also picks an IANA zone for the
zero-length event's anchor instant. The project also models the string
helpers the sync loop builds on:

- the CRON expression built from a schedule record;
- the calendar-event UID `truenas-<type>-<id>` and how the type is read back from it;
- the environment-variable validators behind `Options.from_env`.

Files, one module each:

- `wrappers.dfy`: `Option` and `Result` for Python's `None` returns and raised exceptions.
- `strings.dfy`: the Python string operations the code uses. These are `str.lower` (ASCII), `str.split`, `str(int)` and string ordering. A join serves only as the partner that `str.split` is proved against.
- `common.dfy`: `src/common.py`.
- `options.dfy`: `src/options.py`.
- `cron_to_ical.dfy`: `cron_to_ical.py`.

How the model reads the source:

- The CRON parser is a library. Its output is the input here: a list of parts, each with a `full` flag and its ascending values. A part list whose length is not five fails, as Python's tuple unpacking does. A part counts as falsy when it is missing or selects no value.
- The `options` dictionary keeps insertion order in Python. It is modelled as a sequence of key/value entries, and `Get` returns the first entry with a key. `BuildRule` fills it with one conditional insertion per field, as lines 71-84 do. `RRuleOf` is the rule as a value, and the method is proved equal to it.
- The zone scan is a loop that collects matching names (`ResolveZone`). `sorted(candidates)[0]` is taken as the least candidate under code-point order. That is the same element whatever order the table is in.
- `RuleMatchesCron` reads the rule back the way an RRULE is read. A BY part filters. A field that no BY part gives is derived from DTSTART, as section 3.3.10 of RFC 5545 prescribes. The lemma proves the rule selects exactly the instants the CRON fields select. This holds because the chosen frequency never leaves a field to be taken from the anchor (`NothingInherited`).

Two places where the code says more than, or other than, its comments:

- `dow_to_str` looks the day up in a seven-entry dictionary. A day-of-week value outside 0..6 raises `KeyError` (cron_to_ical.py:24, :80), and the model keeps that error path (`UnknownWeekday`).
- The anchor is `schedule.prev()` (cron_to_ical.py:89), the previous occurrence, although the comments at cron_to_ical.py:38 and :86 speak of the next start. The model takes the anchor as an opaque input either way.

## Model

| member | source | states |
|---|---|---|
| `Strings.Lower` | src/common.py:15 | `str.lower` folds each character and keeps the length |
| `Strings.LowerIsLower` | src/common.py:20 | a lower-cased string is lower case, so lowering again changes nothing |
| `Strings.Split` | src/common.py:18 | `str.split('-')` gives at least one piece and no piece holds the separator |
| `Strings.JoinSplit` | src/common.py:18 | joining the pieces of a split with the separator gives back the string |
| `Strings.SplitFirst` | src/common.py:18 | a string split at its first separator starts with the piece before it |
| `Strings.NatToString` | src/common.py:15 | the decimal digits of a non-negative id: "0" for zero, otherwise no leading zero, and they read back as that number |
| `Strings.IntToString` | src/common.py:15 | `str(id)` starts with '-' exactly for negative ids, then holds at least one digit with no leading zero unless it is the single "0", and reads back as the id, so the text is Python's |
| `Strings.IntToStringInjective` | src/common.py:15 | two ids print alike only when they are equal |
| `Strings.LessEq` | cron_to_ical.py:106 | Python's `<=` on strings, by code point with a proper prefix first (no contract of its own; its order lemmas follow) |
| `Strings.LessEqTotal` | cron_to_ical.py:106 | any two zone names are ordered one way or the other |
| `Strings.LessEqTransitive` | cron_to_ical.py:106 | the string order is transitive |
| `Strings.LessEqReflexive` | cron_to_ical.py:106 | every zone name is ordered before or at itself |
| `Strings.LessEqAntisymmetric` | cron_to_ical.py:106 | two names ordered both ways are equal |
| `Strings.LeastUnique` | cron_to_ical.py:104-106 | the least candidate is unique, so the zone pick is deterministic |
| `Common.ScheduleToCronString` | src/common.py:11-12 | the five fields joined by single spaces in order minute, hour, dom, month, dow; a missing minute reads "0"; it fails exactly when hour, dom, month or dow is missing |
| `Common.CronStringFields` | src/common.py:11-12 | with no space inside any of the five fields, the expression splits back into exactly its five fields in order |
| `Common.CreateItemUid` | src/common.py:14-15 | the UID is "truenas-", the lower-cased type, "-" and the decimal id, at fixed positions |
| `Common.ParseItemTypeFromUid` | src/common.py:17-21 | a type exactly when there are at least three dash-pieces and the first is "truenas"; the type is the second piece lower-cased; otherwise None |
| `Common.ParsedTypeIsLower` | src/common.py:20 | a parsed type is lower case, so lowering it again changes nothing |
| `Common.ParsedUidShape` | src/common.py:17-21 | every UID that parses is "truenas-", a dash-free piece, "-" and a remainder, and the type is that piece lower-cased |
| `Common.ParseShapedUid` | src/common.py:17-21 | every string of that shape parses to its piece lower-cased, whatever the remainder |
| `Common.UidRoundTrip` | src/common.py:14-21 | for a type without '-', parsing the UID built for it gives the lower-cased type, for every id including negative ones |
| `Common.UidInjective` | src/main.py:81-84 | two dash-free item types share a UID only for the same type up to case and the same id, so the earlier-event lookup and the saved-UID set single out one item |
| `Common.ItemTypesSeparate` | src/common.py:5-9 | the five job kinds hold no '-' and lower-case to five different strings, so the type filter of src/main.py:144 keeps kinds apart |
| `EnvOptions.Lookup` | src/options.py:31 | `os.environ.get(name, "")`: the variable's value, empty when unset (no contract of its own) |
| `EnvOptions.ParseString` | src/options.py:30-38 | a non-empty value is returned as it is; an empty or absent one is an error exactly when required, and the default otherwise |
| `EnvOptions.ParseBool` | src/options.py:41-52 | "true"/"yes" give true and "false"/"no" give false in any case; empty gives the default or the required error; any other text is an error naming it |
| `EnvOptions.ParseBoolIgnoresCase` | src/options.py:43-47 | two values that lower-case alike are accepted alike and read alike |
| `EnvOptions.OptionalBoolFails` | src/options.py:41-52 | an optional switch fails exactly on a non-empty value that is not boolean text |
| `EnvOptions.CompileRegex` | src/options.py:55-60 | no filter exactly when the variable is empty or absent; otherwise the variable's pattern |
| `EnvOptions.FromEnv` | src/options.py:87-131 | on success the six required settings are the environment's values, each switch is its `parse_bool` reading with default true, each filter its `compile_regex` result and each duration its `parse_string` reading with its default |
| `EnvOptions.FromEnvSteps` | src/options.py:89-101 | `from_env` gets through exactly when each required read and each boolean read does |
| `EnvOptions.FromEnvSucceeds` | src/options.py:88-109 | success exactly when every required variable is set and every boolean switch is empty or boolean text |
| `EnvOptions.FromEnvFailure` | src/options.py:89-101 | an error names an empty required variable, or quotes a switch value that is not boolean text |
| `EnvOptions.FromEnvDefaults` | src/options.py:95-109 | for each optional variable on its own: unset means SSL verified, the kind included, no filter, backoff "15 minutes", interval "1 hour"; a set filter or duration holds the variable's text |
| `EnvOptions.ExcludedKind` | src/options.py:99 | `INCLUDE_SCRUBS=no`, in any case, leaves scrubs out |
| `CronToICal.FrequencyNamed` | cron_to_ical.py:12-17 | a FREQ text names a frequency only when it is that frequency's name |
| `CronToICal.FreqNameRoundTrip` | cron_to_ical.py:12-17 | reading a frequency's name back gives the frequency |
| `CronToICal.SelectFrequency` | cron_to_ical.py:47-69 | the first-match-wins chain as six disjoint cases: minute full gives MINUTELY; else hour full gives HOURLY; else both day fields full gives DAILY; only dom full gives WEEKLY; dom constrained with dow full or month full gives MONTHLY; otherwise YEARLY |
| `CronToICal.DowToStr` | cron_to_ical.py:20-24 | defined exactly on 0..6 with two-letter codes |
| `CronToICal.DowRoundTrip` | cron_to_ical.py:20-24 | the table and its inverse agree both ways (0 SU … 6 SA) |
| `CronToICal.DowToStrInjective` | cron_to_ical.py:20-24 | two days with the same code are the same day |
| `CronToICal.DaysOf` | cron_to_ical.py:80 | mapping days to codes succeeds exactly when every day is in 0..6, keeps length and order, and otherwise fails on a day outside the range |
| `CronToICal.RRuleOf` | cron_to_ical.py:47-84 | the rule for five present parts: it fails exactly on a constrained day of week outside 0..6; otherwise FREQ first, with the chosen frequency, and one entry per constrained field |
| `CronToICal.Translate` | cron_to_ical.py:41-84 | a part list not of length five fails with its count; success needs five present parts and puts FREQ first |
| `CronToICal.GetAppend` | cron_to_ical.py:71-84 | a key is found in earlier entries before later ones |
| `CronToICal.GetAssembled` | cron_to_ical.py:75-84 | among the BY parts a key finds its own field's values exactly when that field is constrained |
| `CronToICal.AppendInKeyOrder` | cron_to_ical.py:75-84 | inserting a key ranked after every present key keeps the insertion order |
| `CronToICal.AssembledInKeyOrder` | cron_to_ical.py:71-84 | the keys come as FREQ, BYMINUTE, BYHOUR, BYDAY, BYMONTHDAY, BYMONTH, none twice |
| `CronToICal.RRuleParts` | cron_to_ical.py:71-84 | FREQ is the chosen frequency; each BY key is present exactly when its field is not full and holds its values unchanged (BYDAY mapped element-wise); 1 + constrained-count entries in insertion order |
| `CronToICal.FrequencyConsequences` | cron_to_ical.py:49-84 | MINUTELY lacks BYMINUTE; HOURLY has BYMINUTE, not BYHOUR; DAILY lacks BYDAY and BYMONTHDAY; WEEKLY has BYDAY, not BYMONTHDAY; MONTHLY has BYMONTHDAY and never BYDAY with BYMONTH; YEARLY has BYDAY, BYMONTHDAY and BYMONTH |
| `CronToICal.TranslateFails` | cron_to_ical.py:41-45 | the call fails exactly when there are not five parts, a part is missing or empty, or a constrained day of week holds a value outside 0..6 |
| `CronToICal.NothingInherited` | cron_to_ical.py:47-84 | the chosen frequency leaves no field for DTSTART to supply |
| `CronToICal.RuleMatchesCron` | cron_to_ical.py:36-39 | for every anchor, the rule selects an instant exactly when the CRON fields do |
| `CronToICal.Candidates` | cron_to_ical.py:94-102 | the matching names: no more names than zones, each the name of a matching zone |
| `CronToICal.CandidatesMembers` | cron_to_ical.py:94-102 | a name is a candidate exactly when some zone of that name matches both the local offset and the local DST |
| `CronToICal.ResolveZone` | cron_to_ical.py:93-109 | none exactly when no zone matches; otherwise the least matching name |
| `CronToICal.BuildRule` | cron_to_ical.py:47-84 | the dictionary built by conditional insertions equals the rule `RRuleOf` describes, including the weekday error |
| `CronToICal.CronToIcal` | cron_to_ical.py:34-111 | fails exactly as `Translate` does; otherwise the rule is `Translate`'s; start equals end and is the anchor's wall time; the zone is the least matching name, or the original zone exactly when none matches |
| `CronToICal.TestEveryMinute` | src/test_cron-to-ical.py:4-7 | "* * * * *" gives only FREQ=MINUTELY |
| `CronToICal.TestEvery30Minutes` | src/test_cron-to-ical.py:10-14 | "0,30 * * * *" gives HOURLY with BYMINUTE [0, 30] |
| `CronToICal.TestEvery30MinutesInHour2` | src/test_cron-to-ical.py:17-22 | "0,30 2 * * *" gives DAILY with BYMINUTE [0, 30] and BYHOUR [2] |
| `CronToICal.TestTopOfEveryHourInMay` | src/test_cron-to-ical.py:25-30 | "0 * * 5 *" gives HOURLY with BYMINUTE [0] and BYMONTH [5] |
| `CronToICal.TestEveryTuesdayAtNoon` | src/test_cron-to-ical.py:33-39 | "0 12 * * tue" gives WEEKLY with BYMINUTE [0], BYHOUR [12], BYDAY [TU] |
| `CronToICal.TestMayToJuly21Or22AtNoonOnFriday` | src/test_cron-to-ical.py:42-50 | "0 12 21,22 5-7 fri" gives YEARLY with all five BY parts |
| `CronToICal.TestRandomDaysOfMonthAtMidnight` | src/test_cron-to-ical.py:53-59 | "0 0 1,5,10,20,25 * *" gives MONTHLY with BYMINUTE, BYHOUR, BYMONTHDAY |
| `CronToICal.TestEveryOtherDayOfMonthAtMidnight` | src/test_cron-to-ical.py:62-68 | "0 0 */2 * *" gives MONTHLY with the odd days as BYMONTHDAY |
| `CronToICal.TestEvery10Minutes` | src/test_cron-to-ical.py:71-75 | "*/10 * * * *" gives HOURLY with BYMINUTE [0, 10, …, 50] |

## Left out

- The CRON parser (`Cron(...)`, `parts`, `is_full`, `to_list`) is a library and is not modelled. Its parse errors for malformed expressions are not modelled either. The model starts from the parts it returns.
- The schedule evaluator (`schedule(...).prev()`) is a library. Its instant is the opaque `anchor` input. Whether "previous" or "next" is meant is not decided here.
- The clock and the zone database (`datetime.now`, `tz.gettz(time.tzname[...])`, `available_timezones`, `ZoneInfo` offsets) are inputs. They are the local offset and DST, each possibly absent, and a table of (name, offset, DST) records.
- The warning logged when no zone matches is not modelled. It shows up only as the anchor keeping its original zone.
- `re.compile` and `Duration` are libraries. A filter is kept as its pattern text and a duration as its text. Invalid patterns and durations, which raise there, are not modelled.
- Strings.Lower: folds only ASCII letters, where Python's `str.lower` folds all of Unicode.
- `RuleMatchesCron` looks at the five calendar fields of an instant. It ignores seconds and whether a date exists. It reads day of month and day of week as both applying when both are constrained, as RRULE filters do. How the CRON evaluator combines them is not part of this model.
- Common.ScheduleToCronString: says only that a missing key is reported, not that the first missing key in the order hour, dom, month, dow is the one named.
- `src/main.py` and `main.py` are not part of this model: the CalDAV and TrueNAS clients, calendar lookup and creation, event saving and deletion, the stale-event set difference and the retry loop. The helpers repeated at main.py:18-22 are the ones in `src/common.py` and are modelled once.
- `aio_management.py` is not part of this model. It writes configuration files and starts processes.
