/**
 * The CRON to iCalendar recurrence translator. Five parsed CRON fields become
 * an RRULE (section 3.3.10 of RFC 5545): a frequency chosen by a fixed
 * first-match-wins chain and one BY part per constrained field. The anchor
 * occurrence is tagged with the least named zone whose offset and DST match
 * the local ones.
 */
module CronToICal {
  import opened Wrappers
  import opened Strings

  // ---------------------------------------------------------------------------
  // Input: the five fields the CRON parser produces

  /** One parsed CRON field: whether it spans its whole range, and its ascending values. */
  datatype CronPart = CronPart(full: bool, values: seq<int>)

  /** A part counts as given when the parser produced it and it selects at least one value. */
  predicate Present(p: Option<CronPart>) {
    p.Some? && |p.value.values| > 0
  }

  datatype CronFields = CronFields(minute: CronPart, hour: CronPart, dom: CronPart, month: CronPart, dow: CronPart)

  /**
   * Unpacking a part list of the wrong length, a missing or empty part, and a
   * day-of-week value the weekday table has no entry for.
   */
  datatype TranslateError = WrongPartCount(count: nat) | InvalidExpression | UnknownWeekday(day: int)

  // ---------------------------------------------------------------------------
  // Frequencies and weekday codes

  datatype Frequency = Minutely | Hourly | Daily | Weekly | Monthly | Yearly

  function FreqName(f: Frequency): string {
    match f
    case Minutely => "MINUTELY"
    case Hourly => "HOURLY"
    case Daily => "DAILY"
    case Weekly => "WEEKLY"
    case Monthly => "MONTHLY"
    case Yearly => "YEARLY"
  }

  /** The frequency an RRULE's FREQ text names, if any. */
  function FrequencyNamed(name: string): (r: Option<Frequency>)
    ensures r.Some? ==> FreqName(r.value) == name
  {
    if name == "MINUTELY" then Some(Minutely)
    else if name == "HOURLY" then Some(Hourly)
    else if name == "DAILY" then Some(Daily)
    else if name == "WEEKLY" then Some(Weekly)
    else if name == "MONTHLY" then Some(Monthly)
    else if name == "YEARLY" then Some(Yearly)
    else None
  }

  lemma FreqNameRoundTrip(f: Frequency)
    ensures FrequencyNamed(FreqName(f)) == Some(f)
  {
  }

  /**
   * The frequency chain: every minute needs MINUTELY; otherwise every hour needs
   * HOURLY; otherwise both day fields unconstrained is DAILY, only weekdays
   * constrained is WEEKLY, only days of the month constrained is MONTHLY, both
   * constrained is MONTHLY in every month and YEARLY otherwise. The six outcomes
   * are the six disjoint cases below.
   */
  function SelectFrequency(f: CronFields): (freq: Frequency)
    ensures freq == Minutely <==> f.minute.full
    ensures freq == Hourly <==> !f.minute.full && f.hour.full
    ensures freq == Daily <==> !f.minute.full && !f.hour.full && f.dow.full && f.dom.full
    ensures freq == Weekly <==> !f.minute.full && !f.hour.full && !f.dow.full && f.dom.full
    ensures freq == Monthly <==> !f.minute.full && !f.hour.full && !f.dom.full && (f.dow.full || f.month.full)
    ensures freq == Yearly <==> !f.minute.full && !f.hour.full && !f.dom.full && !f.dow.full && !f.month.full
  {
    if f.minute.full then Minutely
    else if f.hour.full then Hourly
    else if f.dow.full && f.dom.full then Daily
    else if !f.dow.full && f.dom.full then Weekly
    else if f.dow.full && !f.dom.full then Monthly
    else if f.month.full then Monthly
    else Yearly
  }

  /** `dow_to_str`: 0 is Sunday through 6 Saturday; any other key raises. */
  function DowToStr(d: int): (r: Option<string>)
    ensures r.Some? <==> 0 <= d <= 6
    ensures r.Some? ==> |r.value| == 2
  {
    if d == 0 then Some("SU")
    else if d == 1 then Some("MO")
    else if d == 2 then Some("TU")
    else if d == 3 then Some("WE")
    else if d == 4 then Some("TH")
    else if d == 5 then Some("FR")
    else if d == 6 then Some("SA")
    else None
  }

  /** The inverse table: the day number a two-letter code stands for. */
  function DowFromStr(code: string): Option<int> {
    if code == "SU" then Some(0)
    else if code == "MO" then Some(1)
    else if code == "TU" then Some(2)
    else if code == "WE" then Some(3)
    else if code == "TH" then Some(4)
    else if code == "FR" then Some(5)
    else if code == "SA" then Some(6)
    else None
  }

  /** The two tables are inverse to each other, so `dow_to_str` is injective. */
  lemma DowRoundTrip(d: int, code: string)
    ensures DowToStr(d) == Some(code) <==> DowFromStr(code) == Some(d)
  {
  }

  lemma DowToStrInjective(d: int, e: int)
    requires DowToStr(d).Some? && DowToStr(d) == DowToStr(e)
    ensures d == e
  {
    DowRoundTrip(d, DowToStr(d).value);
    DowRoundTrip(e, DowToStr(d).value);
  }

  /** `days` is `dows` mapped element-wise through `dow_to_str`. */
  predicate DaysMatch(days: seq<string>, dows: seq<int>) {
    |days| == |dows| && forall i :: 0 <= i < |dows| ==> DowToStr(dows[i]) == Some(days[i])
  }

  /**
   * `list(map(dow_to_str, dows))`: the codes in the same order, or the first
   * value the table has no entry for.
   */
  function DaysOf(dows: seq<int>): (r: Result<seq<string>, TranslateError>)
    ensures r.Success? <==> forall i :: 0 <= i < |dows| ==> 0 <= dows[i] <= 6
    ensures r.Success? ==> DaysMatch(r.value, dows)
    ensures r.Failure? ==> r.error.UnknownWeekday? && r.error.day in dows && !(0 <= r.error.day <= 6)
  {
    if dows == [] then Success([])
    else match DowToStr(dows[0])
      case None => Failure(UnknownWeekday(dows[0]))
      case Some(code) =>
        var rest :- DaysOf(dows[1..]);
        Success([code] + rest)
  }

  // ---------------------------------------------------------------------------
  // The recurrence rule: an insertion-ordered dictionary

  datatype RuleValue = Freq(name: string) | Numbers(ns: seq<int>) | Days(codes: seq<string>)

  datatype Entry = Entry(key: string, value: RuleValue)

  /** The rule's entries in insertion order, as Python's dict keeps them. */
  type RRule = seq<Entry>

  /** `rule.get(key)`. */
  function Get(rule: RRule, key: string): Option<RuleValue> {
    if rule == [] then None
    else if rule[0].key == key then Some(rule[0].value)
    else Get(rule[1..], key)
  }

  /** A single entry when the field is constrained, nothing otherwise. */
  function ByPart(constrained: bool, key: string, value: RuleValue): seq<Entry> {
    if constrained then [Entry(key, value)] else []
  }

  /** The number of constrained fields. */
  function ConstrainedCount(f: CronFields): nat {
    (if f.minute.full then 0 else 1) + (if f.hour.full then 0 else 1) + (if f.dow.full then 0 else 1)
      + (if f.dom.full then 0 else 1) + (if f.month.full then 0 else 1)
  }

  /**
   * The rule `cron_to_ical` builds for five given fields: FREQ, then BYMINUTE,
   * BYHOUR, BYDAY, BYMONTHDAY and BYMONTH for the constrained fields, in that order.
   */
  function RRuleOf(f: CronFields): (r: Result<RRule, TranslateError>)
    ensures r.Success? <==> f.dow.full || forall i :: 0 <= i < |f.dow.values| ==> 0 <= f.dow.values[i] <= 6
    ensures r.Failure? ==> r.error.UnknownWeekday? && r.error.day in f.dow.values && !(0 <= r.error.day <= 6)
    ensures r.Success? ==>
      |r.value| == 1 + ConstrainedCount(f) && r.value[0] == Entry("FREQ", Freq(FreqName(SelectFrequency(f))))
  {
    var days :- if f.dow.full then Success([]) else DaysOf(f.dow.values);
    Success(Assembled(f, days))
  }

  /** The whole translation on the parser's part list, with its error cases. */
  function Translate(parts: seq<Option<CronPart>>): (r: Result<RRule, TranslateError>)
    ensures |parts| != 5 ==> r == Failure(WrongPartCount(|parts|))
    ensures r.Success? ==> |parts| == 5 && forall i :: 0 <= i < 5 ==> Present(parts[i])
    ensures r.Success? ==> |r.value| >= 1 && r.value[0].key == "FREQ"
  {
    if |parts| != 5 then Failure(WrongPartCount(|parts|))
    else if !(Present(parts[0]) && Present(parts[1]) && Present(parts[2]) && Present(parts[3]) && Present(parts[4])) then
      Failure(InvalidExpression)
    else RRuleOf(CronFields(parts[0].value, parts[1].value, parts[2].value, parts[3].value, parts[4].value))
  }

  /** A key is looked up in the earlier entries first. */
  lemma {:induction false} GetAppend(a: RRule, b: RRule, key: string)
    ensures Get(a + b, key) == if Get(a, key).Some? then Get(a, key) else Get(b, key)
  {
    if a != [] {
      assert (a + b)[0] == a[0] && (a + b)[1..] == a[1..] + b;
      GetAppend(a[1..], b, key);
    } else {
      assert a + b == b;
    }
  }

  /** The entry a key finds among the BY parts: the one of its own field, if constrained. */
  function ExpectedBy(f: CronFields, days: seq<string>, key: string): Option<RuleValue> {
    if !f.minute.full && key == "BYMINUTE" then Some(Numbers(f.minute.values))
    else if !f.hour.full && key == "BYHOUR" then Some(Numbers(f.hour.values))
    else if !f.dow.full && key == "BYDAY" then Some(Days(days))
    else if !f.dom.full && key == "BYMONTHDAY" then Some(Numbers(f.dom.values))
    else if !f.month.full && key == "BYMONTH" then Some(Numbers(f.month.values))
    else None
  }

  /** The rule for the given weekday codes, as `RRuleOf` assembles it. */
  function Assembled(f: CronFields, days: seq<string>): RRule {
    [Entry("FREQ", Freq(FreqName(SelectFrequency(f))))]
    + ByPart(!f.minute.full, "BYMINUTE", Numbers(f.minute.values))
    + ByPart(!f.hour.full, "BYHOUR", Numbers(f.hour.values))
    + ByPart(!f.dow.full, "BYDAY", Days(days))
    + ByPart(!f.dom.full, "BYMONTHDAY", Numbers(f.dom.values))
    + ByPart(!f.month.full, "BYMONTH", Numbers(f.month.values))
  }

  lemma GetAssembled(f: CronFields, days: seq<string>, key: string)
    requires key != "FREQ"
    ensures Get(Assembled(f, days), key) == ExpectedBy(f, days, key)
  {
    var head := [Entry("FREQ", Freq(FreqName(SelectFrequency(f))))];
    var b1 := ByPart(!f.minute.full, "BYMINUTE", Numbers(f.minute.values));
    var b2 := ByPart(!f.hour.full, "BYHOUR", Numbers(f.hour.values));
    var b3 := ByPart(!f.dow.full, "BYDAY", Days(days));
    var b4 := ByPart(!f.dom.full, "BYMONTHDAY", Numbers(f.dom.values));
    var b5 := ByPart(!f.month.full, "BYMONTH", Numbers(f.month.values));
    GetAppend(head + b1 + b2 + b3 + b4, b5, key);
    GetAppend(head + b1 + b2 + b3, b4, key);
    GetAppend(head + b1 + b2, b3, key);
    GetAppend(head + b1, b2, key);
    GetAppend(head, b1, key);
  }

  /** The position of a key in the order `cron_to_ical` inserts them. */
  function KeyRank(key: string): int {
    if key == "FREQ" then 0
    else if key == "BYMINUTE" then 1
    else if key == "BYHOUR" then 2
    else if key == "BYDAY" then 3
    else if key == "BYMONTHDAY" then 4
    else if key == "BYMONTH" then 5
    else 6
  }

  /** Keys strictly in insertion order, hence pairwise distinct. */
  predicate InKeyOrder(rule: RRule) {
    forall i, j :: 0 <= i < j < |rule| ==> KeyRank(rule[i].key) < KeyRank(rule[j].key)
  }

  predicate RanksBelow(rule: RRule, bound: int) {
    forall i :: 0 <= i < |rule| ==> KeyRank(rule[i].key) < bound
  }

  lemma AppendInKeyOrder(a: RRule, constrained: bool, key: string, v: RuleValue)
    requires InKeyOrder(a) && RanksBelow(a, KeyRank(key))
    ensures InKeyOrder(a + ByPart(constrained, key, v))
    ensures RanksBelow(a + ByPart(constrained, key, v), KeyRank(key) + 1)
  {
    if !constrained {
      assert a + ByPart(constrained, key, v) == a;
    }
  }

  /** Every rule lists FREQ, BYMINUTE, BYHOUR, BYDAY, BYMONTHDAY, BYMONTH in that order, none twice. */
  lemma AssembledInKeyOrder(f: CronFields, days: seq<string>)
    ensures InKeyOrder(Assembled(f, days))
    ensures forall i, j :: 0 <= i < j < |Assembled(f, days)| ==> Assembled(f, days)[i].key != Assembled(f, days)[j].key
  {
    var head := [Entry("FREQ", Freq(FreqName(SelectFrequency(f))))];
    var b1 := ByPart(!f.minute.full, "BYMINUTE", Numbers(f.minute.values));
    var b2 := ByPart(!f.hour.full, "BYHOUR", Numbers(f.hour.values));
    var b3 := ByPart(!f.dow.full, "BYDAY", Days(days));
    var b4 := ByPart(!f.dom.full, "BYMONTHDAY", Numbers(f.dom.values));
    AppendInKeyOrder(head, !f.minute.full, "BYMINUTE", Numbers(f.minute.values));
    AppendInKeyOrder(head + b1, !f.hour.full, "BYHOUR", Numbers(f.hour.values));
    AppendInKeyOrder(head + b1 + b2, !f.dow.full, "BYDAY", Days(days));
    AppendInKeyOrder(head + b1 + b2 + b3, !f.dom.full, "BYMONTHDAY", Numbers(f.dom.values));
    AppendInKeyOrder(head + b1 + b2 + b3 + b4, !f.month.full, "BYMONTH", Numbers(f.month.values));
  }

  /**
   * The shape of every rule produced: FREQ names the chosen frequency; each BY
   * part is present exactly when its field is constrained and then holds the
   * field's values unchanged, BYDAY as weekday codes in the same order; the keys
   * come in insertion order, none twice; and the rule has one entry plus one per
   * constrained field.
   */
  lemma {:induction false} RRuleParts(f: CronFields)
    requires RRuleOf(f).Success?
    ensures Get(RRuleOf(f).value, "FREQ") == Some(Freq(FreqName(SelectFrequency(f))))
    ensures Get(RRuleOf(f).value, "BYMINUTE") == if f.minute.full then None else Some(Numbers(f.minute.values))
    ensures Get(RRuleOf(f).value, "BYHOUR") == if f.hour.full then None else Some(Numbers(f.hour.values))
    ensures Get(RRuleOf(f).value, "BYMONTHDAY") == if f.dom.full then None else Some(Numbers(f.dom.values))
    ensures Get(RRuleOf(f).value, "BYMONTH") == if f.month.full then None else Some(Numbers(f.month.values))
    ensures Get(RRuleOf(f).value, "BYDAY").None? <==> f.dow.full
    ensures Get(RRuleOf(f).value, "BYDAY").Some? ==>
      Get(RRuleOf(f).value, "BYDAY").value.Days? && DaysMatch(Get(RRuleOf(f).value, "BYDAY").value.codes, f.dow.values)
    ensures |RRuleOf(f).value| == 1 + ConstrainedCount(f)
    ensures InKeyOrder(RRuleOf(f).value)
  {
    var days := if f.dow.full then [] else DaysOf(f.dow.values).value;
    assert RRuleOf(f).value == Assembled(f, days);
    GetAssembled(f, days, "BYMINUTE");
    GetAssembled(f, days, "BYHOUR");
    GetAssembled(f, days, "BYDAY");
    GetAssembled(f, days, "BYMONTHDAY");
    GetAssembled(f, days, "BYMONTH");
    AssembledInKeyOrder(f, days);
  }

  predicate Has(rule: RRule, key: string) {
    Get(rule, key).Some?
  }

  /**
   * What each frequency carries: MINUTELY never BYMINUTE; HOURLY always BYMINUTE
   * and never BYHOUR; DAILY neither BYDAY nor BYMONTHDAY; WEEKLY BYDAY but not
   * BYMONTHDAY (a pairing section 3.3.10 of RFC 5545 does not allow); MONTHLY
   * BYMONTHDAY, and BYMONTH only without BYDAY; YEARLY BYDAY, BYMONTHDAY and
   * BYMONTH. Every frequency above HOURLY carries BYMINUTE and BYHOUR.
   */
  lemma FrequencyConsequences(f: CronFields)
    requires RRuleOf(f).Success?
    ensures var rule, freq := RRuleOf(f).value, SelectFrequency(f);
      && (freq == Minutely ==> !Has(rule, "BYMINUTE"))
      && (freq == Hourly ==> Has(rule, "BYMINUTE") && !Has(rule, "BYHOUR"))
      && (freq != Minutely && freq != Hourly ==> Has(rule, "BYMINUTE") && Has(rule, "BYHOUR"))
      && (freq == Daily ==> !Has(rule, "BYDAY") && !Has(rule, "BYMONTHDAY"))
      && (freq == Weekly ==> Has(rule, "BYDAY") && !Has(rule, "BYMONTHDAY"))
      && (freq == Monthly ==> Has(rule, "BYMONTHDAY") && !(Has(rule, "BYDAY") && Has(rule, "BYMONTH")))
      && (freq == Yearly ==> Has(rule, "BYDAY") && Has(rule, "BYMONTHDAY") && Has(rule, "BYMONTH"))
  {
    RRuleParts(f);
  }

  /**
   * The call fails exactly when the part list does not have five entries, some
   * part is missing or selects nothing, or a constrained day of week holds a
   * value outside 0..6.
   */
  lemma TranslateFails(parts: seq<Option<CronPart>>)
    ensures Translate(parts).Failure? <==>
      || |parts| != 5
      || (exists i :: 0 <= i < |parts| && !Present(parts[i]))
      || (!parts[4].value.full && exists d :: d in parts[4].value.values && !(0 <= d <= 6))
  {
    if |parts| == 5 && forall i :: 0 <= i < 5 ==> Present(parts[i]) {
      var f := CronFields(parts[0].value, parts[1].value, parts[2].value, parts[3].value, parts[4].value);
      if !f.dow.full && DaysOf(f.dow.values).Failure? {
        var d := DaysOf(f.dow.values).error.day;
        assert d in f.dow.values && !(0 <= d <= 6);
      }
    }
  }

  // ---------------------------------------------------------------------------
  // Reading the rule back: the instants it selects

  /** The calendar fields of one candidate instant (minute, hour, day of month, month, weekday 0..6). */
  datatype Moment = Moment(minute: int, hour: int, dom: int, month: int, dow: int)

  predicate PartAllows(p: CronPart, x: int) {
    p.full || x in p.values
  }

  /** The CRON reading: every field either unconstrained or holding the instant's value. */
  predicate CronSelects(f: CronFields, t: Moment) {
    PartAllows(f.minute, t.minute) && PartAllows(f.hour, t.hour) && PartAllows(f.dom, t.dom)
      && PartAllows(f.month, t.month) && PartAllows(f.dow, t.dow)
  }

  datatype CalField = MinuteField | HourField | DomField | MonthField | DowField

  function FieldValue(t: Moment, field: CalField): int {
    match field
    case MinuteField => t.minute
    case HourField => t.hour
    case DomField => t.dom
    case MonthField => t.month
    case DowField => t.dow
  }

  /**
   * The fields an RRULE takes from its DTSTART because no BY part gives them
   * (section 3.3.10 of RFC 5545): the minute below MINUTELY, the hour below
   * HOURLY, and, when no BYDAY and no BYMONTHDAY is given, the weekday for
   * WEEKLY, the day of month for MONTHLY and YEARLY, and the month too for
   * YEARLY without BYMONTH.
   */
  function Inherited(freq: Frequency, rule: RRule): set<CalField> {
    var noDayRule := !Has(rule, "BYDAY") && !Has(rule, "BYMONTHDAY");
    (if freq != Minutely && !Has(rule, "BYMINUTE") then {MinuteField} else {})
    + (if freq != Minutely && freq != Hourly && !Has(rule, "BYHOUR") then {HourField} else {})
    + (if noDayRule && freq == Weekly then {DowField} else {})
    + (if noDayRule && (freq == Monthly || freq == Yearly) then {DomField} else {})
    + (if noDayRule && freq == Yearly && !Has(rule, "BYMONTH") then {MonthField} else {})
  }

  predicate NumbersAllow(rule: RRule, key: string, x: int) {
    match Get(rule, key)
    case None => true
    case Some(v) => v.Numbers? && x in v.ns
  }

  predicate DaysAllow(rule: RRule, d: int) {
    match Get(rule, "BYDAY")
    case None => true
    case Some(v) => v.Days? && DowToStr(d).Some? && DowToStr(d).value in v.codes
  }

  /**
   * The RRULE reading of a rule anchored at `start`: every BY part holds the
   * instant's value, and every inherited field agrees with the anchor's.
   */
  predicate RuleSelects(rule: RRule, start: Moment, t: Moment) {
    match Get(rule, "FREQ")
    case Some(Freq(name)) =>
      && FrequencyNamed(name).Some?
      && NumbersAllow(rule, "BYMINUTE", t.minute) && NumbersAllow(rule, "BYHOUR", t.hour)
      && DaysAllow(rule, t.dow) && NumbersAllow(rule, "BYMONTHDAY", t.dom)
      && NumbersAllow(rule, "BYMONTH", t.month)
      && forall field :: field in Inherited(FrequencyNamed(name).value, rule) ==>
           FieldValue(t, field) == FieldValue(start, field)
    case _ => false
  }

  /** The chosen frequency never leaves a field to be taken from the anchor. */
  lemma NothingInherited(f: CronFields)
    requires RRuleOf(f).Success?
    ensures Inherited(SelectFrequency(f), RRuleOf(f).value) == {}
  {
    RRuleParts(f);
  }

  /**
   * The translation keeps the schedule: whatever the anchor, the rule selects
   * an instant exactly when the CRON fields do (day of month and day of week
   * both applying when both are constrained, as RRULE filters do).
   */
  lemma RuleMatchesCron(f: CronFields, start: Moment, t: Moment)
    requires RRuleOf(f).Success?
    ensures RuleSelects(RRuleOf(f).value, start, t) <==> CronSelects(f, t)
  {
    var rule := RRuleOf(f).value;
    RRuleParts(f);
    NothingInherited(f);
    FreqNameRoundTrip(SelectFrequency(f));
    if !f.dow.full {
      var codes := Get(rule, "BYDAY").value.codes;
      if t.dow in f.dow.values {
        var i :| 0 <= i < |f.dow.values| && f.dow.values[i] == t.dow;
        assert DowToStr(t.dow).value == codes[i];
      }
      if DowToStr(t.dow).Some? && DowToStr(t.dow).value in codes {
        var i :| 0 <= i < |codes| && codes[i] == DowToStr(t.dow).value;
        DowToStrInjective(t.dow, f.dow.values[i]);
      }
    }
  }

  // ---------------------------------------------------------------------------
  // The anchor and its zone

  /** The local clock's UTC offset and DST amount, each absent when the zone lookup gave none. */
  datatype LocalClock = LocalClock(offset: Option<int>, dst: Option<int>)

  /** One named zone with its UTC offset and DST amount as of now. */
  datatype ZoneRecord = ZoneRecord(name: string, offset: int, dst: int)

  predicate Matches(z: ZoneRecord, local: LocalClock) {
    local.offset == Some(z.offset) && local.dst == Some(z.dst)
  }

  /** The names of the matching zones, in table order. */
  function Candidates(zones: seq<ZoneRecord>, local: LocalClock): (r: seq<string>)
    ensures |r| <= |zones|
    ensures forall n :: n in r ==> exists z :: z in zones && Matches(z, local) && z.name == n
  {
    if zones == [] then []
    else
      Candidates(zones[..|zones| - 1], local)
      + (if Matches(zones[|zones| - 1], local) then [zones[|zones| - 1].name] else [])
  }

  /** A name is a candidate exactly when some zone of that name matches. */
  lemma {:induction false} CandidatesMembers(zones: seq<ZoneRecord>, local: LocalClock, name: string)
    ensures name in Candidates(zones, local) <==> exists z :: z in zones && Matches(z, local) && z.name == name
  {
    if zones != [] {
      var init := zones[..|zones| - 1];
      CandidatesMembers(init, local, name);
      assert zones == init + [zones[|zones| - 1]];
    }
  }

  /**
   * The zone scan and `sorted(candidates)[0]`: the least matching name, or none
   * when no zone matches.
   */
  method ResolveZone(zones: seq<ZoneRecord>, local: LocalClock) returns (choice: Option<string>)
    ensures choice.None? <==> Candidates(zones, local) == []
    ensures choice.Some? ==> IsLeast(choice.value, Candidates(zones, local))
  {
    var candidates: seq<string> := [];
    var i := 0;
    while i < |zones|
      invariant 0 <= i <= |zones|
      invariant candidates == Candidates(zones[..i], local)
    {
      assert zones[..i + 1][..i] == zones[..i];
      if Matches(zones[i], local) {
        candidates := candidates + [zones[i].name];
      }
      i := i + 1;
    }
    assert zones[..|zones|] == zones;
    if |candidates| == 0 {
      return None;
    }
    var least := candidates[0];
    LessEqReflexive(least);
    var j := 1;
    while j < |candidates|
      invariant 1 <= j <= |candidates|
      invariant least in candidates
      invariant forall k :: 0 <= k < j ==> LessEq(least, candidates[k])
    {
      LessEqReflexive(candidates[j]);
      if !LessEq(least, candidates[j]) {
        LessEqTotal(least, candidates[j]);
        forall k | 0 <= k < j
          ensures LessEq(candidates[j], candidates[k])
        {
          LessEqTransitive(candidates[j], least, candidates[k]);
        }
        least := candidates[j];
      }
      j := j + 1;
    }
    assert forall x :: x in candidates ==> LessEq(least, x);
    return Some(least);
  }

  /** The anchor's zone: the named zone chosen, or the original local one. */
  datatype ZoneTag = Original | Iana(name: string)

  /** A wall-clock instant from the schedule evaluator, with its zone. */
  datatype Instant = Instant(wall: int, zone: ZoneTag)

  datatype ICalResult = ICalResult(start: Instant, end: Instant, rrule: RRule)

  /**
   * Lines 47-84 of `cron_to_ical`: the frequency, then the `options` dictionary
   * filled in one conditional insertion at a time.
   */
  method BuildRule(f: CronFields) returns (r: Result<RRule, TranslateError>)
    ensures r == RRuleOf(f)
  {
    var frequency := SelectFrequency(f);
    var head := [Entry("FREQ", Freq(FreqName(frequency)))];
    var options: RRule := head;
    if !f.minute.full {
      options := options + [Entry("BYMINUTE", Numbers(f.minute.values))];
    }
    ghost var b1 := ByPart(!f.minute.full, "BYMINUTE", Numbers(f.minute.values));
    assert options == head + b1;
    if !f.hour.full {
      options := options + [Entry("BYHOUR", Numbers(f.hour.values))];
    }
    ghost var b2 := ByPart(!f.hour.full, "BYHOUR", Numbers(f.hour.values));
    assert options == head + b1 + b2;
    var days: seq<string> := [];
    if !f.dow.full {
      var mapped := DaysOf(f.dow.values);
      if mapped.Failure? {
        return Failure(mapped.error);
      }
      days := mapped.value;
      options := options + [Entry("BYDAY", Days(days))];
    }
    ghost var b3 := ByPart(!f.dow.full, "BYDAY", Days(days));
    assert options == head + b1 + b2 + b3;
    if !f.dom.full {
      options := options + [Entry("BYMONTHDAY", Numbers(f.dom.values))];
    }
    ghost var b4 := ByPart(!f.dom.full, "BYMONTHDAY", Numbers(f.dom.values));
    assert options == head + b1 + b2 + b3 + b4;
    if !f.month.full {
      options := options + [Entry("BYMONTH", Numbers(f.month.values))];
    }
    ghost var b5 := ByPart(!f.month.full, "BYMONTH", Numbers(f.month.values));
    assert options == head + b1 + b2 + b3 + b4 + b5;
    assert options == Assembled(f, days);
    return Success(options);
  }

  /**
   * `cron_to_ical` on the parser's parts, the previous occurrence `anchor` the
   * schedule evaluator returned, the local clock and the zone table. The rule is
   * built entry by entry; start and end are the same instant, moved to the least
   * matching named zone when there is one (the wall time is kept) and left in
   * the original zone otherwise.
   */
  method CronToIcal(parts: seq<Option<CronPart>>, anchor: int, local: LocalClock, zones: seq<ZoneRecord>)
    returns (r: Result<ICalResult, TranslateError>)
    ensures r.Failure? <==> Translate(parts).Failure?
    ensures r.Failure? ==> r.error == Translate(parts).error
    ensures r.Success? ==> r.value.rrule == Translate(parts).value
    ensures r.Success? ==> r.value.start == r.value.end && r.value.start.wall == anchor
    ensures r.Success? ==> (r.value.start.zone == Original <==> Candidates(zones, local) == [])
    ensures r.Success? && r.value.start.zone.Iana? ==> IsLeast(r.value.start.zone.name, Candidates(zones, local))
  {
    if |parts| != 5 {
      return Failure(WrongPartCount(|parts|));
    }
    var minute, hour, dom, month, dow := parts[0], parts[1], parts[2], parts[3], parts[4];
    if !Present(minute) || !Present(hour) || !Present(dom) || !Present(month) || !Present(dow) {
      return Failure(InvalidExpression);
    }
    var f := CronFields(minute.value, hour.value, dom.value, month.value, dow.value);
    assert Translate(parts) == RRuleOf(f);
    var rule := BuildRule(f);
    if rule.Failure? {
      return Failure(rule.error);
    }
    var options := rule.value;

    var zone := ResolveZone(zones, local);
    var start := Instant(anchor, if zone.Some? then Iana(zone.value) else Original);
    return Success(ICalResult(start, start, options));
  }

  // ---------------------------------------------------------------------------
  // The expressions of the repository's unit tests

  /** A field written `*`: it spans `lo..hi`. */
  function Wildcard(lo: int, hi: int): (p: CronPart)
    requires lo <= hi
    ensures p.full && |p.values| == hi - lo + 1
  {
    CronPart(true, seq(hi - lo + 1, i => lo + i))
  }

  function Listed(values: seq<int>): CronPart {
    CronPart(false, values)
  }

  /** The rule for fields whose weekday codes are already known, as the tests below read it. */
  lemma RRuleOfDays(f: CronFields, days: seq<string>)
    requires if f.dow.full then days == [] else DaysOf(f.dow.values) == Success(days)
    ensures RRuleOf(f) == Success(Assembled(f, days))
  {
  }

  // "* * * * *"
  lemma TestEveryMinute()
    ensures RRuleOf(CronFields(Wildcard(0, 59), Wildcard(0, 23), Wildcard(1, 31), Wildcard(1, 12), Wildcard(0, 6)))
      == Success([Entry("FREQ", Freq("MINUTELY"))])
  {
    var f := CronFields(Wildcard(0, 59), Wildcard(0, 23), Wildcard(1, 31), Wildcard(1, 12), Wildcard(0, 6));
    assert SelectFrequency(f) == Minutely;
    assert Assembled(f, []) == [Entry("FREQ", Freq("MINUTELY"))];
    RRuleOfDays(f, []);
  }

  // "0,30 * * * *"
  lemma TestEvery30Minutes()
    ensures RRuleOf(CronFields(Listed([0, 30]), Wildcard(0, 23), Wildcard(1, 31), Wildcard(1, 12), Wildcard(0, 6)))
      == Success([Entry("FREQ", Freq("HOURLY")), Entry("BYMINUTE", Numbers([0, 30]))])
  {
    var f := CronFields(Listed([0, 30]), Wildcard(0, 23), Wildcard(1, 31), Wildcard(1, 12), Wildcard(0, 6));
    assert SelectFrequency(f) == Hourly;
    assert Assembled(f, []) == [Entry("FREQ", Freq("HOURLY")), Entry("BYMINUTE", Numbers([0, 30]))];
    RRuleOfDays(f, []);
  }

  // "0,30 2 * * *"
  lemma TestEvery30MinutesInHour2()
    ensures RRuleOf(CronFields(Listed([0, 30]), Listed([2]), Wildcard(1, 31), Wildcard(1, 12), Wildcard(0, 6)))
      == Success([Entry("FREQ", Freq("DAILY")), Entry("BYMINUTE", Numbers([0, 30])), Entry("BYHOUR", Numbers([2]))])
  {
    var f := CronFields(Listed([0, 30]), Listed([2]), Wildcard(1, 31), Wildcard(1, 12), Wildcard(0, 6));
    assert SelectFrequency(f) == Daily;
    assert Assembled(f, []) == [Entry("FREQ", Freq("DAILY")), Entry("BYMINUTE", Numbers([0, 30])), Entry("BYHOUR", Numbers([2]))];
    RRuleOfDays(f, []);
  }

  // "0 * * 5 *"
  lemma TestTopOfEveryHourInMay()
    ensures RRuleOf(CronFields(Listed([0]), Wildcard(0, 23), Wildcard(1, 31), Listed([5]), Wildcard(0, 6)))
      == Success([Entry("FREQ", Freq("HOURLY")), Entry("BYMINUTE", Numbers([0])), Entry("BYMONTH", Numbers([5]))])
  {
    var f := CronFields(Listed([0]), Wildcard(0, 23), Wildcard(1, 31), Listed([5]), Wildcard(0, 6));
    assert SelectFrequency(f) == Hourly;
    assert Assembled(f, []) == [Entry("FREQ", Freq("HOURLY")), Entry("BYMINUTE", Numbers([0])), Entry("BYMONTH", Numbers([5]))];
    RRuleOfDays(f, []);
  }

  // "0 12 * * tue"
  lemma TestEveryTuesdayAtNoon()
    ensures RRuleOf(CronFields(Listed([0]), Listed([12]), Wildcard(1, 31), Wildcard(1, 12), Listed([2])))
      == Success([Entry("FREQ", Freq("WEEKLY")), Entry("BYMINUTE", Numbers([0])), Entry("BYHOUR", Numbers([12])),
                  Entry("BYDAY", Days(["TU"]))])
  {
    var f := CronFields(Listed([0]), Listed([12]), Wildcard(1, 31), Wildcard(1, 12), Listed([2]));
    assert [2][1..] == [] && DowToStr(2) == Some("TU");
    assert DaysOf([]) == Success([]) && ["TU"] + [] == ["TU"];
    assert DaysOf([2]) == Success(["TU"]);
    assert SelectFrequency(f) == Weekly;
    assert Assembled(f, ["TU"]) == [Entry("FREQ", Freq("WEEKLY")), Entry("BYMINUTE", Numbers([0])), Entry("BYHOUR", Numbers([12])),
                  Entry("BYDAY", Days(["TU"]))];
    RRuleOfDays(f, ["TU"]);
  }

  // "0 12 21,22 5-7 fri"
  lemma TestMayToJuly21Or22AtNoonOnFriday()
    ensures RRuleOf(CronFields(Listed([0]), Listed([12]), Listed([21, 22]), Listed([5, 6, 7]), Listed([5])))
      == Success([Entry("FREQ", Freq("YEARLY")), Entry("BYMINUTE", Numbers([0])), Entry("BYHOUR", Numbers([12])),
                  Entry("BYDAY", Days(["FR"])), Entry("BYMONTHDAY", Numbers([21, 22])), Entry("BYMONTH", Numbers([5, 6, 7]))])
  {
    var f := CronFields(Listed([0]), Listed([12]), Listed([21, 22]), Listed([5, 6, 7]), Listed([5]));
    assert [5][1..] == [] && DowToStr(5) == Some("FR");
    assert DaysOf([]) == Success([]) && ["FR"] + [] == ["FR"];
    assert DaysOf([5]) == Success(["FR"]);
    assert SelectFrequency(f) == Yearly;
    assert Assembled(f, ["FR"]) == [Entry("FREQ", Freq("YEARLY")), Entry("BYMINUTE", Numbers([0])), Entry("BYHOUR", Numbers([12])),
                  Entry("BYDAY", Days(["FR"])), Entry("BYMONTHDAY", Numbers([21, 22])), Entry("BYMONTH", Numbers([5, 6, 7]))];
    RRuleOfDays(f, ["FR"]);
  }

  // "0 0 1,5,10,20,25 * *"
  lemma TestRandomDaysOfMonthAtMidnight()
    ensures RRuleOf(CronFields(Listed([0]), Listed([0]), Listed([1, 5, 10, 20, 25]), Wildcard(1, 12), Wildcard(0, 6)))
      == Success([Entry("FREQ", Freq("MONTHLY")), Entry("BYMINUTE", Numbers([0])), Entry("BYHOUR", Numbers([0])),
                  Entry("BYMONTHDAY", Numbers([1, 5, 10, 20, 25]))])
  {
    var f := CronFields(Listed([0]), Listed([0]), Listed([1, 5, 10, 20, 25]), Wildcard(1, 12), Wildcard(0, 6));
    assert SelectFrequency(f) == Monthly;
    assert Assembled(f, []) == [Entry("FREQ", Freq("MONTHLY")), Entry("BYMINUTE", Numbers([0])), Entry("BYHOUR", Numbers([0])),
                  Entry("BYMONTHDAY", Numbers([1, 5, 10, 20, 25]))];
    RRuleOfDays(f, []);
  }

  // "0 0 */2 * *"
  lemma TestEveryOtherDayOfMonthAtMidnight()
    ensures RRuleOf(CronFields(Listed([0]), Listed([0]), Listed(seq(16, i => 2 * i + 1)), Wildcard(1, 12), Wildcard(0, 6)))
      == Success([Entry("FREQ", Freq("MONTHLY")), Entry("BYMINUTE", Numbers([0])), Entry("BYHOUR", Numbers([0])),
                  Entry("BYMONTHDAY", Numbers([1, 3, 5, 7, 9, 11, 13, 15, 17, 19, 21, 23, 25, 27, 29, 31]))])
  {
    var odd := seq(16, i => 2 * i + 1);
    assert odd == [1, 3, 5, 7, 9, 11, 13, 15, 17, 19, 21, 23, 25, 27, 29, 31];
    var f := CronFields(Listed([0]), Listed([0]), Listed(odd), Wildcard(1, 12), Wildcard(0, 6));
    assert SelectFrequency(f) == Monthly;
    assert Assembled(f, []) == [Entry("FREQ", Freq("MONTHLY")), Entry("BYMINUTE", Numbers([0])), Entry("BYHOUR", Numbers([0])),
                  Entry("BYMONTHDAY", Numbers(odd))];
    RRuleOfDays(f, []);
  }

  // "*/10 * * * *"
  lemma TestEvery10Minutes()
    ensures RRuleOf(CronFields(Listed([0, 10, 20, 30, 40, 50]), Wildcard(0, 23), Wildcard(1, 31), Wildcard(1, 12), Wildcard(0, 6)))
      == Success([Entry("FREQ", Freq("HOURLY")), Entry("BYMINUTE", Numbers([0, 10, 20, 30, 40, 50]))])
  {
    var f := CronFields(Listed([0, 10, 20, 30, 40, 50]), Wildcard(0, 23), Wildcard(1, 31), Wildcard(1, 12), Wildcard(0, 6));
    assert SelectFrequency(f) == Hourly;
    assert Assembled(f, []) == [Entry("FREQ", Freq("HOURLY")), Entry("BYMINUTE", Numbers([0, 10, 20, 30, 40, 50]))];
    RRuleOfDays(f, []);
  }
}
