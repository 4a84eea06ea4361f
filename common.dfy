/**
 * The helpers shared by the sync loop: the five-field CRON expression built
 * from a TrueNAS schedule record, and the calendar-event UID that ties an event
 * back to the kind of job it was made for.
 */
module Common {
  import opened Wrappers
  import opened Strings

  const ItemTypeScrub := "Scrub"
  const ItemTypeSnapshot := "Snapshot"
  const ItemTypeCloudSync := "CloudSync"
  const ItemTypeSmartTest := "SMART Test"
  const ItemTypeCronJob := "CronJob"

  /** Indexing a dictionary with a key it does not hold raises `KeyError`. */
  datatype KeyError = KeyError(key: string)

  function Field(schedule: map<string, string>, key: string): Result<string, KeyError> {
    if key in schedule then Success(schedule[key]) else Failure(KeyError(key))
  }

  /**
   * `schedule_to_cron_string`: minute, hour, day of month, month and day of week
   * joined by single spaces. A missing minute reads as "0"; each of the other four
   * keys is required, and the first one missing (in that order) is the error.
   */
  function ScheduleToCronString(schedule: map<string, string>): (r: Result<string, KeyError>)
    ensures r.Failure? <==> !("hour" in schedule && "dom" in schedule && "month" in schedule && "dow" in schedule)
    ensures r.Failure? ==> r.error.key !in schedule
    ensures r.Success? ==>
      var minute := if "minute" in schedule then schedule["minute"] else "0";
      r.value == minute + " " + schedule["hour"] + " " + schedule["dom"] + " " + schedule["month"] + " " + schedule["dow"]
  {
    var minute := if "minute" in schedule then schedule["minute"] else "0";
    var hour :- Field(schedule, "hour");
    var dom :- Field(schedule, "dom");
    var month :- Field(schedule, "month");
    var dow :- Field(schedule, "dow");
    Success(minute + " " + hour + " " + dom + " " + month + " " + dow)
  }

  /** Five pieces joined by a separator none of them holds split back into the five. */
  lemma SplitFive(a: string, b: string, c: string, d: string, e: string, sep: char)
    requires sep !in a && sep !in b && sep !in c && sep !in d && sep !in e
    ensures Split(a + [sep] + b + [sep] + c + [sep] + d + [sep] + e, sep) == [a, b, c, d, e]
  {
    var de := d + [sep] + e;
    var cde := c + [sep] + de;
    var bcde := b + [sep] + cde;
    SplitNoSep(e, sep);
    SplitFirst(d, sep, e);
    SplitFirst(c, sep, de);
    SplitFirst(b, sep, cde);
    SplitFirst(a, sep, bcde);
    assert a + [sep] + b + [sep] + c + [sep] + d + [sep] + e == a + [sep] + bcde;
  }

  /**
   * The expression splits back into its five fields, in order, whenever no field
   * holds a space of its own.
   */
  lemma CronStringFields(schedule: map<string, string>)
    requires "hour" in schedule && "dom" in schedule && "month" in schedule && "dow" in schedule
    requires "minute" in schedule ==> ' ' !in schedule["minute"]
    requires ' ' !in schedule["hour"] && ' ' !in schedule["dom"]
    requires ' ' !in schedule["month"] && ' ' !in schedule["dow"]
    ensures ScheduleToCronString(schedule).Success?
    ensures Split(ScheduleToCronString(schedule).value, ' ') ==
      [if "minute" in schedule then schedule["minute"] else "0",
       schedule["hour"], schedule["dom"], schedule["month"], schedule["dow"]]
  {
    var minute := if "minute" in schedule then schedule["minute"] else "0";
    var h, d, m, w := schedule["hour"], schedule["dom"], schedule["month"], schedule["dow"];
    assert ' ' !in minute && ' ' !in h && ' ' !in d && ' ' !in m && ' ' !in w;
    SplitFive(minute, h, d, m, w, ' ');
  }

  /** `create_item_uid`: "truenas-", the lower-cased item type, "-", the decimal id. */
  function CreateItemUid(prefix: string, itemId: int): (uid: string)
    ensures |uid| == 9 + |prefix| + |IntToString(itemId)|
    ensures uid[..8] == "truenas-" && uid[8 + |prefix|] == '-'
    ensures uid[8..8 + |prefix|] == Lower(prefix)
    ensures uid[9 + |prefix|..] == IntToString(itemId)
  {
    var head := "truenas-" + Lower(prefix) + "-";
    var digits := IntToString(itemId);
    assert |head| == 9 + |prefix|;
    assert (head + digits)[..|head|] == head;
    assert (head + digits)[|head|..] == digits;
    head + digits
  }

  /**
   * `parse_item_type_from_uid`: the lower-cased second dash-separated piece when
   * there are at least three pieces and the first is "truenas"; `None` otherwise.
   */
  function ParseItemTypeFromUid(uid: string): (r: Option<string>)
    ensures r.Some? <==> |Split(uid, '-')| >= 3 && Split(uid, '-')[0] == "truenas"
    ensures r.Some? ==> r.value == Lower(Split(uid, '-')[1])
  {
    var parts := Split(uid, '-');
    if |parts| >= 3 && parts[0] == "truenas" then Some(Lower(parts[1])) else None
  }

  /** What `parse_item_type_from_uid` finds is always lower case. */
  lemma ParsedTypeIsLower(uid: string)
    requires ParseItemTypeFromUid(uid).Some?
    ensures IsLower(ParseItemTypeFromUid(uid).value)
    ensures Lower(ParseItemTypeFromUid(uid).value) == ParseItemTypeFromUid(uid).value
  {
    LowerIsLower(Split(uid, '-')[1]);
  }

  /**
   * Reading a UID back, one direction: a UID that names an item type is
   * "truenas-", a dash-free piece, "-" and a remainder, and the type is that
   * piece lower-cased.
   */
  lemma ParsedUidShape(uid: string) returns (piece: string, rest: string)
    requires ParseItemTypeFromUid(uid).Some?
    ensures '-' !in piece
    ensures uid == "truenas-" + piece + "-" + rest
    ensures ParseItemTypeFromUid(uid).value == Lower(piece)
  {
    var parts := Split(uid, '-');
    piece, rest := parts[1], Join(parts[2..], '-');
    JoinSplit(uid, '-');
    assert Join(parts, '-') == parts[0] + ['-'] + Join(parts[1..], '-');
    assert Join(parts[1..], '-') == parts[1] + ['-'] + Join(parts[2..], '-') by {
      assert parts[1..][1..] == parts[2..];
    }
  }

  lemma SplitAfterTruenas(tail: string)
    ensures Split("truenas" + ['-'] + tail, '-') == ["truenas"] + Split(tail, '-')
  {
    assert '-' !in "truenas";
    SplitFirst("truenas", '-', tail);
  }

  lemma ParseByPieces(uid: string, piece: string, rest: string)
    requires Split(uid, '-') == ["truenas", piece] + Split(rest, '-')
    ensures ParseItemTypeFromUid(uid) == Some(Lower(piece))
  {
  }

  lemma ShapedUidSpelled(piece: string, rest: string)
    ensures "truenas-" + piece + "-" + rest == "truenas" + ['-'] + (piece + ['-'] + rest)
  {
    assert "truenas-" == "truenas" + ['-'];
  }

  /**
   * Reading a UID back, the other direction: "truenas-", a dash-free piece,
   * "-" and any remainder names the piece lower-cased as its item type.
   */
  lemma ParseShapedUid(piece: string, rest: string)
    requires '-' !in piece
    ensures ParseItemTypeFromUid("truenas-" + piece + "-" + rest) == Some(Lower(piece))
  {
    var tail := piece + ['-'] + rest;
    SplitFirst(piece, '-', rest);
    SplitAfterTruenas(tail);
    ParseByPieces("truenas" + ['-'] + tail, piece, rest);
    ShapedUidSpelled(piece, rest);
  }

  /**
   * The sync loop's round trip: for an item type without '-', reading back the
   * UID made for it gives the lower-cased type, whatever the id (a negative id
   * adds a '-', which only makes more pieces).
   */
  lemma UidRoundTrip(prefix: string, itemId: int)
    requires '-' !in prefix
    ensures ParseItemTypeFromUid(CreateItemUid(prefix, itemId)) == Some(Lower(prefix))
  {
    LowerKeepsNonLetter(prefix, '-');
    ParseShapedUid(Lower(prefix), IntToString(itemId));
    LowerIsLower(prefix);
  }

  /**
   * Two items of dash-free types share a UID only when they are the same item:
   * the same type up to case and the same id. The sync loop relies on this when
   * it finds an item's earlier event and keeps the UIDs it saved.
   */
  lemma UidInjective(prefix: string, itemId: int, otherPrefix: string, otherId: int)
    requires '-' !in prefix && '-' !in otherPrefix
    requires CreateItemUid(prefix, itemId) == CreateItemUid(otherPrefix, otherId)
    ensures Lower(prefix) == Lower(otherPrefix)
    ensures itemId == otherId
  {
    UidRoundTrip(prefix, itemId);
    UidRoundTrip(otherPrefix, otherId);
    assert |prefix| == |Lower(prefix)| == |Lower(otherPrefix)| == |otherPrefix|;
    IntToStringInjective(itemId, otherId);
  }

  /** The job kinds the sync loop files events under. */
  const ItemTypes: seq<string> := [ItemTypeScrub, ItemTypeSnapshot, ItemTypeCloudSync, ItemTypeSmartTest, ItemTypeCronJob]

  /**
   * No job kind holds a '-', so each meets `UidRoundTrip`'s condition, and their
   * lower-cased forms are pairwise distinct, so filtering events by parsed type
   * never mixes two kinds.
   */
  lemma ItemTypesSeparate()
    ensures forall p :: p in ItemTypes ==> '-' !in p
    ensures forall i, j :: 0 <= i < j < |ItemTypes| ==> Lower(ItemTypes[i]) != Lower(ItemTypes[j])
  {
    // Folding case keeps the length, and the five kinds have five different lengths.
    forall i, j | 0 <= i < j < |ItemTypes|
      ensures Lower(ItemTypes[i]) != Lower(ItemTypes[j])
    {
      assert |Lower(ItemTypes[i])| == |ItemTypes[i]| != |ItemTypes[j]| == |Lower(ItemTypes[j])|;
    }
  }
}
