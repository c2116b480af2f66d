/** `src/utils.ts`: the node box size of the tree view and the query-time formatter. */
module Utils {
  import opened JsString

  /** Width of a machine node's box, in pixels. */
  const NodeWidth: real := 150.0
  /** Height of a machine node's box, in pixels. */
  const NodeHeight: real := 60.0

  /**
   * `formatTime(date, time)`: the date half of `date` (before its first "T"),
   * a "T", and the time half of `time` (between its first and second "T"),
   * with the first "Z" of the whole removed. A `time` without any "T" has no
   * second piece, which the template literal renders as "undefined".
   */
  function FormatTime(date: string, time: string): (r: string)
    ensures |r| <= |Split(date, 'T')[0]| + 1 + |TimePart(time)|
    ensures |r| >= |Split(date, 'T')[0]| + |TimePart(time)|
  {
    RemoveFirstCount(Split(date, 'T')[0] + "T" + TimePart(time), 'Z');
    RemoveFirst(Split(date, 'T')[0] + "T" + TimePart(time), 'Z')
  }

  /** `time.split("T")[1]` as a template literal renders it. */
  function TimePart(time: string): string
  {
    var pieces := Split(time, 'T');
    if |pieces| > 1 then pieces[1] else "undefined"
  }

  /** The shape `Date.prototype.toISOString` produces: "YYYY-MM-DDTHH:MM:SS.sssZ". */
  predicate IsIsoString(s: string)
  {
    && |s| == 24
    && s[4] == '-' && s[7] == '-' && s[10] == 'T'
    && s[13] == ':' && s[16] == ':' && s[19] == '.' && s[23] == 'Z'
    && forall k :: 0 <= k < 24 && k !in {4, 7, 10, 13, 16, 19, 23} ==> IsDigit(s[k])
  }

  /** The first piece of splitting an ISO string at "T" is its date, the second its time with the "Z". */
  lemma SplitIsoString(s: string)
    requires IsIsoString(s)
    ensures Split(s, 'T') == [s[..10], s[11..]]
  {
    assert 'T' !in s[..10] by {
      forall k | 0 <= k < 10 ensures s[k] != 'T' {
        assert k in {4, 7} || IsDigit(s[k]);
      }
    }
    FirstIndexAfterPrefix(s[..10], 'T', s[11..]);
    assert s == s[..10] + ['T'] + s[11..];
    assert 'T' !in s[11..] by {
      forall k | 11 <= k < 24 ensures s[k] != 'T' {
        assert k in {13, 16, 19, 23} || IsDigit(s[k]);
      }
    }
  }

  /**
   * For two `toISOString` values the result is the first one's date, "T" and
   * the second one's time up to the milliseconds: 23 characters, no "Z".
   */
  lemma FormatTimeOfIsoStrings(date: string, time: string)
    requires IsIsoString(date) && IsIsoString(time)
    ensures FormatTime(date, time) == date[..10] + "T" + time[11..23]
    ensures |FormatTime(date, time)| == 23 && 'Z' !in FormatTime(date, time)
  {
    SplitIsoString(date);
    SplitIsoString(time);
    var front := date[..10] + "T" + time[11..23];
    IsoFrontHasNoZ(date, time);
    assert date[..10] + "T" + time[11..] == front + ['Z'] + "" by {
      assert time[11..] == time[11..23] + "Z";
    }
    RemoveFirstAfterPrefix(front, 'Z', "");
    assert front + "" == front;
  }

  /** The date half of one ISO string, "T" and the time of another up to the milliseconds hold no "Z". */
  lemma IsoFrontHasNoZ(date: string, time: string)
    requires IsIsoString(date) && IsIsoString(time)
    ensures 'Z' !in date[..10] + "T" + time[11..23]
  {
    var front := date[..10] + "T" + time[11..23];
    forall k | 0 <= k < 23 ensures front[k] != 'Z' {
      if k < 10 {
        assert front[k] == date[k];
        assert k in {4, 7} || IsDigit(date[k]);
      } else if k > 10 {
        assert front[k] == time[k];
        assert k in {13, 16, 19} || IsDigit(time[k]);
      }
    }
  }

  /**
   * Without a "T" in the time text, the "undefined" of a missing piece is
   * spliced in after the date half; a date with neither "T" nor "Z" is kept whole.
   */
  lemma FormatTimeWithoutTimeSeparator(date: string, time: string)
    requires 'T' !in time
    ensures TimePart(time) == "undefined"
    ensures 'Z' !in date ==> FormatTime(date, time) == Split(date, 'T')[0] + "Tundefined"
    ensures 'T' !in date && 'Z' !in date ==> FormatTime(date, time) == date + "Tundefined"
  {
    TimePartWithoutSeparator(time);
    if 'Z' !in date {
      JoinedWithoutZ(date, time);
    }
  }

  /** A time without "T" has no second piece. */
  lemma TimePartWithoutSeparator(time: string)
    requires 'T' !in time
    ensures TimePart(time) == "undefined"
  {
    assert Split(time, 'T') == [time];
  }

  /**
   * With no "T" in the time and no "Z" in the date, the text before the "Z"
   * removal is the date half, "T" and "undefined", without any "Z".
   */
  lemma JoinedWithoutZ(date: string, time: string)
    requires 'T' !in time && 'Z' !in date
    ensures Split(date, 'T')[0] + "T" + TimePart(time) == Split(date, 'T')[0] + "Tundefined"
    ensures 'Z' !in Split(date, 'T')[0] + "T" + TimePart(time)
    ensures 'T' !in date ==> Split(date, 'T')[0] == date
  {
    TimePartWithoutSeparator(time);
    DateHalfWithoutZ(date);
    var front := Split(date, 'T')[0];
    assert front + "T" + "undefined" == front + "Tundefined";
  }

  /** The date half is a prefix of the date, and all of it when the date has no "T". */
  lemma DateHalfWithoutZ(date: string)
    requires 'Z' !in date
    ensures 'Z' !in Split(date, 'T')[0]
    ensures 'T' !in date ==> Split(date, 'T')[0] == date
  {
    match FirstIndex(date, 'T')
    case None =>
      assert Split(date, 'T') == [date];
    case Some(i) =>
      assert Split(date, 'T')[0] == date[..i];
  }

  /** At most one "Z" is removed; without one the concatenation is returned as it is. */
  lemma FormatTimeRemovesOneZ(date: string, time: string)
    ensures var joined := Split(date, 'T')[0] + "T" + TimePart(time);
      && ('Z' !in joined ==> FormatTime(date, time) == joined)
      && ('Z' in joined ==> multiset(FormatTime(date, time))['Z'] == multiset(joined)['Z'] - 1)
  {
    var joined := Split(date, 'T')[0] + "T" + TimePart(time);
    RemoveFirstCount(joined, 'Z');
  }
}
