/** The formatting and parsing helpers of utils.js: elapsed-time labels, the
    deadline classification, and the choice of the JSON slice in an assistant's
    reply. */
module Utils {
  import opened JsSemantics

  // ---------------------------------------------------------------------------
  // formatTime

  /** The hours, minutes and seconds `formatTime` prints for `ms`: whole
      seconds by `Math.floor`, then the JavaScript remainders. */
  function ClockParts(ms: int): (hms: (int, int, int))
    ensures ms >= 0 ==>
      var (h, m, s) := hms; h >= 0 && 0 <= m < 60 && 0 <= s < 60 && ms / 1000 == h * 3600 + m * 60 + s
  {
    var totalSeconds := ms / 1000;
    (totalSeconds / 3600, JsRem(totalSeconds, 3600) / 60, JsRem(totalSeconds, 60))
  }

  /** The clock label of hours, minutes and seconds: `h:mm:ss` when there is
      at least an hour, `mm:ss` below that. */
  function ClockLabel(h: int, m: int, s: int): string
  {
    if h > 0 then IntToString(h) + ":" + MinutesSeconds(m, s) else MinutesSeconds(m, s)
  }

  /** `mm:ss`. */
  function MinutesSeconds(m: int, s: int): string
  {
    TwoDigits(m) + ":" + TwoDigits(s)
  }

  /** `formatTime`: "00:00" for zero, otherwise the clock label of the
      duration's parts. */
  function FormatTime(ms: int): (r: string)
    ensures ms == 0 ==> r == "00:00"
  {
    if ms == 0 then "00:00"
    else
      var (h, m, s) := ClockParts(ms);
      ClockLabel(h, m, s)
  }

  /** Reading a clock label back: the last five characters are `mm:ss`; what
      is before them is empty (no hours) or the hours followed by a colon. */
  function ReadClock(r: string): Option<(int, int, int)>
  {
    if |r| < 5 then None
    else
      var head, tail := r[..|r| - 5], r[|r| - 5..];
      if tail[2] != ':' || !AllDigits(tail[..2]) || !AllDigits(tail[3..]) then None
      else if head == [] then Some((0, DecimalValue(tail[..2]), DecimalValue(tail[3..])))
      else if |head| < 2 || head[|head| - 1] != ':' || !AllDigits(head[..|head| - 1]) then None
      else Some((DecimalValue(head[..|head| - 1]), DecimalValue(tail[..2]), DecimalValue(tail[3..])))
  }

  /** "mm:ss" reads back as its minutes and seconds. */
  lemma MinutesSecondsReadBack(m: int, s: int)
    requires 0 <= m < 60 && 0 <= s < 60
    ensures |MinutesSeconds(m, s)| == 5
    ensures ReadClock(MinutesSeconds(m, s)) == Some((0, m, s))
  {
    TwoDigitsRoundTrip(m);
    TwoDigitsRoundTrip(s);
    var t := MinutesSeconds(m, s);
    assert t[..0] == [] && t[0..] == t;
    assert t[..2] == TwoDigits(m) && t[3..] == TwoDigits(s);
  }

  /** With hours in front, the hours are read from before the colon. */
  lemma HoursReadBack(h: int, tail: string)
    requires h > 0 && |tail| == 5 && ReadClock(tail).Some?
    ensures ReadClock(IntToString(h) + ":" + tail) == Some((h, ReadClock(tail).value.1, ReadClock(tail).value.2))
  {
    var hs := NatToString(h);
    NatToStringRoundTrip(h);
    var head := hs + ":";
    var r := head + tail;
    assert r == IntToString(h) + ":" + tail;
    assert r[..|r| - 5] == head && r[|r| - 5..] == tail;
    assert tail[..0] == [] && tail[0..] == tail;
    assert head[..|head| - 1] == hs;
  }

  /** For hours >= 0 and minutes and seconds below 60, the label reads back
      as those parts. */
  lemma ClockLabelReadsBack(h: int, m: int, s: int)
    requires h >= 0 && 0 <= m < 60 && 0 <= s < 60
    ensures ReadClock(ClockLabel(h, m, s)) == Some((h, m, s))
  {
    MinutesSecondsReadBack(m, s);
    if h > 0 {
      HoursReadBack(h, MinutesSeconds(m, s));
    }
  }

  /** For a non-negative duration the label reads back as its hours, minutes
      and seconds. */
  lemma FormatTimeReadsBack(ms: int)
    requires ms >= 0
    ensures ReadClock(FormatTime(ms)) == Some(ClockParts(ms))
  {
    var (h, m, s) := ClockParts(ms);
    if ms == 0 {
      assert (h, m, s) == (0, 0, 0);
      assert TwoDigits(0) == "00";
      assert FormatTime(ms) == ClockLabel(0, 0, 0);
    }
    ClockLabelReadsBack(h, m, s);
  }

  // ---------------------------------------------------------------------------
  // formatTimeForAnalytics

  /** The whole hours and remaining minutes of `ms`. */
  function HoursMinutes(ms: int): (hm: (int, int))
    ensures ms >= 0 ==> var (h, m) := hm; h >= 0 && 0 <= m < 60 && ms / 60000 == h * 60 + m
  {
    var totalMinutes := ms / 60000;
    (totalMinutes / 60, JsRem(totalMinutes, 60))
  }

  /** `formatTimeForAnalytics`: `"Hh Mm"`, and `"0h 0m"` for zero. */
  function FormatTimeForAnalytics(ms: int): (r: string)
    ensures ms == 0 ==> r == "0h 0m"
    ensures |r| >= 5 && r[|r| - 1] == 'm'
  {
    if ms == 0 then "0h 0m"
    else
      var (hours, minutes) := HoursMinutes(ms);
      HoursMinutesLabel(IntToString(hours), IntToString(minutes))
  }

  function HoursMinutesLabel(hs: string, ms: string): string
  {
    hs + "h " + ms + "m"
  }

  /** In `hs + "h " + ms + "m"` with digit strings around it, the first 'h'
      ends the hours and the minutes run from after the space to the 'm'. */
  lemma HoursMinutesSplit(hs: string, ms: string)
    requires |hs| >= 1 && AllDigits(hs) && AllDigits(ms)
    ensures var r := HoursMinutesLabel(hs, ms);
      IndexOf(r, 'h') == |hs| && r[|hs| + 1] == ' ' && r[..|hs|] == hs && r[|hs| + 2..|r| - 1] == ms
  {
    var r := HoursMinutesLabel(hs, ms);
    assert r[|hs|] == 'h';
    assert forall i :: 0 <= i < |hs| ==> r[i] == hs[i] && IsDigit(r[i]);
    assert r[..|hs|] == hs;
    assert r[|hs| + 2..|r| - 1] == ms;
  }

  /** For a non-negative duration the text before the first 'h' is the hours,
      and the text between "h " and the final 'm' is the remaining minutes. */
  lemma FormatTimeForAnalyticsReadsBack(ms: int)
    requires ms >= 0
    ensures var (h, m) := HoursMinutes(ms); var r := FormatTimeForAnalytics(ms);
      var k := IndexOf(r, 'h');
      1 <= k <= |r| - 3 && r[k + 1] == ' '
      && AllDigits(r[..k]) && DecimalValue(r[..k]) == h
      && AllDigits(r[k + 2..|r| - 1]) && DecimalValue(r[k + 2..|r| - 1]) == m
  {
    var (h, m) := HoursMinutes(ms);
    var hs, ms' := NatToString(h), NatToString(m);
    NatToStringRoundTrip(h);
    NatToStringRoundTrip(m);
    if ms == 0 {
      assert hs == "0" && ms' == "0";
      assert FormatTimeForAnalytics(ms) == HoursMinutesLabel(hs, ms');
    }
    HoursMinutesSplit(hs, ms');
  }

  // ---------------------------------------------------------------------------
  // calculateDaysLeft

  datatype DaysLeft = DaysLeft(diff: int, caption: string, urgent: bool)

  /** `calculateDaysLeft`, given the whole-day difference between the
      deadline and the current day (computed from the calendar dates by the
      caller): nothing without a deadline; otherwise an overdue, due-today or
      days-left label, urgent up to two days ahead. */
  function CalculateDaysLeft(deadline: Option<string>, diff: int): (r: Option<DaysLeft>)
    ensures r.None? <==> deadline.None? || deadline.value == ""
    ensures r.Some? ==> r.value.diff == diff && (r.value.urgent <==> diff <= 2)
    ensures r.Some? && diff < 0 ==> r.value.caption == "逾期 " + NatToString(-diff) + " 天"
    ensures r.Some? && diff == 0 ==> r.value.caption == "今天截止"
    ensures r.Some? && diff > 0 ==> r.value.caption == "剩 " + NatToString(diff) + " 天"
  {
    if deadline.None? || deadline.value == "" then None
    else if diff < 0 then Some(DaysLeft(diff, "逾期 " + IntToString(-diff) + " 天", true))
    else if diff == 0 then Some(DaysLeft(diff, "今天截止", true))
    else if diff <= 2 then Some(DaysLeft(diff, "剩 " + IntToString(diff) + " 天", true))
    else Some(DaysLeft(diff, "剩 " + IntToString(diff) + " 天", false))
  }

  lemma NatToStringInjective(a: nat, b: nat)
    requires NatToString(a) == NatToString(b)
    ensures a == b
  {
    NatToStringRoundTrip(a);
    NatToStringRoundTrip(b);
  }

  /** The label alone tells the day difference: no two differences share one. */
  lemma DaysLeftLabelDeterminesDiff(deadline: Option<string>, d1: int, d2: int)
    requires CalculateDaysLeft(deadline, d1).Some?
    requires CalculateDaysLeft(deadline, d1).value.caption == CalculateDaysLeft(deadline, d2).value.caption
    ensures d1 == d2
  {
    var l1, l2 := CalculateDaysLeft(deadline, d1).value.caption, CalculateDaysLeft(deadline, d2).value.caption;
    if d1 < 0 && d2 < 0 {
      var n1, n2 := NatToString(-d1), NatToString(-d2);
      assert l1[3..|l1| - 2] == n1 && l2[3..|l2| - 2] == n2;
      NatToStringInjective(-d1, -d2);
    } else if d1 > 0 && d2 > 0 {
      var n1, n2 := NatToString(d1), NatToString(d2);
      assert l1[2..|l1| - 2] == n1 && l2[2..|l2| - 2] == n2;
      NatToStringInjective(d1, d2);
    } else {
      assert l1[0] == l2[0];
    }
  }

  // ---------------------------------------------------------------------------
  // The JSON slice of extractAndParseJson

  datatype JsonSlice =
    | NoJson        // neither '{' nor '[' occurs: "AI did not return JSON."
    | MalformedJson // no closer after the chosen opener: "AI returned malformed JSON."
    | Slice(start: nat, end: nat, text: string)

  function CloserOf(opener: char): char
  {
    if opener == '{' then '}' else ']'
  }

  /** The piece of `cleaned` handed to `JSON.parse` when the whole text does
      not parse: from the earlier of the first '{' and the first '[' to the
      last occurrence of the matching closer. */
  function SelectJsonSlice(cleaned: string): (r: JsonSlice)
    ensures r == NoJson <==> '{' !in cleaned && '[' !in cleaned
    ensures r.Slice? ==>
      r.start < r.end < |cleaned| && r.text == cleaned[r.start..r.end + 1]
      && cleaned[r.start] in {'{', '['}
      && (forall i :: 0 <= i < r.start ==> cleaned[i] != '{' && cleaned[i] != '[')
      && cleaned[r.end] == CloserOf(cleaned[r.start])
      && (forall i :: r.end < i < |cleaned| ==> cleaned[i] != cleaned[r.end])
  {
    var firstObj := IndexOf(cleaned, '{');
    var firstArr := IndexOf(cleaned, '[');
    var hasObj := firstObj != -1;
    var hasArr := firstArr != -1;
    if !hasObj && !hasArr then NoJson
    else
      var start := if !hasArr || (hasObj && firstObj < firstArr) then firstObj else firstArr;
      var end := if start == firstObj then LastIndexOf(cleaned, '}') else LastIndexOf(cleaned, ']');
      if end == -1 || end <= start then MalformedJson
      else Slice(start, end, cleaned[start..end + 1])
  }

  /** The text is malformed exactly when some opener occurs but the earlier
      one has no matching closer after it. */
  lemma SelectJsonSliceMalformed(cleaned: string)
    ensures SelectJsonSlice(cleaned) == MalformedJson <==>
      ('{' in cleaned || '[' in cleaned)
      && var o := Min2(IndexOfOpener(cleaned));
         forall i :: o < i < |cleaned| ==> cleaned[i] != CloserOf(cleaned[o])
  {
    var firstObj := IndexOf(cleaned, '{');
    var firstArr := IndexOf(cleaned, '[');
    if firstObj != -1 || firstArr != -1 {
      var o := Min2(IndexOfOpener(cleaned));
      var end := if o == firstObj then LastIndexOf(cleaned, '}') else LastIndexOf(cleaned, ']');
      assert cleaned[o] == '{' <==> o == firstObj;
    }
  }

  /** The positions of the first '{' and the first '[' (-1 when absent). */
  function IndexOfOpener(s: string): (p: (int, int))
  {
    (IndexOf(s, '{'), IndexOf(s, '['))
  }

  /** The earlier of two positions, -1 standing for "absent". */
  function Min2(p: (int, int)): (r: int)
    ensures r == -1 <==> p.0 == -1 && p.1 == -1
    ensures r != -1 ==> (r == p.0 || r == p.1) && (p.0 != -1 ==> r <= p.0) && (p.1 != -1 ==> r <= p.1)
  {
    if p.0 == -1 then p.1 else if p.1 == -1 then p.0 else Min(p.0, p.1)
  }
}
