/**
 * examples/word_time.py: the time as a three-part phrase (word, relation,
 * hour) to the nearest five minutes, such as ("twenty five", "past", "ten").
 */
module WordTime {
  import opened Wrappers
  import opened HourNames

  /** The three strings approx_time returns. */
  datatype Phrase = Phrase(word: string, relation: string, hour: string)

  /**
   * approx_time: hour 12 counts as 0; minutes 0-2 name the hour, 3-32 count
   * up past it and 33-57 down to the next one in five-minute buckets, and
   * anything else (58 and up, or negative) names the next hour.  None is
   * the KeyError of an hour outside the table.
   */
  function ApproxTime(hours: int, minutes: int): (r: Option<Phrase>)
    ensures r.Some? ==> r.value.relation in {"O'Clock", "past", "to"}
    ensures r.Some? ==> (r.value.relation == "past" <==> 3 <= minutes < 33)
    ensures r.Some? ==> (r.value.relation == "to" <==> 33 <= minutes < 58)
  {
    var hours := if hours == 12 then 0 else hours;
    if 0 <= minutes < 33 then
      if hours !in Nums then None
      else if minutes < 3 then Some(Phrase(Nums[hours], "O'Clock", ""))
      else if minutes < 8 then Some(Phrase("five", "past", Nums[hours]))
      else if minutes < 13 then Some(Phrase("ten", "past", Nums[hours]))
      else if minutes < 18 then Some(Phrase("quarter", "past", Nums[hours]))
      else if minutes < 23 then Some(Phrase("twenty", "past", Nums[hours]))
      else if minutes < 28 then Some(Phrase("twenty five", "past", Nums[hours]))
      else Some(Phrase("half", "past", Nums[hours]))
    else if hours + 1 !in Nums then None
    else if 33 <= minutes < 38 then Some(Phrase("twenty five", "to", Nums[hours + 1]))
    else if 38 <= minutes < 43 then Some(Phrase("twenty", "to", Nums[hours + 1]))
    else if 43 <= minutes < 48 then Some(Phrase("quarter", "to", Nums[hours + 1]))
    else if 48 <= minutes < 53 then Some(Phrase("ten", "to", Nums[hours + 1]))
    else if 53 <= minutes < 58 then Some(Phrase("five", "to", Nums[hours + 1]))
    else Some(Phrase(Nums[hours + 1], "O'Clock", ""))
  }

  /** The words counting up past the hour, one per five-minute bucket from minute 3. */
  const PastWords: seq<string> := ["five", "ten", "quarter", "twenty", "twenty five", "half"]

  /** The words counting down to the next hour, one per five-minute bucket from minute 33. */
  const ToWords: seq<string> := ["twenty five", "twenty", "quarter", "ten", "five"]

  /** The hour approx_time names: its own up to minute 32, the next one otherwise. */
  function NamedHour(hours: int, minutes: int): int
  {
    var h := if hours == 12 then 0 else hours;
    if 0 <= minutes < 33 then h else h + 1
  }

  /**
   * The phrase exists exactly when the named hour is in the table, and so
   * for every hour 0..12 and every minute.
   */
  lemma ApproxTimeDefined(hours: int, minutes: int)
    ensures ApproxTime(hours, minutes).Some? <==> 0 <= NamedHour(hours, minutes) <= 12
    ensures 0 <= hours <= 12 ==> ApproxTime(hours, minutes).Some?
  {}

  /**
   * The if-chain against the bucket tables: each minute falls in exactly
   * one bucket, and the phrase is the bucket's word, "past" or "to", and the
   * named hour; outside 3..57 the phrase is the named hour "O'Clock".
   */
  lemma ApproxTimeBuckets(hours: int, minutes: int)
    requires 0 <= NamedHour(hours, minutes) <= 12
    ensures var n := Nums[NamedHour(hours, minutes)];
      ApproxTime(hours, minutes) == Some(
        if 3 <= minutes < 33 then Phrase(PastWords[(minutes - 3) / 5], "past", n)
        else if 33 <= minutes < 58 then Phrase(ToWords[(minutes - 33) / 5], "to", n)
        else Phrase(n, "O'Clock", ""))
  {
    NumsDomain(NamedHour(hours, minutes));
  }

  /** m minutes past the hour and m minutes to the next use the same word, for m in 3..27. */
  lemma Symmetry(hours: int, m: int)
    requires 3 <= m < 28 && 0 <= hours <= 11
    ensures ApproxTime(hours, m).Some? && ApproxTime(hours, 60 - m).Some?
    ensures ApproxTime(hours, m).value.word == ApproxTime(hours, 60 - m).value.word
    ensures ApproxTime(hours, m).value.relation == "past"
    ensures ApproxTime(hours, 60 - m).value.relation == "to"
  {
    ApproxTimeBuckets(hours, m);
    ApproxTimeBuckets(hours, 60 - m);
  }

  /** update: the 24-hour clock folded to 0..12 before approx_time. */
  function Update(hour: int, minute: int): (r: Option<Phrase>)
    ensures 0 <= hour < 24 ==> r.Some?
  {
    ApproxTimeDefined(if hour > 12 then hour - 12 else hour, minute);
    ApproxTime(if hour > 12 then hour - 12 else hour, minute)
  }

  /** An afternoon hour reads like the morning hour twelve before it. */
  lemma UpdateAfternoon(hour: int, minute: int)
    requires 12 < hour < 24
    ensures Update(hour, minute) == Update(hour - 12, minute)
  {}
}
