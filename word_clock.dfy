/**
 * examples/word_clock.py: the time as an approximate English phrase, to the
 * nearest quarter hour, and the word list update() draws.
 */
module WordClock {
  import opened Wrappers
  import opened HourNames
  import opened Text

  /**
   * approx_time, word by word: hour 12 counts as 0; minutes 0-7 name the
   * hour, 8-22 and 23-37 are a quarter and half past it, 38-52 a quarter to
   * the next hour, and anything else names the next hour.  None is the
   * KeyError of an hour outside the table.
   */
  function ApproxWords(hours: int, minutes: int): (r: Option<seq<string>>)
    ensures r.Some? ==> |r.value| >= 5 && r.value[..3] == ["it", "is", "about"]
    ensures r.Some? ==> (r.value[|r.value| - 1] == "O'Clock" <==> !(8 <= minutes < 53))
  {
    var hours := if hours == 12 then 0 else hours;
    if 0 <= minutes < 8 then
      if hours in Nums then Some(["it", "is", "about", Nums[hours], "O'Clock"]) else None
    else if 8 <= minutes < 23 then
      if hours in Nums then Some(["it", "is", "about", "quarter", "past", Nums[hours]]) else None
    else if 23 <= minutes < 38 then
      if hours in Nums then Some(["it", "is", "about", "half", "past", Nums[hours]]) else None
    else if 38 <= minutes < 53 then
      if hours + 1 in Nums then Some(["it", "is", "about", "quarter", "to", Nums[hours + 1]]) else None
    else
      if hours + 1 in Nums then Some(["it", "is", "about", Nums[hours + 1], "O'Clock"]) else None
  }

  /** approx_time: the phrase, the words above joined by spaces. */
  function ApproxTime(hours: int, minutes: int): (r: Option<string>)
    ensures r.Some? <==> ApproxWords(hours, minutes).Some?
  {
    match ApproxWords(hours, minutes)
    case None => None
    case Some(ws) => Some(Join(ws))
  }

  /** The hour approx_time looks up: its own hour up to minute 37, the next one after. */
  function NamedHour(hours: int, minutes: int): int
  {
    var h := if hours == 12 then 0 else hours;
    if 0 <= minutes < 38 then h else h + 1
  }

  /**
   * The phrase is defined exactly when the named hour is in the table (so for
   * every hour 0..12); it then starts "it is about", names that hour, and
   * every word is non-empty and free of whitespace.
   */
  lemma ApproxWordsShape(hours: int, minutes: int)
    ensures ApproxWords(hours, minutes).Some? <==> 0 <= NamedHour(hours, minutes) <= 12
    ensures 0 <= hours <= 12 ==> ApproxWords(hours, minutes).Some?
    ensures ApproxWords(hours, minutes).Some? ==>
      var ws := ApproxWords(hours, minutes).value;
      var n := Nums[NamedHour(hours, minutes)];
      5 <= |ws| <= 6 && ws[..3] == ["it", "is", "about"] && n in ws && Words(ws)
  {
    var h := NamedHour(hours, minutes);
    NumsDomain(h);
    LiteralWords();
  }

  lemma LiteralWords()
    ensures |"it"| > 0 && NoSpace("it") && |"is"| > 0 && NoSpace("is")
    ensures |"about"| > 0 && NoSpace("about") && |"quarter"| > 0 && NoSpace("quarter")
    ensures |"half"| > 0 && NoSpace("half") && |"past"| > 0 && NoSpace("past")
    ensures |"to"| > 0 && NoSpace("to") && |"O'Clock"| > 0 && NoSpace("O'Clock")
  {}

  /** update: the 24-hour clock folded to 0..12 before approx_time. */
  function TwelveHour(hour: int): (h: int)
    ensures 0 <= hour < 24 ==> 0 <= h <= 12
  {
    if hour > 12 then hour - 12 else hour
  }

  /** update: the phrase for the hour and minute, split into the words drawn one per line. */
  function Update(hour: int, minute: int): (words: Option<seq<string>>)
    ensures words.Some? <==> ApproxWords(TwelveHour(hour), minute).Some?
  {
    match ApproxTime(TwelveHour(hour), minute)
    case None => None
    case Some(phrase) => Some(Split(phrase))
  }

  /** Splitting the phrase gives back approx_time's words, for every hour of the day. */
  lemma UpdateWords(hour: int, minute: int)
    requires 0 <= hour < 24
    ensures Update(hour, minute) == ApproxWords(TwelveHour(hour), minute)
    ensures Update(hour, minute).Some?
  {
    ApproxWordsShape(TwelveHour(hour), minute);
    var ws := ApproxWords(TwelveHour(hour), minute).value;
    SplitJoin(ws);
  }
}
