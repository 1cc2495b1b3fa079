/**
 * examples/world_clock_fr.py: a French word clock.  approx_time_fr turns a
 * 12-hour time into the (row, column) cells of the letter grid to light:
 * "IL EST", an hour word, "HEURE(S)" and the minutes, either counted up from
 * the hour or, in the "moins" mode, counted down to the next one.
 */
module WorldClockFr {
  import opened Wrappers

  /** A (row, column) cell of the letter grid. */
  type Cell = (int, int)

  const IlEst: seq<Cell> := [(0, 0), (0, 1), (0, 3), (0, 4), (0, 5)]
  const PmCells: seq<Cell> := [(0, 14), (1, 14)]
  const Demie: seq<Cell> := [(7, 8), (7, 9), (7, 10), (7, 11), (7, 12)]
  const Et1: seq<Cell> := [(5, 0), (5, 1)]
  const Et2: seq<Cell> := [(12, 0), (12, 1)]
  const Moins: seq<Cell> := [(5, 2), (5, 3), (5, 4), (5, 5), (5, 6)]
  const Quart: seq<Cell> := [(6, 8), (6, 9), (6, 10), (6, 11), (6, 12)]
  const Heures: seq<Cell> := [(4, 7), (4, 8), (4, 9), (4, 10), (4, 11), (4, 12)]

  /** heures_map: MINUIT for 0, MIDI for 12, the hour's name otherwise. */
  function HeuresMap(k: int): (r: Option<seq<Cell>>)
    ensures r.Some? <==> 0 <= k <= 12
    ensures r.Some? ==> 3 <= |r.value| <= 6
  {
    match k
    case 0 => Some([(0, 7), (0, 8), (0, 9), (0, 10), (0, 11), (0, 12)])
    case 1 => Some([(1, 0), (1, 1), (1, 2)])
    case 2 => Some([(2, 9), (2, 10), (2, 11), (2, 12)])
    case 3 => Some([(1, 6), (1, 7), (1, 8), (1, 9), (1, 10)])
    case 4 => Some([(2, 3), (2, 4), (2, 5), (2, 6), (2, 7), (2, 8)])
    case 5 => Some([(2, 0), (2, 1), (2, 2), (2, 3)])
    case 6 => Some([(1, 10), (1, 11), (1, 12)])
    case 7 => Some([(1, 3), (1, 4), (1, 5), (1, 6)])
    case 8 => Some([(3, 0), (3, 1), (3, 2), (3, 3)])
    case 9 => Some([(3, 4), (3, 5), (3, 6), (3, 7)])
    case 10 => Some([(4, 0), (4, 1), (4, 2)])
    case 11 => Some([(3, 9), (3, 10), (3, 11), (3, 12)])
    case 12 => Some([(4, 3), (4, 4), (4, 5), (4, 6)])
    case _ => None
  }

  /** minutes_base_maps: the numbers one to twenty and the tens. */
  function MinutesBase(k: int): (r: Option<seq<Cell>>)
  {
    match k
    case 1 => Some([(12, 3), (12, 4), (12, 5)])
    case 2 => Some([(11, 9), (11, 10), (11, 11), (11, 12)])
    case 3 => Some([(10, 8), (10, 9), (10, 10), (10, 11), (10, 12)])
    case 4 => Some([(11, 0), (11, 1), (11, 2), (11, 3), (11, 4), (11, 5)])
    case 5 => Some([(8, 0), (8, 1), (8, 2), (8, 3)])
    case 6 => Some([(13, 10), (13, 11), (13, 12)])
    case 7 => Some([(12, 8), (12, 9), (12, 10), (12, 11)])
    case 8 => Some([(13, 1), (13, 2), (13, 3), (13, 4)])
    case 9 => Some([(13, 6), (13, 7), (13, 8), (13, 9)])
    case 10 => Some([(9, 0), (9, 1), (9, 2)])
    case 11 => Some([(8, 9), (8, 10), (8, 11), (8, 12)])
    case 12 => Some([(9, 8), (9, 9), (9, 10), (9, 11), (9, 12)])
    case 13 => Some([(11, 3), (11, 4), (11, 5), (11, 6), (11, 7), (11, 8)])
    case 14 => Some([(10, 0), (10, 1), (10, 2), (10, 3), (10, 4), (10, 5), (10, 6), (10, 7)])
    case 15 => Some([(5, 0), (5, 1), (6, 8), (6, 9), (6, 10), (6, 11), (6, 12)])
    case 16 => Some([(9, 3), (9, 4), (9, 5), (9, 6), (9, 7)])
    case 17 => Some([(9, 0), (9, 1), (9, 2), (12, 8), (12, 9), (12, 10), (12, 11)])
    case 18 => Some([(9, 0), (9, 1), (9, 2), (13, 1), (13, 2), (13, 3), (13, 4)])
    case 19 => Some([(9, 0), (9, 1), (9, 2), (13, 6), (13, 7), (13, 8), (13, 9)])
    case 20 => Some([(6, 3), (6, 4), (6, 5), (6, 6), (6, 7)])
    case 30 => Some([(5, 7), (5, 8), (5, 9), (5, 10), (5, 11), (5, 12)])
    case 40 => Some([(7, 0), (7, 1), (7, 2), (7, 3), (7, 4), (7, 5), (7, 6), (7, 7)])
    case 50 => Some([(8, 0), (8, 1), (8, 2), (8, 3), (8, 4), (8, 5), (8, 6), (8, 7), (8, 8)])
    case _ => None
  }

  /**
   * minutes_composed as written: 21 to 59 other than the tens, the tens
   * word, "ET" for the ones, then the unit word.  Entries 48 and 58 take
   * the unit word of 6.
   */
  function MinutesComposedAsWritten(m: int): (r: Option<seq<Cell>>)
    ensures r.Some? <==> 21 <= m <= 59 && m % 10 != 0
  {
    match m
    case 21 => Some(MinutesBase(20).value + Et1 + MinutesBase(1).value)
    case 22 => Some(MinutesBase(20).value + MinutesBase(2).value)
    case 23 => Some(MinutesBase(20).value + MinutesBase(3).value)
    case 24 => Some(MinutesBase(20).value + MinutesBase(4).value)
    case 25 => Some(MinutesBase(20).value + MinutesBase(5).value)
    case 26 => Some(MinutesBase(20).value + MinutesBase(6).value)
    case 27 => Some(MinutesBase(20).value + MinutesBase(7).value)
    case 28 => Some(MinutesBase(20).value + MinutesBase(8).value)
    case 29 => Some(MinutesBase(20).value + MinutesBase(9).value)
    case 31 => Some(MinutesBase(30).value + Et2 + MinutesBase(1).value)
    case 32 => Some(MinutesBase(30).value + MinutesBase(2).value)
    case 33 => Some(MinutesBase(30).value + MinutesBase(3).value)
    case 34 => Some(MinutesBase(30).value + MinutesBase(4).value)
    case 35 => Some(MinutesBase(30).value + MinutesBase(5).value)
    case 36 => Some(MinutesBase(30).value + MinutesBase(6).value)
    case 37 => Some(MinutesBase(30).value + MinutesBase(7).value)
    case 38 => Some(MinutesBase(30).value + MinutesBase(8).value)
    case 39 => Some(MinutesBase(30).value + MinutesBase(9).value)
    case 41 => Some(MinutesBase(40).value + Et2 + MinutesBase(1).value)
    case 42 => Some(MinutesBase(40).value + MinutesBase(2).value)
    case 43 => Some(MinutesBase(40).value + MinutesBase(3).value)
    case 44 => Some(MinutesBase(40).value + MinutesBase(4).value)
    case 45 => Some(MinutesBase(40).value + MinutesBase(5).value)
    case 46 => Some(MinutesBase(40).value + MinutesBase(6).value)
    case 47 => Some(MinutesBase(40).value + MinutesBase(7).value)
    case 48 => Some(MinutesBase(40).value + MinutesBase(6).value)
    case 49 => Some(MinutesBase(40).value + MinutesBase(9).value)
    case 51 => Some(MinutesBase(50).value + Et2 + MinutesBase(1).value)
    case 52 => Some(MinutesBase(50).value + MinutesBase(2).value)
    case 53 => Some(MinutesBase(50).value + MinutesBase(3).value)
    case 54 => Some(MinutesBase(50).value + MinutesBase(4).value)
    case 55 => Some(MinutesBase(50).value + MinutesBase(5).value)
    case 56 => Some(MinutesBase(50).value + MinutesBase(6).value)
    case 57 => Some(MinutesBase(50).value + MinutesBase(7).value)
    case 58 => Some(MinutesBase(50).value + MinutesBase(6).value)
    case 59 => Some(MinutesBase(50).value + MinutesBase(9).value)
    case _ => None
  }

  /** minutes_composed with entries 48 and 58 reading "HUIT" as intended. */
  function MinutesComposed(m: int): (r: Option<seq<Cell>>)
    ensures r.Some? <==> 21 <= m <= 59 && m % 10 != 0
  {
    if m == 48 || m == 58 then Some(MinutesBase(m / 10 * 10).value + MinutesBase(8).value)
    else MinutesComposedAsWritten(m)
  }

  /** minutes_maps: minutes_base_maps updated with the composed entries. */
  function MinutesMapsAsWritten(m: int): (r: Option<seq<Cell>>)
    ensures r.Some? <==> 1 <= m <= 59
  {
    if MinutesComposedAsWritten(m).Some? then MinutesComposedAsWritten(m) else MinutesBase(m)
  }

  function MinutesMaps(m: int): (r: Option<seq<Cell>>)
    ensures r.Some? <==> 1 <= m <= 59
  {
    if MinutesComposed(m).Some? then MinutesComposed(m) else MinutesBase(m)
  }

  /** "ET" in front of the unit one: row 5's after twenty, row 12's after the other tens. */
  function EtOf(m: int): seq<Cell>
  {
    if m == 21 then Et1 else if m % 10 == 1 then Et2 else []
  }

  /**
   * Each composed minute reads as its tens word, "ET" for the ones, and its
   * unit word.
   */
  lemma ComposedReading(m: int)
    requires 21 <= m <= 59 && m % 10 != 0
    ensures MinutesMaps(m) == Some(MinutesBase(m / 10 * 10).value + EtOf(m) + MinutesBase(m % 10).value)
  {
    var t, u := m / 10 * 10, m % 10;
    assert m == t + u && 1 <= u <= 9;
    assert t == 20 || t == 30 || t == 40 || t == 50;
    if u != 1 {
      assert MinutesBase(t).value + EtOf(m) == MinutesBase(t).value;
    }
    if t == 20 {
      assert 21 <= m <= 29;
    } else if t == 30 {
      assert 31 <= m <= 39;
    } else if t == 40 {
      assert 41 <= m <= 49;
    } else {
      assert 51 <= m <= 59;
    }
  }

  /** As written, 48 lights the same cells as 46 (and 58 as 56). */
  lemma ComposedAsWrittenRepeats()
    ensures MinutesMapsAsWritten(48) == MinutesMapsAsWritten(46)
    ensures MinutesMapsAsWritten(58) == MinutesMapsAsWritten(56)
    ensures MinutesMapsAsWritten(48) != MinutesMaps(48)
  {
    assert MinutesMapsAsWritten(48) == MinutesComposedAsWritten(48) == Some(MinutesBase(40).value + MinutesBase(6).value);
    assert MinutesMapsAsWritten(46) == MinutesComposedAsWritten(46) == Some(MinutesBase(40).value + MinutesBase(6).value);
    assert MinutesMapsAsWritten(58) == MinutesComposedAsWritten(58) == Some(MinutesBase(50).value + MinutesBase(6).value);
    assert MinutesMapsAsWritten(56) == MinutesComposedAsWritten(56) == Some(MinutesBase(50).value + MinutesBase(6).value);
    assert MinutesMaps(48) == MinutesComposed(48) == Some(MinutesBase(40).value + MinutesBase(8).value);
    assert |MinutesBase(6).value| == 3 && |MinutesBase(8).value| == 4;
  }

  /** The hour after `hours` on a 12-hour dial, as approx_time_fr steps it. */
  function NextHour(hours: int): int
  {
    if hours == 12 then 1 else hours + 1
  }

  /**
   * The cells for an hour: its heures_map entry when there is one, then
   * "HEURES" except at MINUIT and MIDI, singular "HEURE" after "UNE".
   */
  function HourWord(h: int): (cells: seq<Cell>)
    ensures h == 0 || h == 12 ==> cells == HeuresMap(h).value
    ensures h == 1 ==> cells == HeuresMap(1).value + [(4, 7), (4, 8), (4, 9), (4, 10), (4, 11)]
    ensures 2 <= h <= 11 ==> cells == HeuresMap(h).value + Heures
  {
    (if HeuresMap(h).Some? then HeuresMap(h).value else [])
    + (if h != 0 && h != 12 then (if h == 1 then Heures[..|Heures| - 1] else Heures) else [])
  }

  /** "IL EST", then the two "pm" cells in the afternoon. */
  function Start(pm: bool): seq<Cell>
  {
    IlEst + (if pm then PmCells else [])
  }

  /**
   * The two lists approx_time_fr builds, `coords` (minutes counted up from
   * `hours`) and `coords_minus` (counted down to the next hour), over the
   * minute table `maps`.  `full` is the full_minutes global being "Yes",
   * `pm` the ampm argument being "pm".  None is the KeyError of a "moins"
   * minute missing from the table.
   */
  function Lists(hours: int, minutes: int, pm: bool, full: bool, maps: int -> Option<seq<Cell>>)
    : (r: Option<(seq<Cell>, seq<Cell>)>)
    ensures r.Some? ==> Start(pm) <= r.value.0 && Start(pm) <= r.value.1
  {
    var coords := Start(pm) + HourWord(hours);
    var coordsMinus := Start(pm) + HourWord(NextHour(hours));
    if minutes > 30 && !full then
      var m := if minutes == 50 then 10 else if minutes == 40 then 20 else if minutes == 55 then 5 else 60 - minutes;
      match maps(m)
      case None => None
      case Some(c) => Some((coords, coordsMinus + Moins + c))
    else if minutes == 30 then Some((coords + Et1 + Demie, coordsMinus))
    else if minutes == 15 then Some((coords + Et1 + Quart, coordsMinus))
    else if minutes == 55 then
      match maps(5)
      case None => None
      case Some(c) => Some((coords, coordsMinus + Moins + c))
    else if maps(minutes).Some? then Some((coords + maps(minutes).value, coordsMinus))
    else Some((coords, coordsMinus))
  }

  /**
   * approx_time_fr as written: `coords_minus` whenever full_minutes is "No"
   * or the minute is 55, and the table with 48 and 58 as written.
   */
  function ApproxTimeFrAsWritten(hours: int, minutes: int, pm: bool, full: bool): (r: Option<seq<Cell>>)
    ensures r.Some? ==> Start(pm) <= r.value
    ensures full ==> r.Some?
  {
    match Lists(hours, minutes, pm, full, MinutesMapsAsWritten)
    case None => None
    case Some((coords, coordsMinus)) => Some(if !full || minutes == 55 then coordsMinus else coords)
  }

  /**
   * approx_time_fr as intended: the "moins" list only past the half hour in
   * the "No" mode (or at 55), and the corrected table.
   */
  function ApproxTimeFr(hours: int, minutes: int, pm: bool, full: bool): (r: Option<seq<Cell>>)
    ensures r.Some? ==> Start(pm) <= r.value
    ensures full ==> r.Some?
  {
    match Lists(hours, minutes, pm, full, MinutesMaps)
    case None => None
    case Some((coords, coordsMinus)) =>
      Some(if (!full && minutes > 30) || minutes == 55 then coordsMinus else coords)
  }

  /** Whether the time is told as "next hour moins m". */
  predicate CountsDown(minutes: int, full: bool)
  {
    (!full && minutes > 30) || minutes == 55
  }

  /** The cells of the minutes: "moins" and the minutes to go, or the minutes past. */
  function MinuteWord(minutes: int, full: bool): seq<Cell>
    requires CountsDown(minutes, full) ==> minutes < 60
  {
    if CountsDown(minutes, full) then Moins + MinutesMaps(60 - minutes).value
    else if minutes == 30 then Et1 + Demie
    else if MinutesMaps(minutes).Some? then MinutesMaps(minutes).value
    else []
  }

  /**
   * approx_time_fr fails only in the "No" mode from minute 60 on; otherwise
   * it reads "IL EST", the hour it counts from (the next one when counting
   * down), and the minutes, by one uniform rule: the special cases for 15,
   * 40, 50 and 55 light the same cells the table does.
   */
  lemma ApproxTimeFrReading(hours: int, minutes: int, pm: bool, full: bool)
    ensures ApproxTimeFr(hours, minutes, pm, full).None? <==> !full && minutes >= 60
    ensures !(!full && minutes >= 60) ==>
      var h := if CountsDown(minutes, full) then NextHour(hours) else hours;
      ApproxTimeFr(hours, minutes, pm, full) == Some(Start(pm) + HourWord(h) + MinuteWord(minutes, full))
  {
    if !full && minutes >= 60 {
    } else if CountsDown(minutes, full) {
      CountDownReading(hours, minutes, pm, full);
    } else {
      CountUpReading(hours, minutes, pm, full);
    }
  }

  lemma CountDownReading(hours: int, minutes: int, pm: bool, full: bool)
    requires CountsDown(minutes, full) && minutes < 60
    ensures ApproxTimeFr(hours, minutes, pm, full)
      == Some(Start(pm) + HourWord(NextHour(hours)) + (Moins + MinutesMaps(60 - minutes).value))
  {
    var m := if minutes == 50 then 10 else if minutes == 40 then 20 else if minutes == 55 then 5 else 60 - minutes;
    assert m == 60 - minutes;
    var c := Start(pm) + HourWord(NextHour(hours));
    assert c + Moins + MinutesMaps(m).value == c + (Moins + MinutesMaps(m).value);
  }

  lemma CountUpReading(hours: int, minutes: int, pm: bool, full: bool)
    requires !CountsDown(minutes, full) && !(!full && minutes >= 60)
    ensures ApproxTimeFr(hours, minutes, pm, full)
      == Some(Start(pm) + HourWord(hours) + MinuteWord(minutes, full))
  {
    var c := Start(pm) + HourWord(hours);
    if minutes == 30 {
      assert c + Et1 + Demie == c + (Et1 + Demie);
    } else if minutes == 15 {
      assert Et1 + Quart == MinutesMaps(15).value;
      assert c + Et1 + Quart == c + (Et1 + Quart);
    } else if MinutesMaps(minutes).None? {
      assert c + [] == c;
    }
  }

  /**
   * As written, the "No" mode shows the next hour with no minutes before the
   * half hour too: 10:15 lights exactly the cells of 11:00.
   */
  lemma EarlyMinutesAsWritten()
    ensures ApproxTimeFrAsWritten(10, 15, false, false) == ApproxTimeFrAsWritten(11, 0, false, true)
    ensures ApproxTimeFr(10, 15, false, false) != ApproxTimeFr(11, 0, false, true)
  {
    assert ApproxTimeFr(10, 15, false, false).value == Start(false) + HourWord(10) + Et1 + Quart;
    assert ApproxTimeFr(11, 0, false, true).value == Start(false) + HourWord(11);
    assert ApproxTimeFr(10, 15, false, false).value[5] != ApproxTimeFr(11, 0, false, true).value[5];
  }

  /** As written, 48 minutes past any hour lights the cells of 46. */
  lemma FortyEightAsWritten(hours: int, pm: bool)
    ensures ApproxTimeFrAsWritten(hours, 48, pm, true) == ApproxTimeFrAsWritten(hours, 46, pm, true)
    ensures ApproxTimeFr(hours, 48, pm, true) != ApproxTimeFr(hours, 46, pm, true)
  {
    ComposedAsWrittenRepeats();
    var c := Start(pm) + HourWord(hours);
    ComposedReading(48);
    ComposedReading(46);
    assert MinutesMaps(48).value != MinutesMaps(46).value by {
      assert MinutesMaps(48).value[9] != MinutesMaps(46).value[9];
    }
    assert (c + MinutesMaps(48).value)[|c| + 9] != (c + MinutesMaps(46).value)[|c| + 9];
  }
}
