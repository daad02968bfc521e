/**
 * The display logic of the watchface: the battery text written by
 * `display_batt_attr`, the 12-hour and 24-hour texts written by
 * `update_time`, and the three text slots (12-hour time, 24-hour time,
 * battery) that start with placeholders and that each event rewrites.
 */
module Watchface {
  import opened Numerals
  import opened CFormat

  /** `static char batt_status[40]` */
  const BattStatusSize: nat := 40
  /** `static char s_buffer[8]`, `static char t_buffer[8]`; the bound passed
      to both `strftime` calls is `sizeof(s_buffer)`. */
  const TimeBufferSize: nat := 8

  const ChargingText: string := "charging..."
  /** The texts the three slots are given when the window is loaded. */
  const TimePlaceholder: string := "00:00"
  const BatteryPlaceholder: string := "000%"

  /** The battery state the battery service hands to `display_batt_attr`. */
  datatype BatteryChargeState = BatteryChargeState(chargePercent: uint8, isCharging: bool)

  /** The text `display_batt_attr` leaves in `batt_status`: `snprintf` of
      `"charging..."` when charging and of `"%d%c"` with the percent and
      `'%'` otherwise, into the 40-byte buffer. Nothing is ever cut off. */
  function BatteryText(state: BatteryChargeState): (text: string)
    ensures state.isCharging ==> text == ChargingText
    ensures !state.isCharging ==> text == Decimal(state.chargePercent) + "%"
    ensures |text| <= 11 && |text| < BattStatusSize
  {
    if state.isCharging then
      assert NoConversions(ChargingText);
      Snprintf(BattStatusSize, Printf(ChargingText, []).value).written
    else
      PrintfIntChar(state.chargePercent, '%');
      DecimalLength(state.chargePercent, 3);
      Snprintf(BattStatusSize, Printf("%d%c", [IntArg(state.chargePercent), CharArg('%')]).value).written
  }

  /** The text `update_time` leaves in `s_buffer`: `strftime` with `"%I:%M"`
      into the 8-byte buffer. */
  function Time12Text(now: Tm): (text: string)
    requires ValidTm(now)
    ensures text == TwoDigits(Hour12(now.hour)) + ":" + TwoDigits(now.minute)
  {
    StrftimeHourMinute('I', now);
    Strftime(TimeBufferSize, "%I:%M", now).value
  }

  /** The text `update_time` leaves in `t_buffer`: `strftime` with `"%H:%M"`
      into the 8-byte buffer. */
  function Time24Text(now: Tm): (text: string)
    requires ValidTm(now)
    ensures text == TwoDigits(now.hour) + ":" + TwoDigits(now.minute)
  {
    StrftimeHourMinute('H', now);
    Strftime(TimeBufferSize, "%H:%M", now).value
  }

  /** When not charging the percent can be read back from the text: all
      but the last character are its unpadded decimal numeral and the last
      character is a single '%'. */
  lemma BatteryTextReadBack(state: BatteryChargeState)
    requires !state.isCharging
    ensures var text := BatteryText(state);
            2 <= |text| && text[|text| - 1] == '%'
            && Canonical(text[..|text| - 1]) && ValueOf(text[..|text| - 1]) == state.chargePercent
  {
    var text := BatteryText(state);
    assert text[..|text| - 1] == Decimal(state.chargePercent);
    ValueOfDecimal(state.chargePercent);
  }

  /** Two battery states give the same text exactly when both are charging,
      or neither is and their percents agree. */
  lemma BatteryTextInjective(a: BatteryChargeState, b: BatteryChargeState)
    ensures BatteryText(a) == BatteryText(b)
        <==> (a.isCharging && b.isCharging)
             || (!a.isCharging && !b.isCharging && a.chargePercent == b.chargePercent)
  {
    if !a.isCharging && !b.isCharging && BatteryText(a) == BatteryText(b) {
      BatteryTextReadBack(a);
      BatteryTextReadBack(b);
    }
  }

  /** The battery placeholder is not a text the formatter can produce: it
      is wider than every live non-charging text below 100 percent and as
      wide as "100%", whose digits differ. */
  lemma BatteryPlaceholderNeverLive(state: BatteryChargeState)
    ensures BatteryText(state) != BatteryPlaceholder
    ensures !state.isCharging && state.chargePercent < 100
            ==> |BatteryText(state)| < |BatteryPlaceholder|
  {
    if !state.isCharging {
      var text, digits := BatteryText(state), Decimal(state.chargePercent);
      if state.chargePercent < 100 {
        DecimalLength(state.chargePercent, 2);
      } else {
        assert text[0] == digits[0] != BatteryPlaceholder[0];
      }
    }
  }

  /** The 24-hour text is five characters, the hour and the minute as two
      digits each around a colon, and reads back to the hour and minute. */
  lemma Time24TextReadBack(now: Tm)
    requires ValidTm(now)
    ensures var text := Time24Text(now);
            |text| == 5 && |text| < TimeBufferSize && text[2] == ':'
            && AllDigits(text[..2]) && ValueOf(text[..2]) == now.hour
            && AllDigits(text[3..]) && ValueOf(text[3..]) == now.minute
  {
  }

  /** The 12-hour text has the same shape, with the hour in 01..12. */
  lemma Time12TextReadBack(now: Tm)
    requires ValidTm(now)
    ensures var text := Time12Text(now);
            |text| == 5 && |text| < TimeBufferSize && text[2] == ':'
            && AllDigits(text[..2]) && 1 <= ValueOf(text[..2]) <= 12
            && ValueOf(text[..2]) % 12 == now.hour % 12
            && AllDigits(text[3..]) && ValueOf(text[3..]) == now.minute
  {
  }

  /** The 24-hour text determines the hour and the minute; the seconds
      never show. */
  lemma Time24TextInjective(a: Tm, b: Tm)
    requires ValidTm(a) && ValidTm(b)
    ensures Time24Text(a) == Time24Text(b) <==> a.hour == b.hour && a.minute == b.minute
  {
    Time24TextReadBack(a);
    Time24TextReadBack(b);
  }

  /** The 12-hour text, having no AM/PM marker, determines the hour only
      modulo 12: two times show the same text exactly when their hours
      agree modulo 12 and their minutes agree. */
  lemma Time12TextInjective(a: Tm, b: Tm)
    requires ValidTm(a) && ValidTm(b)
    ensures Time12Text(a) == Time12Text(b) <==> a.hour % 12 == b.hour % 12 && a.minute == b.minute
  {
    Time12TextReadBack(a);
    Time12TextReadBack(b);
    if a.hour % 12 == b.hour % 12 {
      assert Hour12(a.hour) == Hour12(b.hour);
    }
  }

  /** How the two texts relate: equal from 01:00 to 12:59, twelve hours
      apart in the afternoon and evening, "12" for the midnight hour. */
  lemma Time12FromTime24(now: Tm)
    requires ValidTm(now)
    ensures 1 <= now.hour <= 12 ==> Time12Text(now) == Time24Text(now)
    ensures 13 <= now.hour ==> Time12Text(now) == Time24Text(now.(hour := now.hour - 12))
    ensures now.hour == 0 ==> Time12Text(now) == Time24Text(now.(hour := 12))
  {
  }

  /** The time placeholder is the 24-hour text of midnight and no other
      time, and never a 12-hour text. */
  lemma TimePlaceholderLive(now: Tm)
    requires ValidTm(now)
    ensures Time24Text(now) == TimePlaceholder <==> now.hour == 0 && now.minute == 0
    ensures Time12Text(now) != TimePlaceholder
  {
    var midnight := Tm(0, 0, 0);
    assert Time24Text(midnight) == TimePlaceholder by {
      assert TwoDigits(0) == "00";
    }
    Time24TextInjective(now, midnight);
    Time12TextReadBack(now);
  }

  /** What the three text layers show. */
  datatype Slots = Slots(time12: string, time24: string, battery: string)

  function InitialSlots(): Slots {
    Slots(TimePlaceholder, TimePlaceholder, BatteryPlaceholder)
  }

  /** The two notifications the host delivers: a tick, after which
      `update_time` samples the clock (`now`), and a battery change. */
  datatype Event = Tick(now: Tm) | BatteryChange(state: BatteryChargeState)

  predicate WellFormed(e: Event) {
    e.Tick? ==> ValidTm(e.now)
  }

  predicate AllWellFormed(events: seq<Event>) {
    forall i :: 0 <= i < |events| ==> WellFormed(events[i])
  }

  /** One handler run: a tick rewrites the two time slots, a battery change
      the battery slot. */
  function Dispatch(s: Slots, e: Event): (r: Slots)
    requires WellFormed(e)
    ensures e.Tick? ==> r.battery == s.battery
    ensures e.BatteryChange? ==> r.time12 == s.time12 && r.time24 == s.time24
  {
    match e
    case Tick(now) => s.(time12 := Time12Text(now), time24 := Time24Text(now))
    case BatteryChange(state) => s.(battery := BatteryText(state))
  }

  /** The slots after the handlers have run for `events`, in order. Ticks
      alone never touch the battery slot, and battery changes alone never
      touch the time slots. */
  function Replay(s: Slots, events: seq<Event>): (r: Slots)
    requires AllWellFormed(events)
    ensures (forall i :: 0 <= i < |events| ==> events[i].Tick?) ==> r.battery == s.battery
    ensures (forall i :: 0 <= i < |events| ==> events[i].BatteryChange?)
            ==> r.time12 == s.time12 && r.time24 == s.time24
  {
    if events == [] then s
    else Dispatch(Replay(s, events[..|events| - 1]), events[|events| - 1])
  }

  /** The clock sample of the last tick in `events`, if any. */
  function LastTick(events: seq<Event>): (t: Option<Tm>)
    requires AllWellFormed(events)
    ensures t.Some? ==> ValidTm(t.value)
  {
    if events == [] then None
    else if events[|events| - 1].Tick? then Some(events[|events| - 1].now)
    else LastTick(events[..|events| - 1])
  }

  /** The battery state of the last battery change in `events`, if any. */
  function LastBatteryChange(events: seq<Event>): Option<BatteryChargeState> {
    if events == [] then None
    else if events[|events| - 1].BatteryChange? then Some(events[|events| - 1].state)
    else LastBatteryChange(events[..|events| - 1])
  }

  /** Each slot holds the text of the most recent event that concerns it,
      or what it held before when no such event came: the slots are
      updated independently of each other. */
  lemma {:induction false} ReplayShowsLatest(s: Slots, events: seq<Event>)
    requires AllWellFormed(events)
    ensures var r := Replay(s, events);
            match LastTick(events)
            case None => r.time12 == s.time12 && r.time24 == s.time24
            case Some(t) => r.time12 == Time12Text(t) && r.time24 == Time24Text(t)
    ensures var r := Replay(s, events);
            match LastBatteryChange(events)
            case None => r.battery == s.battery
            case Some(b) => r.battery == BatteryText(b)
  {
    if events != [] {
      var init := events[..|events| - 1];
      assert AllWellFormed(init) by {
        forall i | 0 <= i < |init| ensures WellFormed(init[i]) {
          assert init[i] == events[i];
        }
      }
      ReplayShowsLatest(s, init);
    }
  }

  /** Handling an event twice shows what handling it once shows, and a
      tick and a battery change handled in either order show the same. */
  lemma DispatchIdempotentAndIndependent(s: Slots, now: Tm, state: BatteryChargeState)
    requires ValidTm(now)
    ensures Dispatch(Dispatch(s, Tick(now)), Tick(now)) == Dispatch(s, Tick(now))
    ensures Dispatch(Dispatch(s, BatteryChange(state)), BatteryChange(state)) == Dispatch(s, BatteryChange(state))
    ensures Dispatch(Dispatch(s, Tick(now)), BatteryChange(state))
         == Dispatch(Dispatch(s, BatteryChange(state)), Tick(now))
  {
  }

  /** Worked examples of the time formatters: a morning tick, an afternoon
      tick and the midnight hour. */
  lemma TimeExamples()
    ensures Time12Text(Tm(9, 5, 30)) == "09:05" && Time24Text(Tm(9, 5, 30)) == "09:05"
    ensures Time12Text(Tm(13, 0, 0)) == "01:00" && Time24Text(Tm(13, 0, 0)) == "13:00"
    ensures Time12Text(Tm(0, 7, 0)) == "12:07"
  {
    assert TwoDigits(9) == "09" && TwoDigits(5) == "05" && TwoDigits(7) == "07";
    assert TwoDigits(0) == "00" && TwoDigits(1) == "01";
    assert TwoDigits(13) == "13" && TwoDigits(12) == "12";
  }

  /** Worked examples of the battery formatter. */
  lemma BatteryExamples()
    ensures BatteryText(BatteryChargeState(7, false)) == "7%"
    ensures BatteryText(BatteryChargeState(100, false)) == "100%"
    ensures BatteryText(BatteryChargeState(45, true)) == "charging..."
  {
  }

  /** `main_window_load`: the three layers get their placeholders, then
      the battery state read from the battery service (`peek`) replaces
      the battery placeholder before loading returns. */
  method MainWindowLoad(peek: BatteryChargeState) returns (d: Display)
    ensures fresh(d)
    ensures d.time12 == TimePlaceholder && d.time24 == TimePlaceholder
    ensures d.battery == BatteryText(peek) && d.battery != BatteryPlaceholder
  {
    d := new Display();
    d.DisplayBattAttr(peek);
    BatteryPlaceholderNeverLive(peek);
  }

  /** The three text layers of the watchface and the texts they show. */
  class Display {
    var time12: string
    var time24: string
    var battery: string

    function Shown(): Slots
      reads this
    {
      Slots(time12, time24, battery)
    }

    /** The placeholders set when the main window is loaded. */
    constructor ()
      ensures Shown() == InitialSlots()
    {
      time12 := TimePlaceholder;
      time24 := TimePlaceholder;
      battery := BatteryPlaceholder;
    }

    /** `update_time`, given the clock sample: rewrites both time slots and
        leaves the battery slot alone. */
    method UpdateTime(now: Tm)
      requires ValidTm(now)
      modifies this
      ensures time12 == Time12Text(now) && time24 == Time24Text(now)
      ensures battery == old(battery)
      ensures Shown() == Dispatch(old(Shown()), Tick(now))
    {
      time12 := Time12Text(now);
      time24 := Time24Text(now);
    }

    /** `display_batt_attr`: rewrites the battery slot and leaves both time
        slots alone. */
    method DisplayBattAttr(battState: BatteryChargeState)
      modifies this
      ensures battery == BatteryText(battState)
      ensures time12 == old(time12) && time24 == old(time24)
      ensures Shown() == Dispatch(old(Shown()), BatteryChange(battState))
    {
      battery := BatteryText(battState);
    }
  }
}
