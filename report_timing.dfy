/** `utils/reportTiming.js` (repeated verbatim in `controllers/reportController.js`):
    a trainer's report for a training slot may be sent from 60 minutes before
    the slot starts; after 30 minutes before the start it is flagged late,
    and there is no closing time. */
module ReportTiming {
  import opened Common
  import opened Text
  import opened Time

  /** The fixed training slots, in the order the source lists them. */
  const Slots: seq<string> := ["08:00-09:30", "10:00-11:30", "16:00-17:00", "18:00-20:00", "20:00-22:00"]

  /** The start hour of each slot, in the same order. */
  const SlotStartHours: seq<int> := [8, 10, 16, 18, 20]

  datatype ClockTime = ClockTime(hour: int, minute: int)

  /** `getSlotStart(slot)`: the `HH:MM` before the first "-" read with
      `parseInt`; `None` stands for a `NaN` hour or minute. */
  function SlotStart(slot: string): Option<ClockTime>
  {
    var start := Split(slot, '-')[0];
    var hm := Split(start, ':');
    var hour := ParseInt(hm[0]);
    var minute := if |hm| > 1 then ParseInt(hm[1]) else None;
    if hour.Some? && minute.Some? then Some(ClockTime(hour.value, minute.value)) else None
  }

  /** The three instants `getWindowTimes` computes. */
  datatype Window = Window(startTime: int, windowStart: int, windowEnd: int)

  /** `getWindowTimes(trainingDate, slot)`: `None` when the slot does not parse
      (the source then computes with an Invalid Date). */
  function WindowTimes(trainingDate: int, slot: string): Option<Window>
  {
    match SlotStart(slot)
    case None => None
    case Some(ct) =>
      var startTime := SetHours(trainingDate, ct.hour, ct.minute, 0, 0);
      Some(Window(startTime, startTime - 60 * MsPerMinute, startTime - 30 * MsPerMinute))
  }

  /** `isLateAt`: `now > windowEnd` (every comparison with an Invalid Date is false). */
  predicate IsLateAt(trainingDate: int, slot: string, now: int)
  {
    var w := WindowTimes(trainingDate, slot);
    w.Some? && now > w.value.windowEnd
  }

  /** `canSubmitAt`: `now >= windowStart`. */
  predicate CanSubmitAt(trainingDate: int, slot: string, now: int)
  {
    var w := WindowTimes(trainingDate, slot);
    w.Some? && now >= w.value.windowStart
  }

  /** Only the part before the first "-" matters to `SlotStart`. */
  lemma {:induction false} SlotStartIgnoresEnd(slot: string, k: nat)
    requires k < |slot| && slot[k] == '-' && '-' !in slot[..k]
    ensures SlotStart(slot) == SlotStart(slot[..k])
  {
    SplitHead(slot, '-', k);
  }

  /** A start written `H:M` reads `H` as the hour and `M` as the minute. */
  lemma {:induction false} SlotStartOfParts(start: string, k: nat, hour: int, minute: int)
    requires k < |start| && start[k] == ':' && ':' !in start[..k] && ':' !in start[k + 1..]
    requires '-' !in start
    requires ParseInt(start[..k]) == Some(hour) && ParseInt(start[k + 1..]) == Some(minute)
    ensures SlotStart(start) == Some(ClockTime(hour, minute))
  {
    SplitOnce(start, ':', k);
  }

  /** The two halves of `HH:MM` parse as two-digit numbers and hold no
      separator. */
  lemma {:induction false} DigitParts(start: string)
    requires |start| == 5 && start[2] == ':'
    requires IsDigit(start[0]) && IsDigit(start[1]) && IsDigit(start[3]) && IsDigit(start[4])
    ensures ParseInt(start[..2]) == Some(10 * DigitValue(start[0]) + DigitValue(start[1]))
    ensures ParseInt(start[3..]) == Some(10 * DigitValue(start[3]) + DigitValue(start[4]))
    ensures ':' !in start[..2] && ':' !in start[3..] && '-' !in start
  {
    var h, m := start[..2], start[3..];
    assert h[0] == start[0] && h[1] == start[1] && |h| == 2;
    assert m[0] == start[3] && m[1] == start[4] && |m| == 2;
    ParseTwoDigits(h);
    ParseTwoDigits(m);
    NoSeparators(start);
  }

  /** `HH:MM` holds no "-" and a single ":". */
  lemma NoSeparators(start: string)
    requires |start| == 5 && start[2] == ':'
    requires IsDigit(start[0]) && IsDigit(start[1]) && IsDigit(start[3]) && IsDigit(start[4])
    ensures ':' !in start[..2] && ':' !in start[3..] && '-' !in start
  {
    assert forall i :: 0 <= i < 5 ==> start[i] == ':' || IsDigit(start[i]);
  }

  /** A start written `HH:MM` reads `HH` as the hour and `MM` as the minute. */
  lemma {:induction false} StartOfDigits(start: string, hour: int, minute: int)
    requires |start| == 5 && start[2] == ':'
    requires IsDigit(start[0]) && IsDigit(start[1]) && IsDigit(start[3]) && IsDigit(start[4])
    requires hour == 10 * DigitValue(start[0]) + DigitValue(start[1])
    requires minute == 10 * DigitValue(start[3]) + DigitValue(start[4])
    ensures SlotStart(start) == Some(ClockTime(hour, minute))
  {
    DigitParts(start);
    SlotStartOfParts(start, 2, hour, minute);
  }

  /** A slot written `HH:MM-…` starts at hour `HH` and minute `MM`. */
  lemma {:induction false} SlotStartOfDigits(slot: string, hour: int, minute: int)
    requires |slot| >= 6 && slot[2] == ':' && slot[5] == '-'
    requires IsDigit(slot[0]) && IsDigit(slot[1]) && IsDigit(slot[3]) && IsDigit(slot[4])
    requires hour == 10 * DigitValue(slot[0]) + DigitValue(slot[1])
    requires minute == 10 * DigitValue(slot[3]) + DigitValue(slot[4])
    ensures SlotStart(slot) == Some(ClockTime(hour, minute))
  {
    var start := slot[..5];
    assert forall i :: 0 <= i < 5 ==> start[i] == slot[i];
    assert '-' !in start by {
      assert forall i :: 0 <= i < 5 ==> start[i] == ':' || IsDigit(start[i]);
    }
    SlotStartIgnoresEnd(slot, 5);
    StartOfDigits(start, hour, minute);
  }

  /** Every listed slot starts on the hour given by `SlotStartHours`. */
  lemma {:induction false} ListedSlotStart(i: nat)
    requires i < |Slots|
    ensures i < |SlotStartHours|
    ensures SlotStart(Slots[i]) == Some(ClockTime(SlotStartHours[i], 0))
  {
    var slot := Slots[i];
    assert |slot| >= 6 && slot[2] == ':' && slot[5] == '-';
    assert slot[3] == '0' && slot[4] == '0';
    assert 10 * DigitValue(slot[3]) + DigitValue(slot[4]) == 0;
    assert IsDigit(slot[0]) && IsDigit(slot[1]);
    assert 10 * DigitValue(slot[0]) + DigitValue(slot[1]) == SlotStartHours[i];
    SlotStartOfDigits(slot, SlotStartHours[i], 0);
  }

  /** For a slot starting at a valid time of day, `startTime` is that time on
      the training date's own day, and the window opens 60 and closes 30
      minutes before it. */
  lemma {:induction false} WindowOfSlot(trainingDate: int, slot: string, hour: int, minute: int)
    requires SlotStart(slot) == Some(ClockTime(hour, minute))
    requires 0 <= hour < 24 && 0 <= minute < 60
    ensures WindowTimes(trainingDate, slot).Some?
    ensures var w := WindowTimes(trainingDate, slot).value;
      && SameDay(w.startTime, trainingDate)
      && w.startTime - StartOfDay(trainingDate) == hour * MsPerHour + minute * MsPerMinute
      && w.windowStart == w.startTime - 60 * MsPerMinute
      && w.windowEnd == w.startTime - 30 * MsPerMinute
  {
    assert 0 <= hour * MsPerHour + minute * MsPerMinute < MsPerDay by {
      assert MsPerHour == 3600000 && MsPerMinute == 60000 && MsPerDay == 86400000;
    }
    SetHoursSameDay(trainingDate, hour, minute, 0, 0);
  }

  /** The three outcomes: before the window nothing may be sent; inside it a
      submission is on time; after it a submission is late but accepted. */
  lemma Classification(trainingDate: int, slot: string, now: int)
    requires WindowTimes(trainingDate, slot).Some?
    ensures var w := WindowTimes(trainingDate, slot).value;
      && (CanSubmitAt(trainingDate, slot, now) <==> now >= w.windowStart)
      && (IsLateAt(trainingDate, slot, now) <==> now > w.windowEnd)
      && (IsLateAt(trainingDate, slot, now) ==> CanSubmitAt(trainingDate, slot, now))
      && (w.windowStart <= now <= w.windowEnd ==> CanSubmitAt(trainingDate, slot, now) && !IsLateAt(trainingDate, slot, now))
  {
  }

  /** There is no upper bound: once late, every later instant is late and
      still accepted. */
  lemma NoUpperBound(trainingDate: int, slot: string, now: int, later: int)
    requires IsLateAt(trainingDate, slot, now) && now <= later
    ensures IsLateAt(trainingDate, slot, later) && CanSubmitAt(trainingDate, slot, later)
  {
  }

  /** A slot whose start does not parse is never submittable and never late. */
  lemma UnparsableSlot(trainingDate: int, slot: string, now: int)
    requires SlotStart(slot).None?
    ensures !CanSubmitAt(trainingDate, slot, now) && !IsLateAt(trainingDate, slot, now)
  {
  }

  /** The three cases of `test/reportTiming.test.js` for the 08:00 slot on a
      training day starting at midnight `day`: 06:59 is too early, 07:15 on
      time, 07:31 late; the window runs from 07:00 to 07:30. */
  lemma {:induction false} EightOClockSlot(day: int)
    requires IsMidnight(day)
    ensures WindowTimes(day, Slots[0]).Some?
    ensures WindowTimes(day, Slots[0]).value.windowStart == day + 7 * MsPerHour
    ensures WindowTimes(day, Slots[0]).value.windowEnd == day + 7 * MsPerHour + 30 * MsPerMinute
    ensures !CanSubmitAt(day, Slots[0], day + 6 * MsPerHour + 59 * MsPerMinute)
    ensures !IsLateAt(day, Slots[0], day + 6 * MsPerHour + 59 * MsPerMinute)
    ensures CanSubmitAt(day, Slots[0], day + 7 * MsPerHour + 15 * MsPerMinute)
    ensures !IsLateAt(day, Slots[0], day + 7 * MsPerHour + 15 * MsPerMinute)
    ensures CanSubmitAt(day, Slots[0], day + 7 * MsPerHour + 31 * MsPerMinute)
    ensures IsLateAt(day, Slots[0], day + 7 * MsPerHour + 31 * MsPerMinute)
  {
    ListedSlotStart(0);
    WindowOfSlot(day, Slots[0], 8, 0);
    DayOfInstant(day, day);
  }
}
