/** `components/common/DateTimePickerButton.js`: the two-step date-then-time
    selection. Dates are records of calendar and clock fields in local time;
    the 100 ms timer that reopens the Android picker is the method
    `ReopenForTime`, run when it fires. */
module DatePicker {
  import opened Wrappers

  datatype DateTime = DateTime(year: int, month: int, day: int,
                               hours: int, minutes: int, seconds: int, millis: int)

  datatype Mode = DateMode | TimeMode

  /** `Platform.OS`: Android, or any other platform, which takes the iOS branch. */
  datatype Platform = Android | OtherPlatform

  /** A copy of `d` with `setHours` and `setMinutes` applied from `from`:
      the calendar date, seconds and milliseconds stay those of `d`. */
  function WithClockOf(d: DateTime, from: DateTime): (r: DateTime)
    ensures r.hours == from.hours && r.minutes == from.minutes
    ensures r.year == d.year && r.month == d.month && r.day == d.day
    ensures r.seconds == d.seconds && r.millis == d.millis
  {
    d.(hours := from.hours, minutes := from.minutes)
  }

  /** Taking the clock twice keeps only the second: the date step's borrowed
      hours and minutes are overwritten by the time step. */
  lemma WithClockOfTwice(d: DateTime, a: DateTime, b: DateTime)
    ensures WithClockOf(WithClockOf(d, a), b) == WithClockOf(d, b)
  {
  }

  class DateTimePickerButton {
    var showPicker: bool
    var pickerMode: Mode
    var tempDate: DateTime
    /** The `setTimeout` scheduled after an Android date selection has not fired yet. */
    var reopenPending: bool

    constructor (value: DateTime)
      ensures !showPicker && pickerMode == DateMode && tempDate == value && !reopenPending
    {
      showPicker, pickerMode, tempDate := false, DateMode, value;
      reopenPending := false;
    }

    /** `handlePress`: opens the picker on the date step with the current value. */
    method HandlePress(value: DateTime)
      modifies this
      ensures showPicker && pickerMode == DateMode && tempDate == value
      ensures reopenPending == old(reopenPending)
    {
      showPicker, pickerMode, tempDate := true, DateMode, value;
    }

    /** `handleChange(event, selectedDate)`, where `eventType` is `event.type`.
        Returns the value passed to `onChange`, if any. */
    method HandleChange(platform: Platform, eventType: string, selectedDate: Option<DateTime>)
      returns (emitted: Option<DateTime>)
      modifies this
      ensures pickerMode == old(pickerMode)
      ensures platform == OtherPlatform ==>
        && emitted.None? && tempDate == selectedDate.GetOr(old(tempDate))
        && showPicker == old(showPicker) && reopenPending == old(reopenPending)
      ensures platform == Android ==> !showPicker
      ensures platform == Android && eventType != "set" ==>
        emitted.None? && tempDate == old(tempDate) && reopenPending == old(reopenPending)
      ensures platform == Android && eventType == "set" && old(pickerMode) == DateMode ==>
        && emitted.None? && reopenPending
        && tempDate == WithClockOf(selectedDate.GetOr(old(tempDate)), old(tempDate))
      ensures platform == Android && eventType == "set" && old(pickerMode) == TimeMode ==>
        && tempDate == WithClockOf(old(tempDate), selectedDate.GetOr(old(tempDate)))
        && emitted == Some(tempDate) && reopenPending == old(reopenPending)
    {
      var current := selectedDate.GetOr(tempDate);
      emitted := None;
      if platform == Android {
        showPicker := false;
        if eventType == "set" {
          if pickerMode == DateMode {
            tempDate := WithClockOf(current, tempDate);
            reopenPending := true;
          } else {
            var finalDate := WithClockOf(tempDate, current);
            tempDate := finalDate;
            emitted := Some(finalDate);
          }
        }
      } else {
        tempDate := current;
      }
    }

    /** The timer callback: the picker reopens on the time step. */
    method ReopenForTime()
      requires reopenPending
      modifies this
      ensures showPicker && pickerMode == TimeMode && !reopenPending
      ensures tempDate == old(tempDate)
    {
      pickerMode, showPicker := TimeMode, true;
      reopenPending := false;
    }

    /** `handleIOSConfirm`: "Next" on the date step, "Confirm" on the time
        step. Returns the value passed to `onChange`, if any. */
    method HandleIOSConfirm() returns (emitted: Option<DateTime>)
      modifies this
      ensures old(pickerMode) == DateMode ==>
        pickerMode == TimeMode && showPicker == old(showPicker) && emitted.None?
      ensures old(pickerMode) == TimeMode ==>
        pickerMode == TimeMode && !showPicker && emitted == Some(old(tempDate))
      ensures tempDate == old(tempDate) && reopenPending == old(reopenPending)
    {
      if pickerMode == DateMode {
        pickerMode := TimeMode;
        emitted := None;
      } else {
        showPicker := false;
        emitted := Some(tempDate);
      }
    }

    /** `handleIOSCancel`: "Back" on the time step, "Cancel" on the date step;
        either way the selection restarts from `value`. */
    method HandleIOSCancel(value: DateTime)
      modifies this
      ensures tempDate == value && pickerMode == DateMode
      ensures old(pickerMode) == TimeMode ==> showPicker == old(showPicker)
      ensures old(pickerMode) == DateMode ==> !showPicker
      ensures reopenPending == old(reopenPending)
    {
      if pickerMode == TimeMode {
        pickerMode := DateMode;
        tempDate := value;
      } else {
        showPicker := false;
        tempDate := value;
      }
    }
  }

  /** A whole Android selection: press, pick a date, let the timer reopen the
      picker, pick a time. `onChange` receives the picked date with the picked
      hours and minutes, and the seconds and milliseconds of the picked date. */
  method AndroidSelection(value: DateTime, pickedDate: DateTime, pickedTime: DateTime)
    returns (emitted: Option<DateTime>)
    ensures emitted == Some(WithClockOf(pickedDate, pickedTime))
  {
    var button := new DateTimePickerButton(value);
    button.HandlePress(value);
    var first := button.HandleChange(Android, "set", Some(pickedDate));
    button.ReopenForTime();
    emitted := button.HandleChange(Android, "set", Some(pickedTime));
    WithClockOfTwice(pickedDate, value, pickedTime);
  }

  /** A whole iOS selection: press, spin to a date, "Next", spin to a time,
      "Confirm". `onChange` receives the last value the spinner reported. */
  method IOSSelection(value: DateTime, pickedDate: DateTime, pickedTime: DateTime)
    returns (emitted: Option<DateTime>)
    ensures emitted == Some(pickedTime)
  {
    var button := new DateTimePickerButton(value);
    button.HandlePress(value);
    var none := button.HandleChange(OtherPlatform, "set", Some(pickedDate));
    none := button.HandleIOSConfirm();
    none := button.HandleChange(OtherPlatform, "set", Some(pickedTime));
    emitted := button.HandleIOSConfirm();
  }
}
