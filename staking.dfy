/** The staking page's lock-duration picker: a button per duration and the
    number of weeks it locks for, kept as the text the page shows. */
module Staking {
  import opened Wrappers
  import Text

  /** The buttons, in the order the page lays them out. */
  const Durations: seq<string> := ["1W", "1M", "6M", "1Y", "4Y"]

  /** The `switch` of `handleDurationSelect`: weeks as text, "26" for any
      key it does not list. */
  function LockWeeks(duration: string): (r: string)
    ensures duration !in Durations ==> r == "26"
  {
    if duration == "1W" then "1"
    else if duration == "1M" then "4"
    else if duration == "6M" then "26"
    else if duration == "1Y" then "52"
    else if duration == "4Y" then "208"
    else "26"
  }

  /** The number of weeks a table entry reads as. */
  function WeeksOf(duration: string): Option<nat>
  {
    Text.ParseNumeral(LockWeeks(duration), 10)
  }

  /** The week counts, in button order. */
  const Counts: seq<nat> := [1, 4, 26, 52, 208]

  lemma ReadsTwoDigits(s: string, high: nat, low: nat)
    requires 1 <= high < 10 && low < 10
    requires |s| == 2 && s[0] == Text.DigitChar(high) && s[1] == Text.DigitChar(low)
    ensures Text.ParseNumeral(s, 10) == Some(high * 10 + low)
  {
    assert s[..1] == [s[0]];
    Text.DigitValueOfDigitChar(high, 10);
    Text.DigitValueOfDigitChar(low, 10);
  }

  /** Each button's entry reads as its week count. */
  lemma WeekCount(k: nat)
    requires k < |Durations|
    ensures WeeksOf(Durations[k]) == Some(Counts[k])
  {
    if k == 0 {
      assert LockWeeks("1W") == [Text.DigitChar(1)];
      Text.DigitValueOfDigitChar(1, 10);
    } else if k == 1 {
      assert LockWeeks("1M") == [Text.DigitChar(4)];
      Text.DigitValueOfDigitChar(4, 10);
    } else if k == 2 {
      ReadsTwoDigits(LockWeeks("6M"), 2, 6);
    } else if k == 3 {
      ReadsTwoDigits(LockWeeks("1Y"), 5, 2);
    } else {
      var s := LockWeeks("4Y");
      ReadsTwoDigits(s[..2], 2, 0);
      Text.DigitValueOfDigitChar(8, 10);
      assert s[2] == Text.DigitChar(8);
    }
  }

  /** Weeks grow strictly from each button to the next. */
  lemma WeeksIncreasing(k: nat)
    requires k + 1 < |Durations|
    ensures WeeksOf(Durations[k]).Some? && WeeksOf(Durations[k + 1]).Some?
    ensures WeeksOf(Durations[k]).value < WeeksOf(Durations[k + 1]).value
  {
    WeekCount(k);
    WeekCount(k + 1);
  }

  /** Four years lock for four times one year. */
  lemma FourYears()
    ensures WeeksOf("1Y").Some? && WeeksOf("4Y") == Some(4 * WeeksOf("1Y").value)
  {
    WeekCount(3);
    WeekCount(4);
  }

  /** Any key outside the buttons falls back to the 6-month entry. */
  lemma UnknownIsSixMonths(duration: string)
    requires duration !in Durations
    ensures LockWeeks(duration) == LockWeeks("6M")
  {
  }

  datatype Picker = Picker(cakeAmount: string, lockDuration: string, selectedDuration: string)

  const InitialPicker: Picker := Picker("0.00", "26", "6M")

  /** `handleDurationSelect`: the selection becomes the argument, known or
      not, and the weeks follow the table. */
  function DurationSelected(p: Picker, duration: string): (r: Picker)
    ensures r.selectedDuration == duration && r.cakeAmount == p.cakeAmount
    ensures r.lockDuration == LockWeeks(duration)
  {
    p.(selectedDuration := duration, lockDuration := LockWeeks(duration))
  }

  /** The state is consistent with the table from the start and after
      every selection. */
  predicate Consistent(p: Picker)
  {
    p.lockDuration == LockWeeks(p.selectedDuration)
  }

  lemma ConsistentAlways(p: Picker, duration: string)
    ensures Consistent(InitialPicker)
    ensures Consistent(DurationSelected(p, duration))
    ensures DurationSelected(DurationSelected(p, duration), duration) == DurationSelected(p, duration)
  {
  }

  class StakingForm {
    var cakeAmount: string
    var lockDuration: string
    var selectedDuration: string

    function Snapshot(): Picker
      reads this
    {
      Picker(cakeAmount, lockDuration, selectedDuration)
    }

    constructor ()
      ensures Snapshot() == InitialPicker
    {
      cakeAmount := "0.00";
      lockDuration := "26";
      selectedDuration := "6M";
    }

    method HandleDurationSelect(duration: string)
      modifies this
      ensures Snapshot() == DurationSelected(old(Snapshot()), duration)
    {
      selectedDuration := duration;
      if duration == "1W" {
        lockDuration := "1";
      } else if duration == "1M" {
        lockDuration := "4";
      } else if duration == "6M" {
        lockDuration := "26";
      } else if duration == "1Y" {
        lockDuration := "52";
      } else if duration == "4Y" {
        lockDuration := "208";
      } else {
        lockDuration := "26";
      }
    }

    /** The amount input stores whatever is typed. */
    method SetCakeAmount(text: string)
      modifies this
      ensures Snapshot() == old(Snapshot()).(cakeAmount := text)
    {
      cakeAmount := text;
    }
  }
}
