/** How an exam countdown is shown: the days-left text and the "urgent"
    highlight. The number of days left is an input here (the page derives
    it from the clock). */
module Countdowns {
  import opened Wrappers
  import opened Text

  const AgoSuffix: string := " days ago"
  const LeftSuffix: string := " days left"

  /** `getDaysLeftText`: "N days ago" for a past day, "Today!", "Tomorrow!",
      and "N days left" from two days on. */
  function DaysLeftText(daysLeft: int): string {
    if daysLeft < 0 then Decimal(-daysLeft) + AgoSuffix
    else if daysLeft == 0 then "Today!"
    else if daysLeft == 1 then "Tomorrow!"
    else Decimal(daysLeft) + LeftSuffix
  }

  /** The countdown is highlighted as urgent from today up to a week ahead. */
  predicate IsUrgent(daysLeft: int) {
    daysLeft <= 7 && daysLeft >= 0
  }

  predicate EndsWith(s: string, suffix: string) {
    |suffix| <= |s| && s[|s| - |suffix|..] == suffix
  }

  /** The number written before `suffix` in `s`, if `s` is digits followed
      by `suffix`. */
  function CountBefore(s: string, suffix: string): Option<nat> {
    if EndsWith(s, suffix) && IsDigits(s[..|s| - |suffix|])
    then Some(DigitsValue(s[..|s| - |suffix|]))
    else None
  }

  /** Reads a days-left text back into the number of days it stands for. */
  function ParseDaysLeftText(s: string): Option<int> {
    if s == "Today!" then Some(0)
    else if s == "Tomorrow!" then Some(1)
    else if CountBefore(s, AgoSuffix).Some? then
      var days: int := CountBefore(s, AgoSuffix).value;
      Some(-days)
    else if CountBefore(s, LeftSuffix).Some? then Some(CountBefore(s, LeftSuffix).value)
    else None
  }

  /** The text says how many days are left: reading it back gives exactly
      the day count it was made from, so no two day counts share a text. */
  lemma DaysLeftTextRoundTrip(daysLeft: int)
    ensures ParseDaysLeftText(DaysLeftText(daysLeft)) == Some(daysLeft)
    ensures daysLeft == 0 ==> DaysLeftText(daysLeft) == "Today!"
    ensures daysLeft == 1 ==> DaysLeftText(daysLeft) == "Tomorrow!"
    ensures daysLeft < 0 ==> EndsWith(DaysLeftText(daysLeft), AgoSuffix)
    ensures daysLeft > 1 ==> EndsWith(DaysLeftText(daysLeft), LeftSuffix)
  {
    var s := DaysLeftText(daysLeft);
    if daysLeft < 0 {
      var digits := Decimal(-daysLeft);
      assert s[|s| - 1] == 'o';
      assert s[..|s| - |AgoSuffix|] == digits;
      assert EndsWith(s, AgoSuffix);
      DecimalRoundTrip(-daysLeft);
    } else if daysLeft > 1 {
      var digits := Decimal(daysLeft);
      assert s[|s| - 1] == 't';
      assert s[..|s| - |LeftSuffix|] == digits;
      assert EndsWith(s, LeftSuffix);
      DecimalRoundTrip(daysLeft);
    }
  }

  /** Two countdowns show the same text only if they have the same number
      of days left. */
  lemma DaysLeftTextInjective(a: int, b: int)
    requires DaysLeftText(a) == DaysLeftText(b)
    ensures a == b
  {
    DaysLeftTextRoundTrip(a);
    DaysLeftTextRoundTrip(b);
  }

  /** An urgent countdown is never shown as past, and "Today!" and
      "Tomorrow!" are always urgent. */
  lemma UrgentTexts(daysLeft: int)
    ensures EndsWith(DaysLeftText(daysLeft), AgoSuffix) ==> !IsUrgent(daysLeft)
    ensures DaysLeftText(daysLeft) in {"Today!", "Tomorrow!"} ==> IsUrgent(daysLeft)
  {
    var s := DaysLeftText(daysLeft);
    if EndsWith(s, AgoSuffix) {
      assert s[|s| - 1] == s[|s| - |AgoSuffix|..][|AgoSuffix| - 1] == 'o';
    }
    if daysLeft < 0 {
      assert s[|s| - 1] == 'o';
    } else if daysLeft > 1 {
      assert s[|s| - 1] == 't';
    }
  }

  /** The worked figures: today, tomorrow, yesterday, ten days and three
      days out. */
  lemma DaysLeftExamples()
    ensures DaysLeftText(0) == "Today!" && IsUrgent(0)
    ensures DaysLeftText(1) == "Tomorrow!"
    ensures DaysLeftText(-1) == "1 days ago"
    ensures DaysLeftText(10) == "10 days left" && !IsUrgent(10)
    ensures DaysLeftText(3) == "3 days left" && IsUrgent(3)
  {
    assert Decimal(1) == "1";
    assert DaysLeftText(-1) == Decimal(1) + AgoSuffix;
    assert Decimal(3) == "3";
    assert DaysLeftText(3) == Decimal(3) + LeftSuffix;
    assert Decimal(10) == "10";
    assert DaysLeftText(10) == Decimal(10) + LeftSuffix;
  }
}
