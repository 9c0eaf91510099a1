/** The weekday abbreviations of constants/UIText.java. */
module UIText {
  import opened JavaTime

  const DAY_MONDAY: string := "Пн"
  const DAY_TUESDAY: string := "Вт"
  const DAY_WEDNESDAY: string := "Ср"
  const DAY_THURSDAY: string := "Чт"
  const DAY_FRIDAY: string := "Пт"
  const DAY_SATURDAY: string := "Сб"
  const DAY_SUNDAY: string := "Нд"

  /** getDayShort: the abbreviation of an English day name; any other string comes back unchanged. */
  function DayShort(day: string): string {
    if day == "MONDAY" then DAY_MONDAY
    else if day == "TUESDAY" then DAY_TUESDAY
    else if day == "WEDNESDAY" then DAY_WEDNESDAY
    else if day == "THURSDAY" then DAY_THURSDAY
    else if day == "FRIDAY" then DAY_FRIDAY
    else if day == "SATURDAY" then DAY_SATURDAY
    else if day == "SUNDAY" then DAY_SUNDAY
    else day
  }

  /** The abbreviation switch of AdminSession.showWeeklyMenu, written over the enum itself. */
  function WeeklyMenuDayShort(d: DayOfWeek): string {
    match d
    case Monday => "Пн"
    case Tuesday => "Вт"
    case Wednesday => "Ср"
    case Thursday => "Чт"
    case Friday => "Пт"
    case Saturday => "Сб"
    case Sunday => "Нд"
  }

  /** getDayShort of a weekday's name agrees with the weekly menu's own switch. */
  lemma DayShortAgreesWithWeeklyMenu(d: DayOfWeek)
    ensures DayShort(d.Name()) == WeeklyMenuDayShort(d)
  {
    match d
    case Monday =>
    case Tuesday =>
    case Wednesday =>
    case Thursday =>
    case Friday =>
    case Saturday =>
    case Sunday =>
  }

  /** Distinct weekdays have distinct abbreviations. */
  lemma DayShortDistinct(a: DayOfWeek, b: DayOfWeek)
    requires a != b
    ensures DayShort(a.Name()) != DayShort(b.Name())
  {
    DayShortAgreesWithWeeklyMenu(a);
    DayShortAgreesWithWeeklyMenu(b);
  }

  /** A string that is not one of the seven English day names is returned as it is. */
  lemma DayShortOfOtherText(day: string)
    requires forall d: DayOfWeek :: day != d.Name()
    ensures DayShort(day) == day
  {
    assert day != Monday.Name() && day != Tuesday.Name() && day != Wednesday.Name();
    assert day != Thursday.Name() && day != Friday.Name() && day != Saturday.Name();
    assert day != Sunday.Name();
  }
}
