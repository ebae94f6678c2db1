/**
 * The two fixed lookup tables the bot renders orders with: the order
 * status vocabulary of the remote site and its weekday codes, where
 * Monday is 1 and Sunday is 0.
 */
module Tables {
  import opened Wrappers

  /** The status labels, keyed by the remote site's status code. */
  const StatusMap: map<string, string> := map[
    "initial" := "🆕 Новая",
    "pause" := "⏸️ Отложена",
    "approve" := "✅ Подтверждена",
    "cancel" := "❌ Отменена",
    "study" := "🎓 Обучается"
  ]

  /** The five emoji a status label begins with. */
  const StatusEmoji: seq<string> := ["🆕", "⏸️", "✅", "❌", "🎓"]

  /** The label shown once an order is approved. */
  const ApprovedLabel: string := "✅ Подтверждена"

  /** Weekday abbreviations, keyed by the remote site's weekday code. */
  const WeekdaysMap: map<int, string> := map[
    1 := "ПН", 2 := "ВТ", 3 := "СР", 4 := "ЧТ", 5 := "ПТ", 6 := "СБ", 0 := "ВС"
  ]

  /** The week in display order, Monday first. */
  const MondayFirst: seq<string> := ["ПН", "ВТ", "СР", "ЧТ", "ПТ", "СБ", "ВС"]

  /** True when `line` begins with one of the status emoji. */
  predicate StartsWithStatus(line: string) {
    || StatusEmoji[0] <= line || StatusEmoji[1] <= line || StatusEmoji[2] <= line
    || StatusEmoji[3] <= line || StatusEmoji[4] <= line
  }

  /**
   * `STATUS_MAP[code]`: the five known codes have their fixed labels and
   * any other code has no entry (a KeyError in the bot).
   */
  function StatusLabel(code: string): (r: Option<string>)
    ensures r.Some? <==> code in {"initial", "pause", "approve", "cancel", "study"}
    ensures code == "initial" ==> r == Some("🆕 Новая")
    ensures code == "pause" ==> r == Some("⏸️ Отложена")
    ensures code == "approve" ==> r == Some(ApprovedLabel)
    ensures code == "cancel" ==> r == Some("❌ Отменена")
    ensures code == "study" ==> r == Some("🎓 Обучается")
  {
    if code in StatusMap then Some(StatusMap[code]) else None
  }

  /** Every status label is recognised as a status line by its first emoji. */
  lemma StatusLabelsStartWithStatus(code: string)
    requires StatusLabel(code).Some?
    ensures StartsWithStatus(StatusLabel(code).value)
  {
    var l := StatusLabel(code).value;
    if code == "initial" { assert StatusEmoji[0] <= l; }
    else if code == "pause" { assert StatusEmoji[1] <= l; }
    else if code == "approve" { assert StatusEmoji[2] <= l; }
    else if code == "cancel" { assert StatusEmoji[3] <= l; }
    else { assert StatusEmoji[4] <= l; }
  }

  /** Distinct codes have distinct labels. */
  lemma StatusLabelsInjective(a: string, b: string)
    requires StatusLabel(a).Some? && StatusLabel(a) == StatusLabel(b)
    ensures a == b
  {
  }

  /**
   * `WEEKDAYS_MAP[day]`: defined exactly on 0..6, with 1 for Monday
   * (`ПН`) through 6 for Saturday and 0 for Sunday (`ВС`).
   */
  function WeekdayName(day: int): (r: Option<string>)
    ensures r.Some? <==> 0 <= day <= 6
    ensures 1 <= day <= 6 ==> r == Some(MondayFirst[day - 1])
    ensures day == 0 ==> r == Some("ВС")
  {
    if day in WeekdaysMap then Some(WeekdaysMap[day]) else None
  }

  /** The table is injective: two codes with one name are the same code. */
  lemma WeekdaysInjective(a: int, b: int)
    requires WeekdayName(a).Some? && WeekdayName(a) == WeekdayName(b)
    ensures a == b
  {
  }

  /**
   * Listing the codes 1, 2, ..., 6, 0 gives the week Monday first, i.e.
   * code `(k + 1) % 7` is the k-th day counting from Monday.
   */
  lemma WeekdaysMondayFirst(k: nat)
    requires k < 7
    ensures WeekdayName((k + 1) % 7) == Some(MondayFirst[k])
  {
  }
}
