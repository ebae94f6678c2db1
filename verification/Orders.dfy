/**
 * The pure formatting steps of rendering one order (`get_orders` in
 * main.py): the requester's phone number cleaned for a `t.me/` link, and
 * the group's weekly schedule as text, one line per schedule entry.
 */
module Orders {
  import opened Wrappers
  import opened Text
  import opened Tables

  /** The characters stripped from a phone number. */
  predicate IsPhoneSeparator(c: char) {
    c == '(' || c == ')' || c == '-' || c == ' '
  }

  /**
   * `phone.replace('(','').replace(')','').replace('-','').replace(' ','')`,
   * four deletions applied one after the other, exactly as written.
   */
  function NormalizePhone(phone: string): string {
    RemoveAll(RemoveAll(RemoveAll(RemoveAll(phone, '('), ')'), '-'), ' ')
  }

  /** Reference definition: one pass keeping every non-separator character. */
  function KeepPhoneChars(s: string): string {
    if s == [] then []
    else if IsPhoneSeparator(s[0]) then KeepPhoneChars(s[1..])
    else [s[0]] + KeepPhoneChars(s[1..])
  }

  lemma {:induction false} RemoveAllConcat(a: string, b: string, c: char)
    ensures RemoveAll(a + b, c) == RemoveAll(a, c) + RemoveAll(b, c)
  {
    if a == [] {
      assert a + b == b;
    } else {
      assert (a + b)[0] == a[0] && (a + b)[1..] == a[1..] + b;
      RemoveAllConcat(a[1..], b, c);
    }
  }

  /** The four chained deletions are the single filtering pass. */
  lemma {:induction false} NormalizePhoneIsFilter(s: string)
    ensures NormalizePhone(s) == KeepPhoneChars(s)
  {
    if s != [] {
      var x, rest := [s[0]], s[1..];
      assert s == x + rest;
      NormalizePhoneIsFilter(rest);
      RemoveAllConcat(x, rest, '(');
      RemoveAllConcat(RemoveAll(x, '('), RemoveAll(rest, '('), ')');
      RemoveAllConcat(RemoveAll(RemoveAll(x, '('), ')'), RemoveAll(RemoveAll(rest, '('), ')'), '-');
      RemoveAllConcat(RemoveAll(RemoveAll(RemoveAll(x, '('), ')'), '-'),
                      RemoveAll(RemoveAll(RemoveAll(rest, '('), ')'), '-'), ' ');
      assert x[1..] == [];
    }
  }

  lemma {:induction false} KeepPhoneCharsFacts(s: string)
    ensures forall k :: 0 <= k < |KeepPhoneChars(s)| ==> !IsPhoneSeparator(KeepPhoneChars(s)[k])
    ensures forall c :: !IsPhoneSeparator(c) ==> multiset(KeepPhoneChars(s))[c] == multiset(s)[c]
    ensures IsSubsequence(KeepPhoneChars(s), s)
  {
    if s != [] {
      KeepPhoneCharsFacts(s[1..]);
      assert s == [s[0]] + s[1..];
      assert multiset(s) == multiset([s[0]]) + multiset(s[1..]);
      var r := KeepPhoneChars(s);
      if !IsPhoneSeparator(s[0]) {
        assert r == [s[0]] + KeepPhoneChars(s[1..]);
        assert multiset(r) == multiset([s[0]]) + multiset(KeepPhoneChars(s[1..]));
      }
    }
  }

  /**
   * The cleaned phone number has no `(`, `)`, `-` or space, keeps every
   * other character of the input as often as it occurs, and keeps them in
   * their original order.
   */
  lemma NormalizePhoneSpec(phone: string)
    ensures var r := NormalizePhone(phone);
      && (forall k :: 0 <= k < |r| ==> !IsPhoneSeparator(r[k]))
      && (forall c :: !IsPhoneSeparator(c) ==> multiset(r)[c] == multiset(phone)[c])
      && IsSubsequence(r, phone)
  {
    NormalizePhoneIsFilter(phone);
    KeepPhoneCharsFacts(phone);
  }

  lemma {:induction false} KeepPhoneCharsClean(s: string)
    requires forall k :: 0 <= k < |s| ==> !IsPhoneSeparator(s[k])
    ensures KeepPhoneChars(s) == s
  {
    if s != [] {
      KeepPhoneCharsClean(s[1..]);
    }
  }

  /** Cleaning an already clean number changes nothing. */
  lemma NormalizePhoneIdempotent(phone: string)
    ensures NormalizePhone(NormalizePhone(phone)) == NormalizePhone(phone)
  {
    NormalizePhoneSpec(phone);
    var r := NormalizePhone(phone);
    NormalizePhoneIsFilter(r);
    KeepPhoneCharsClean(r);
  }

  /** One schedule record of a group: weekday codes and a time range. */
  datatype ScheduleEntry = ScheduleEntry(weekDays: seq<int>, timeStart: string, timeEnd: string)

  /** `[WEEKDAYS_MAP[day] for day in days]`; None when a code is not in the table. */
  function DayNames(days: seq<int>): (r: Option<seq<string>>)
    ensures r.Some? <==> forall k :: 0 <= k < |days| ==> 0 <= days[k] <= 6
    ensures r.Some? ==> |r.value| == |days|
    ensures r.Some? ==> forall k :: 0 <= k < |days| ==> Some(r.value[k]) == WeekdayName(days[k])
  {
    if days == [] then Some([])
    else
      var n, ns := WeekdayName(days[0]), DayNames(days[1..]);
      if n.Some? && ns.Some? then Some([n.value] + ns.value) else None
  }

  /** The text of one entry, without its line break: `ПН, СР 10:00-11:30`. */
  function EntryBody(e: ScheduleEntry): Option<string> {
    match DayNames(e.weekDays)
    case Some(names) => Some(Join(names, ", ") + " " + e.timeStart + "-" + e.timeEnd)
    case None => None
  }

  /** The schedule text: each entry's body followed by a line break. */
  function ScheduleText(es: seq<ScheduleEntry>): Option<string> {
    if es == [] then Some("")
    else
      var b, t := EntryBody(es[0]), ScheduleText(es[1..]);
      if b.Some? && t.Some? then Some(b.value + "\n" + t.value) else None
  }

  /** True when every weekday code of every entry is in the table. */
  predicate KnownDays(es: seq<ScheduleEntry>) {
    forall i, k :: 0 <= i < |es| && 0 <= k < |es[i].weekDays| ==> 0 <= es[i].weekDays[k] <= 6
  }

  lemma KnownDaysAt(es: seq<ScheduleEntry>, i: nat)
    requires KnownDays(es) && i < |es|
    ensures EntryBody(es[i]).Some?
  {
    var days := es[i].weekDays;
    assert forall k :: 0 <= k < |days| ==> 0 <= days[k] <= 6;
  }

  /** True when no time string contains a line break. */
  predicate SingleLineTimes(es: seq<ScheduleEntry>) {
    forall i :: 0 <= i < |es| ==> '\n' !in es[i].timeStart && '\n' !in es[i].timeEnd
  }

  /** Rendering fails exactly when some weekday code is not in the table. */
  lemma {:induction false} ScheduleDefined(es: seq<ScheduleEntry>)
    ensures ScheduleText(es).Some? <==> KnownDays(es)
  {
    if es != [] {
      ScheduleDefined(es[1..]);
      assert forall i :: 1 <= i < |es| ==> es[i] == es[1..][i - 1];
    }
  }

  /** Rendering a concatenation is concatenating the renderings. */
  lemma {:induction false} ScheduleAppend(a: seq<ScheduleEntry>, b: seq<ScheduleEntry>)
    ensures ScheduleText(a + b).Some? <==> ScheduleText(a).Some? && ScheduleText(b).Some?
    ensures ScheduleText(a + b).Some? ==>
      ScheduleText(a + b).value == ScheduleText(a).value + ScheduleText(b).value
  {
    if a == [] {
      assert a + b == b;
    } else {
      ScheduleAppend(a[1..], b);
      assert (a + b)[0] == a[0] && (a + b)[1..] == a[1..] + b;
      if ScheduleText(a + b).Some? {
        var h, x, y := EntryBody(a[0]).value, ScheduleText(a[1..]).value, ScheduleText(b).value;
        assert h + "\n" + (x + y) == (h + "\n" + x) + y;
      }
    }
  }

  /** No weekday name contains a line break. */
  lemma WeekdayNameSingleLine(day: int)
    requires WeekdayName(day).Some?
    ensures '\n' !in WeekdayName(day).value
  {
    var k := if day == 0 then 6 else day - 1;
    assert WeekdayName(day).value == MondayFirst[k];
  }

  lemma WeekdayNamesSingleLine(days: seq<int>)
    requires DayNames(days).Some?
    ensures forall k :: 0 <= k < |days| ==> '\n' !in DayNames(days).value[k]
  {
    var names := DayNames(days).value;
    forall k | 0 <= k < |days| ensures '\n' !in names[k] {
      assert Some(names[k]) == WeekdayName(days[k]);
      WeekdayNameSingleLine(days[k]);
    }
  }

  lemma {:induction false} NoBreakInJoin(names: seq<string>)
    requires forall k :: 0 <= k < |names| ==> '\n' !in names[k]
    ensures '\n' !in Join(names, ", ")
  {
    if |names| > 1 {
      NoBreakInJoin(names[1..]);
    }
  }

  /** An entry whose days render has a single-line body. */
  lemma EntryBodySingleLine(e: ScheduleEntry)
    requires EntryBody(e).Some? && '\n' !in e.timeStart && '\n' !in e.timeEnd
    ensures '\n' !in EntryBody(e).value
  {
    WeekdayNamesSingleLine(e.weekDays);
    NoBreakInJoin(DayNames(e.weekDays).value);
  }

  /**
   * Putting a line in front of a list of lines that matches a list of
   * items (one line per item, then a final empty one) keeps the match.
   */
  lemma ConsLines<T>(f: T -> Option<string>, b: string, rest: seq<string>, e: T, tail: seq<T>)
    requires Some(b) == f(e)
    requires |rest| == |tail| + 1 && rest[|tail|] == ""
    requires forall i :: 0 <= i < |tail| ==> Some(rest[i]) == f(tail[i])
    ensures var lines, es := [b] + rest, [e] + tail;
      && |lines| == |es| + 1 && lines[|es|] == ""
      && forall i :: 0 <= i < |es| ==> Some(lines[i]) == f(es[i])
  {
    var lines, es := [b] + rest, [e] + tail;
    forall i | 1 <= i < |es| ensures Some(lines[i]) == f(es[i]) {
      assert lines[i] == rest[i - 1] && es[i] == tail[i - 1];
    }
  }

  /** Appending one entry to a schedule appends its line. */
  lemma ScheduleSnoc(es: seq<ScheduleEntry>, e: ScheduleEntry)
    ensures ScheduleText(es + [e]) ==
      if ScheduleText(es).Some? && EntryBody(e).Some?
      then Some(ScheduleText(es).value + (EntryBody(e).value + "\n"))
      else None
  {
    ScheduleAppend(es, [e]);
    assert [e][1..] == [];
    if EntryBody(e).Some? {
      assert ScheduleText([e]) == Some(EntryBody(e).value + "\n" + "");
      assert EntryBody(e).value + "\n" + "" == EntryBody(e).value + "\n";
    }
  }

  /** Once a prefix fails to render, so does the whole schedule. */
  lemma SchedulePrefixFails(es: seq<ScheduleEntry>, i: nat)
    requires i <= |es| && ScheduleText(es[..i]).None?
    ensures ScheduleText(es).None?
  {
    ScheduleAppend(es[..i], es[i..]);
    assert es[..i] + es[i..] == es;
  }

  /** Appending the pieces of a line one after another. */
  lemma AppendLine(acc: string, names: string, ts: string, te: string)
    ensures acc + names + (" " + ts + "-" + te + "\n") == acc + (names + " " + ts + "-" + te + "\n")
  {
  }

  /**
   * When it renders, the schedule has one line per entry, in order, each
   * naming that entry's days and times, and ends with a line break.
   */
  lemma {:induction false} ScheduleLines(es: seq<ScheduleEntry>)
    requires KnownDays(es) && SingleLineTimes(es)
    ensures ScheduleText(es).Some?
    ensures var lines := Split(ScheduleText(es).value, '\n');
      && |lines| == |es| + 1 && lines[|es|] == ""
      && forall i :: 0 <= i < |es| ==> Some(lines[i]) == EntryBody(es[i])
  {
    ScheduleDefined(es);
    if es != [] {
      var tail := es[1..];
      assert KnownDays(tail) && SingleLineTimes(tail) by {
        assert forall i :: 0 <= i < |tail| ==> tail[i] == es[i + 1];
      }
      ScheduleLines(tail);
      KnownDaysAt(es, 0);
      var b := EntryBody(es[0]).value;
      var t := ScheduleText(tail).value;
      EntryBodySingleLine(es[0]);
      SplitCons(b, '\n', t);
      assert ScheduleText(es).value == b + "\n" + t;
      assert [es[0]] + tail == es;
      ConsLines(EntryBody, b, Split(t, '\n'), es[0], tail);
    }
  }

  /**
   * The loop at main.py:370-373: for each entry, append the joined day
   * names, then the time range and a line break. Fails (the bot's
   * KeyError) on the first unknown weekday code.
   */
  method BuildSchedule(es: seq<ScheduleEntry>) returns (text: Option<string>)
    ensures text == ScheduleText(es)
  {
    var acc := "";
    var i := 0;
    while i < |es|
      invariant 0 <= i <= |es|
      invariant ScheduleText(es[..i]) == Some(acc)
    {
      ScheduleSnoc(es[..i], es[i]);
      assert es[..i + 1] == es[..i] + [es[i]];
      var names := DayNames(es[i].weekDays);
      if names.None? {
        SchedulePrefixFails(es, i + 1);
        return None;
      }
      ghost var before := acc;
      acc := acc + Join(names.value, ", ");
      acc := acc + (" " + es[i].timeStart + "-" + es[i].timeEnd + "\n");
      AppendLine(before, Join(names.value, ", "), es[i].timeStart, es[i].timeEnd);
      i := i + 1;
    }
    assert es[..i] == es;
    text := Some(acc);
  }
}
