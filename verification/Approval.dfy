/**
 * Sending an approval (`send_approval_comment`): the comment text, and
 * the edit made to the order message afterwards, whose status line is
 * rewritten to the approved label.
 */
module Approval {
  import opened Wrappers
  import opened Text
  import opened Digits
  import opened Clock
  import opened Tables
  import opened Tokens

  /** What the remote site answers to the approve request. */
  datatype RemoteResult = Accepted | Rejected(status: int) | Unreachable

  /** The new text of an order message and the callback tokens of its buttons (none: no keyboard). */
  datatype MessageEdit = MessageEdit(text: string, buttons: seq<string>)

  /** The display name used when a user record has none. */
  const NoFio: string := "Не указано"

  /**
   * `f"{date_str} {fio} {comment_suffix}"` with `date_str` the day and
   * month of `now` and `fio` defaulting to `Не указано` when the record has
   * none: the comment opens with the two-digit day and month, which read
   * back as the date's, then the name, then the suffix.
   */
  function ApprovalComment(now: DateTime, fio: Option<string>, suffix: string): (r: string)
    requires Valid(now)
    ensures var name := if fio.Some? then fio.value else NoFio;
      && |r| == 5 + 1 + |name| + 1 + |suffix|
      && r[2] == '.' && ParseDigits(r[..2]) == Some(now.day) && ParseDigits(r[3..5]) == Some(now.month)
      && r[5] == ' ' && r[6..6 + |name|] == name && r[6 + |name|] == ' '
      && r[7 + |name|..] == suffix
  {
    var date := DayMonth(now);
    var r := date + " " + fio.GetOr(NoFio) + " " + suffix;
    assert r[..2] == date[..2] && r[3..5] == date[3..];
    r
  }

  /**
   * The index of the first line that starts with a status emoji and is
   * followed by a line break (so not the last segment), if any.
   */
  function FirstStatusLine(lines: seq<string>): (r: Option<nat>)
    ensures r.Some? ==> r.value < |lines| - 1 && StartsWithStatus(lines[r.value])
    ensures r.Some? ==> forall j :: 0 <= j < r.value ==> !StartsWithStatus(lines[j])
    ensures r.None? ==> forall j :: 0 <= j < |lines| - 1 ==> !StartsWithStatus(lines[j])
  {
    if |lines| <= 1 then None
    else if StartsWithStatus(lines[0]) then Some(0)
    else
      match FirstStatusLine(lines[1..])
      case Some(k) => Some(k + 1)
      case None => None
  }

  /**
   * `re.sub(r'^(🆕|⏸️|✅|❌|🎓)[^\n]*\n', "✅ Подтверждена\n", text,
   * count=1, flags=re.MULTILINE)`, written as a scan over the lines: the
   * first line that starts with a status emoji and ends in a line break is
   * replaced by the approved label.
   */
  function RewriteStatus(text: string): string
    decreases |text|
  {
    if '\n' !in text then text
    else
      var i := IndexOf(text, '\n');
      if StartsWithStatus(text[..i]) then ApprovedLabel + "\n" + text[i + 1..]
      else text[..i] + "\n" + RewriteStatus(text[i + 1..])
  }

  /** The rewrite, seen from the first line break of the text. */
  lemma RewriteStatusAt(text: string, line: string, rest: string)
    requires '\n' !in line && text == line + "\n" + rest
    ensures RewriteStatus(text) ==
      if StartsWithStatus(line) then ApprovedLabel + "\n" + rest else line + "\n" + RewriteStatus(rest)
  {
    assert text[|line|] == '\n' && text[..|line|] == line;
    var i := IndexOf(text, '\n');
    assert i == |line|;
    assert text[i + 1..] == rest;
  }

  /** The lines of `text` after the rewrite. */
  function RewrittenLines(lines: seq<string>): seq<string> {
    match FirstStatusLine(lines)
    case Some(k) => lines[k := ApprovedLabel]
    case None => lines
  }

  lemma RewrittenLinesCons(line: string, tail: seq<string>)
    requires !StartsWithStatus(line) && |tail| >= 1
    ensures RewrittenLines([line] + tail) == [line] + RewrittenLines(tail)
  {
    var ls := [line] + tail;
    assert ls[1..] == tail;
    match FirstStatusLine(tail)
    case Some(k) =>
      assert FirstStatusLine(ls) == Some(k + 1);
      assert ls[k + 1 := ApprovedLabel] == [line] + tail[k := ApprovedLabel];
    case None =>
      assert FirstStatusLine(ls) == None;
  }

  /** Seen line by line, the rewrite replaces the first status line and nothing else. */
  lemma {:induction false} RewriteLines(text: string)
    ensures Split(RewriteStatus(text), '\n') == RewrittenLines(Split(text, '\n'))
    decreases |text|
  {
    if '\n' in text {
      var i := IndexOf(text, '\n');
      var line, rest := text[..i], text[i + 1..];
      var tail := Split(rest, '\n');
      assert Split(text, '\n') == [line] + tail;
      if StartsWithStatus(line) {
        assert RewriteStatus(text) == ApprovedLabel + "\n" + rest;
        SplitCons(ApprovedLabel, '\n', rest);
        assert FirstStatusLine([line] + tail) == Some(0);
      } else {
        assert RewriteStatus(text) == line + "\n" + RewriteStatus(rest);
        RewriteLines(rest);
        SplitCons(line, '\n', RewriteStatus(rest));
        RewrittenLinesCons(line, tail);
      }
    }
  }

  /**
   * The rewrite changes at most one line: the first status line that is
   * followed by a line break becomes `✅ Подтверждена`; every other line is
   * kept; with no such line the text is returned unchanged.
   */
  lemma RewriteStatusSpec(text: string)
    ensures var before, after := Split(text, '\n'), Split(RewriteStatus(text), '\n');
      && |after| == |before|
      && (match FirstStatusLine(before)
          case Some(k) => after[k] == ApprovedLabel
            && forall j :: 0 <= j < |before| && j != k ==> after[j] == before[j]
          case None => RewriteStatus(text) == text)
  {
    RewriteLines(text);
    if FirstStatusLine(Split(text, '\n')).None? {
      JoinSplit(text, '\n');
      JoinSplit(RewriteStatus(text), '\n');
    }
  }

  /** Approving an approved message again changes nothing. */
  lemma RewriteIdempotent(text: string)
    ensures RewriteStatus(RewriteStatus(text)) == RewriteStatus(text)
  {
    var r := RewriteStatus(text);
    RewriteLines(text);
    RewriteLines(r);
    var ls := Split(text, '\n');
    match FirstStatusLine(ls)
    case Some(k) =>
      var ls' := ls[k := ApprovedLabel];
      assert StatusEmoji[2] <= ApprovedLabel;
      FirstStatusLineStable(ls, k);
      assert ls'[k := ApprovedLabel] == ls';
      JoinSplit(r, '\n');
      JoinSplit(RewriteStatus(r), '\n');
    case None =>
      RewriteStatusSpec(text);
  }

  lemma {:induction false} FirstStatusLineStable(ls: seq<string>, k: nat)
    requires FirstStatusLine(ls) == Some(k)
    ensures FirstStatusLine(ls[k := ApprovedLabel]) == Some(k)
  {
    assert StatusEmoji[2] <= ApprovedLabel;
    if k > 0 {
      assert ls[k := ApprovedLabel][1..] == ls[1..][k - 1 := ApprovedLabel];
      FirstStatusLineStable(ls[1..], k - 1);
    }
  }

  /**
   * An order message opens with its status label; approving it replaces
   * exactly that first line, whatever the status was.
   */
  lemma RewriteOrderMessage(code: string, restOfLine: string, more: string)
    requires StatusLabel(code).Some? && '\n' !in restOfLine
    ensures RewriteStatus(StatusLabel(code).value + restOfLine + "\n" + more) == ApprovedLabel + "\n" + more
  {
    var status := StatusLabel(code).value;
    var first := status + restOfLine;
    StatusLabelsStartWithStatus(code);
    PrefixStartsWithStatus(status, first);
    assert '\n' !in status;
    RewriteStatusAt(first + "\n" + more, first, more);
  }

  /** A line that extends a status line is a status line. */
  lemma PrefixStartsWithStatus(line: string, longer: string)
    requires StartsWithStatus(line) && line <= longer
    ensures StartsWithStatus(longer)
  {
  }

  /**
   * The message edit after the approve request, as written: the response
   * check is `if True or ...`, so the status line is rewritten and the
   * buttons removed whatever the remote site answered.
   */
  function EditAfterApprovalAsWritten(text: string, orderId: string, remote: RemoteResult): MessageEdit {
    MessageEdit(RewriteStatus(text), [])
  }

  /** As written, a rejected approval is still shown as approved. */
  lemma RejectedShownApprovedAsWritten()
    ensures EditAfterApprovalAsWritten("❌ Отменена\n", "7", Rejected(500)).text == "✅ Подтверждена\n"
  {
    var text := "❌ Отменена\n";
    assert StatusEmoji[3] <= "❌ Отменена";
    RewriteStatusAt(text, "❌ Отменена", "");
  }

  /**
   * As written, whatever the site answers, the edit is the one of an
   * accepted approval: the first status line reads approved and the
   * buttons are gone; with the answer checked, a failed approval keeps the
   * text and gets the order's action buttons back.
   */
  lemma FailedShownApprovedAsWritten(text: string, orderId: string, remote: RemoteResult)
    requires !remote.Accepted? && FirstStatusLine(Split(text, '\n')).Some?
    ensures var e := EditAfterApprovalAsWritten(text, orderId, remote);
      && e == EditAfterApproval(text, orderId, Accepted)
      && e.buttons == []
      && Split(e.text, '\n')[FirstStatusLine(Split(text, '\n')).value] == ApprovedLabel
    ensures var e := EditAfterApproval(text, orderId, remote);
      text <= e.text && e.buttons == ActionKeyboard(orderId)
  {
    RewriteStatusSpec(text);
  }

  /** The warnings appended below the message (after one more line break) when approval fails. */
  const RejectedNote: string := "\n⚠️ Ошибка: не удалось подтвердить."
  const UnreachableNote: string := "\n❌ Не удалось подключиться."

  /**
   * The message edit with the response checked: on success the status line
   * is rewritten and the buttons removed; on a rejection or a connection
   * failure the text is kept, a warning is appended and the order's action
   * buttons come back.
   */
  function EditAfterApproval(text: string, orderId: string, remote: RemoteResult): (e: MessageEdit)
    ensures remote.Accepted? ==> e.buttons == [] && Split(e.text, '\n') == RewrittenLines(Split(text, '\n'))
    ensures !remote.Accepted? ==> text <= e.text && e.buttons == ActionKeyboard(orderId)
  {
    RewriteLines(text);
    match remote
    case Accepted => MessageEdit(RewriteStatus(text), [])
    case Rejected(_) => MessageEdit(text + "\n" + RejectedNote, ActionKeyboard(orderId))
    case Unreachable => MessageEdit(text + "\n" + UnreachableNote, ActionKeyboard(orderId))
  }

  /**
   * With the response checked, a rejected or failed approval keeps every
   * line of the message in place, the status line included, and only adds
   * lines after them.
   */
  lemma FailedApprovalKeepsLines(text: string, orderId: string, remote: RemoteResult)
    requires !remote.Accepted?
    ensures var before, after := Split(text, '\n'), Split(EditAfterApproval(text, orderId, remote).text, '\n');
      |after| > |before| && after[..|before|] == before
  {
    var e := EditAfterApproval(text, orderId, remote);
    var note := if remote.Rejected? then RejectedNote else UnreachableNote;
    SplitConcat(text, '\n', note);
    assert (Split(text, '\n') + Split(note, '\n'))[..|Split(text, '\n')|] == Split(text, '\n');
  }
}
