/** Status updates of the task-context tickets: the transition table and the
    line-based rewrite of a ticket's `status:` line. A ticket file is given as
    its text. */
module Tickets {
  import opened Results
  import PyStr

  // ------------------------------------------------------------------ transitions

  /** The statuses a ticket may carry (the `--status` choices). */
  const TicketStatuses: set<string> := {"todo", "in_progress", "blocked", "done", "cancelled"}

  /** `ALLOWED.get(current, set())`: the statuses a ticket may move to. */
  function Allowed(current: string): (r: set<string>)
    ensures r <= TicketStatuses
    ensures current !in TicketStatuses ==> r == {}
  {
    if current == "todo" then {"in_progress", "blocked", "cancelled", "todo"}
    else if current == "in_progress" then {"done", "blocked", "todo", "in_progress"}
    else if current == "blocked" then {"in_progress", "cancelled", "todo", "blocked"}
    else if current == "done" then {"done"}
    else if current == "cancelled" then {"cancelled"}
    else {}
  }

  /** Every status may stay as it is; `done` and `cancelled` admit nothing
      else; a ticket cannot jump from `todo` or `blocked` to `done`, nor be
      cancelled while in progress. */
  lemma TransitionTable(s: string)
    ensures s in TicketStatuses ==> s in Allowed(s)
    ensures Allowed("done") == {"done"} && Allowed("cancelled") == {"cancelled"}
    ensures "done" !in Allowed("todo") && "done" !in Allowed("blocked")
    ensures "cancelled" !in Allowed("in_progress")
  {
  }

  // ------------------------------------------------------------------ status line

  const StatusKey := "status:"
  const LegacyKey := "state:"

  /** The first line that starts with `status:`. */
  function StatusLineIndex(lines: seq<string>): (r: Option<nat>)
    ensures r.None? ==> forall i :: 0 <= i < |lines| ==> !PyStr.StartsWith(lines[i], StatusKey)
    ensures r.Some? ==> r.value < |lines| && PyStr.StartsWith(lines[r.value], StatusKey)
    ensures r.Some? ==> forall i :: 0 <= i < r.value ==> !PyStr.StartsWith(lines[i], StatusKey)
    decreases |lines|
  {
    if |lines| == 0 then None
    else if PyStr.StartsWith(lines[0], StatusKey) then Some(0)
    else
      match StatusLineIndex(lines[1..])
      case None => None
      case Some(k) => Some(k + 1)
  }

  /** The value of a `status:` line: what follows its first `:`, stripped. */
  function StatusValue(line: string): string
    requires PyStr.StartsWith(line, StatusKey)
  {
    PyStr.Strip(line[|StatusKey|..])
  }

  function ReadStatusLines(lines: seq<string>): (r: Option<string>)
    ensures r.Some? <==> StatusLineIndex(lines).Some?
  {
    match StatusLineIndex(lines)
    case None => None
    case Some(i) => Some(StatusValue(lines[i]))
  }

  /** `read_status`: the value of the first `status:` line, if any. */
  function ReadStatus(content: string): (r: Option<string>)
    ensures r.Some? <==> StatusLineIndex(PyStr.SplitLines(content)).Some?
  {
    ReadStatusLines(PyStr.SplitLines(content))
  }

  /** The line that replaces the first status line. */
  function StatusLine(status: string): (line: string)
    ensures PyStr.StartsWith(line, StatusKey) && !PyStr.StartsWith(line, LegacyKey)
  {
    var line := StatusKey + " " + status;
    assert line[4] == 'u' && LegacyKey[4] == 'e';
    line
  }

  /** The loop of `replace_status`: the first status line is rewritten, every
      `state:` line dropped and every other line kept, in order. */
  function ReplaceLines(lines: seq<string>, status: string, replaced: bool): (r: seq<string>)
    ensures |r| <= |lines|
    ensures forall i :: 0 <= i < |r| ==> !PyStr.StartsWith(r[i], LegacyKey)
    ensures forall i :: 0 <= i < |r| ==> r[i] in lines || r[i] == StatusLine(status)
    decreases |lines|
  {
    if |lines| == 0 then []
    else if !replaced && PyStr.StartsWith(lines[0], StatusKey) then
      [StatusLine(status)] + ReplaceLines(lines[1..], status, true)
    else if PyStr.StartsWith(lines[0], LegacyKey) then ReplaceLines(lines[1..], status, replaced)
    else [lines[0]] + ReplaceLines(lines[1..], status, replaced)
  }

  /** `replace_status` as the source writes it: the lines are joined with
      newlines and a final newline is added only when the input lacked one,
      so the newline an input ends with is lost. */
  function ReplaceStatusAsWritten(content: string, status: string): string {
    PyStr.Join(ReplaceLines(PyStr.SplitLines(content), status, false), "\n")
      + (if PyStr.EndsWith(content, "\n") then "" else "\n")
  }

  /** `replace_status` with every line, the last included, ended by a
      newline. */
  function ReplaceStatus(content: string, status: string): (r: string)
    ensures PyStr.EndsWith(r, "\n")
  {
    PyStr.Join(ReplaceLines(PyStr.SplitLines(content), status, false), "\n") + "\n"
  }

  /** A line that is not a status line does not change where reading finds
      the status. */
  lemma ReadPastLine(line: string, rest: seq<string>)
    requires !PyStr.StartsWith(line, StatusKey)
    ensures ReadStatusLines([line] + rest) == ReadStatusLines(rest)
  {
    assert ([line] + rest)[1..] == rest;
  }

  /** After the rewrite, the first status line is the new one. */
  lemma {:induction false} ReadReplacedLines(lines: seq<string>, status: string)
    requires StatusLineIndex(lines).Some?
    ensures ReadStatusLines(ReplaceLines(lines, status, false)) == Some(StatusValue(StatusLine(status)))
    decreases |lines|
  {
    if PyStr.StartsWith(lines[0], StatusKey) {
    } else if PyStr.StartsWith(lines[0], LegacyKey) {
      ReadReplacedLines(lines[1..], status);
    } else {
      ReadReplacedLines(lines[1..], status);
      ReadPastLine(lines[0], ReplaceLines(lines[1..], status, false));
    }
  }

  /** An unpadded status reads back as itself. */
  lemma StatusLineValue(status: string)
    requires |status| > 0 ==> !PyStr.IsSpace(status[0]) && !PyStr.IsSpace(status[|status| - 1])
    ensures StatusValue(StatusLine(status)) == status
  {
    assert StatusLine(status)[|StatusKey|..] == " " + status;
    PyStr.StripSpacePrefix(status);
  }

  /** No line boundary inside any of the lines. */
  predicate NoBreaks(lines: seq<string>) {
    forall i, j :: 0 <= i < |lines| && 0 <= j < |lines[i]| ==> !PyStr.IsLineBreak(lines[i][j])
  }

  /** The first boundary of `a + "\n" + b` ends `a` when `a` has none. */
  lemma FirstBreakAfter(a: string, b: string)
    requires forall j :: 0 <= j < |a| ==> !PyStr.IsLineBreak(a[j])
    ensures PyStr.FirstLineBreak(a + "\n" + b) == Some(|a|)
    decreases |a|
  {
    if |a| > 0 {
      assert (a + "\n" + b)[1..] == a[1..] + "\n" + b;
      FirstBreakAfter(a[1..], b);
    }
  }

  /** A first line without boundaries splits off at its newline. */
  lemma SplitLinesCons(a: string, b: string)
    requires forall j :: 0 <= j < |a| ==> !PyStr.IsLineBreak(a[j])
    ensures PyStr.SplitLines(a + "\n" + b) == [a] + PyStr.SplitLines(b)
  {
    var s := a + "\n" + b;
    FirstBreakAfter(a, b);
    assert s[|a|] == '\n';
    assert s[..|a|] == a;
    assert s[|a| + 1..] == b;
  }

  /** A first line that is not a status line is skipped by the reader. */
  lemma ReadStatusBehind(a: string, b: string)
    requires forall j :: 0 <= j < |a| ==> !PyStr.IsLineBreak(a[j])
    requires !PyStr.StartsWith(a, StatusKey)
    ensures ReadStatus(a + "\n" + b) == ReadStatus(b)
  {
    SplitLinesCons(a, b);
    ReadPastLine(a, PyStr.SplitLines(b));
  }

  /** A first status line is the one the reader takes. */
  lemma ReadStatusFront(status: string, b: string)
    requires PlainWord(status)
    ensures ReadStatus(StatusLine(status) + "\n" + b) == Some(status)
  {
    var sl := StatusLine(status);
    PlainWordIsOneLine(status);
    forall j | 0 <= j < |sl| ensures !PyStr.IsLineBreak(sl[j]) {
      assert j < 8 || sl[j] == status[j - 8];
    }
    SplitLinesCons(sl, b);
    StatusLineValue(status);
  }

  /** Lines joined with newlines and ended by one split back into the same
      lines. */
  lemma {:induction false} SplitLinesOfJoin(lines: seq<string>)
    requires |lines| >= 1 && NoBreaks(lines)
    ensures PyStr.SplitLines(PyStr.Join(lines, "\n") + "\n") == lines
    decreases |lines|
  {
    var s := PyStr.Join(lines, "\n") + "\n";
    if |lines| == 1 {
      FirstBreakAfter(lines[0], "");
      assert s == lines[0] + "\n" + "";
      assert s[|lines[0]| + 1..] == "";
    } else {
      var rest := PyStr.Join(lines[1..], "\n") + "\n";
      PyStr.JoinCons(lines[0], lines[1..], "\n");
      assert lines == [lines[0]] + lines[1..];
      assert s == lines[0] + "\n" + rest;
      FirstBreakAfter(lines[0], rest);
      assert s[|lines[0]| + 1..] == rest;
      assert s[..|lines[0]|] == lines[0];
      SplitLinesOfJoin(lines[1..]);
    }
  }

  /** Rewriting a ticket that has a status line to an unpadded one-line
      status reads back that status. */
  lemma ReadReplacedStatus(content: string, status: string)
    requires ReadStatus(content).Some?
    requires |status| > 0 ==> !PyStr.IsSpace(status[0]) && !PyStr.IsSpace(status[|status| - 1])
    requires forall j :: 0 <= j < |status| ==> !PyStr.IsLineBreak(status[j])
    ensures ReadStatus(ReplaceStatus(content, status)) == Some(status)
  {
    var lines := PyStr.SplitLines(content);
    var out := ReplaceLines(lines, status, false);
    ReadReplacedLines(lines, status);
    StatusLineValue(status);
    assert StatusLine(status) == StatusKey + " " + status;
    assert NoBreaks(out) by {
      forall i, j | 0 <= i < |out| && 0 <= j < |out[i]| ensures !PyStr.IsLineBreak(out[i][j]) {
        if out[i] != StatusLine(status) {
          assert out[i] in lines;
        } else {
          assert j < 8 || out[i][j] == status[j - 8];
        }
      }
    }
    SplitLinesOfJoin(out);
  }

  /** As written, a ticket that ends with a newline is written back without
      one, while one that does not is given one: each rewrite toggles the
      final newline. The rewrite is otherwise the corrected one. */
  lemma ReplaceStatusTogglesNewline(content: string, status: string)
    ensures PyStr.EndsWith(content, "\n") ==>
      ReplaceStatusAsWritten(content, status) + "\n" == ReplaceStatus(content, status)
    ensures !PyStr.EndsWith(content, "\n") ==> ReplaceStatusAsWritten(content, status) == ReplaceStatus(content, status)
  {
  }

  /** The smallest ticket shows it: `status: todo` with its newline comes
      back as `status: done` without one, and in general a one-line ticket
      loses its newline. */
  lemma ReplaceStatusDropsNewline(current: string, status: string)
    requires forall j :: 0 <= j < |current| ==> !PyStr.IsLineBreak(current[j])
    requires forall j :: 0 <= j < |status| ==> !PyStr.IsLineBreak(status[j])
    ensures ReplaceStatusAsWritten(StatusLine(current) + "\n", status) == StatusLine(status)
    ensures !PyStr.EndsWith(ReplaceStatusAsWritten(StatusLine(current) + "\n", status), "\n")
  {
    var line := StatusLine(current);
    assert NoBreaks([line]) by {
      forall j | 0 <= j < |line| ensures !PyStr.IsLineBreak(line[j]) {
        assert j < 8 || line[j] == current[j - 8];
      }
    }
    SplitLinesOfJoin([line]);
    assert PyStr.Join([line], "\n") == line;
    assert PyStr.SplitLines(line + "\n") == [line];
    assert ReplaceLines([line], status, false) == [StatusLine(status)];
    var r := StatusLine(status);
    assert r[|r| - 1] != '\n' by {
      if |status| > 0 {
        assert r[|r| - 1] == status[|status| - 1];
      }
    }
  }

  /** What the status update does: its exit code, the text it writes (if
      any) and the line it prints. */
  datatype Update = Update(code: int, written: Option<string>, message: string)

  /** `main` of `update_status` with the rewritten text given: a target
      outside the choices is refused by the argument parser (exit 2); a ticket
      without a status line, or a transition the table does not allow, exits 1
      without writing; otherwise `rewritten` is written and the transition
      reported. */
  function UpdateWith(name: string, text: string, target: string, rewritten: string): (r: Update)
    ensures target !in TicketStatuses ==> r.code == 2 && r.written.None?
    ensures r.code == 0 <==> target in TicketStatuses && ReadStatus(text).Some? && target in Allowed(ReadStatus(text).value)
    ensures r.code == 0 ==> r.written == Some(rewritten)
    ensures r.code != 0 ==> r.written.None?
    ensures r.code == 0 ==> r.message == "UPDATED: " + name + " " + ReadStatus(text).value + " -> " + target
  {
    if target !in TicketStatuses then Update(2, None, "error: argument --status: invalid choice")
    else match ReadStatus(text)
      case None => Update(1, None, "ERR: status not found")
      case Some(current) =>
        if target !in Allowed(current) then
          Update(1, None, "ERR: invalid transition " + current + " -> " + target)
        else
          Update(0, Some(rewritten), "UPDATED: " + name + " " + current + " -> " + target)
  }

  /** `main` of `update_status` as the source writes it: an allowed update
      writes `replace_status` as written, which toggles the final newline. */
  function UpdateStatus(name: string, text: string, target: string): (r: Update)
    ensures target !in TicketStatuses ==> r.code == 2 && r.written.None?
    ensures r.code == 0 <==> target in TicketStatuses && ReadStatus(text).Some? && target in Allowed(ReadStatus(text).value)
    ensures r.code == 0 && PyStr.EndsWith(text, "\n") ==> r.written.Some? && r.written.value + "\n" == ReplaceStatus(text, target)
    ensures r.code == 0 && !PyStr.EndsWith(text, "\n") ==> r.written == Some(ReplaceStatus(text, target))
    ensures r.code != 0 ==> r.written.None?
    ensures r.code == 0 ==> r.message == "UPDATED: " + name + " " + ReadStatus(text).value + " -> " + target
  {
    ReplaceStatusTogglesNewline(text, target);
    UpdateWith(name, text, target, ReplaceStatusAsWritten(text, target))
  }

  /** The update with the corrected rewrite, which keeps every line ended by
      a newline. */
  function UpdateStatusCorrected(name: string, text: string, target: string): (r: Update)
    ensures target !in TicketStatuses ==> r.code == 2 && r.written.None?
    ensures r.code == 0 <==> target in TicketStatuses && ReadStatus(text).Some? && target in Allowed(ReadStatus(text).value)
    ensures r.code == 0 ==> r.written == Some(ReplaceStatus(text, target)) && PyStr.EndsWith(r.written.value, "\n")
    ensures r.code != 0 ==> r.written.None?
    ensures r.code == 0 ==> r.message == "UPDATED: " + name + " " + ReadStatus(text).value + " -> " + target
  {
    UpdateWith(name, text, target, ReplaceStatus(text, target))
  }

  /** The two updates agree on the exit code and the message; they differ only
      in the final newline of a ticket that had one. */
  lemma UpdateStatusAgrees(name: string, text: string, target: string)
    ensures UpdateStatus(name, text, target).code == UpdateStatusCorrected(name, text, target).code
    ensures UpdateStatus(name, text, target).message == UpdateStatusCorrected(name, text, target).message
    ensures UpdateStatus(name, text, target).code == 0 && PyStr.EndsWith(text, "\n") ==>
      UpdateStatus(name, text, target).written.value + "\n" == UpdateStatusCorrected(name, text, target).written.value
  {
  }

  /** The smallest ticket shows the newline being lost by the update itself:
      `status: todo` with its newline, moved to `done`, is written back as
      `status: done` without one. */
  lemma UpdateStatusDropsNewline(name: string, current: string, target: string)
    requires PlainWord(current) && target in TicketStatuses && target in Allowed(current)
    ensures UpdateStatus(name, StatusLine(current) + "\n", target).code == 0
    ensures UpdateStatus(name, StatusLine(current) + "\n", target).written == Some(StatusLine(target))
  {
    StatusNamePlain(target);
    PlainWordIsOneLine(current);
    PlainWordIsOneLine(target);
    ReplaceStatusDropsNewline(current, target);
    ReadStatusFront(current, "");
    assert StatusLine(current) + "\n" + "" == StatusLine(current) + "\n";
  }

  /** A ticket that moved to a new status can be read back in it, so a
      second update starts from there. */
  lemma UpdateThenRead(name: string, text: string, target: string)
    requires UpdateStatusCorrected(name, text, target).code == 0
    ensures ReadStatus(UpdateStatusCorrected(name, text, target).written.value) == Some(target)
  {
    StatusNamePlain(target);
    PlainWordIsOneLine(target);
    ReadReplacedStatus(text, target);
  }

  /** Lower-case letters and `_` only. */
  predicate PlainWord(s: string) {
    forall i :: 0 <= i < |s| ==> 'a' <= s[i] <= 'z' || s[i] == '_'
  }

  lemma StatusNamePlain(t: string)
    requires t in TicketStatuses
    ensures PlainWord(t)
  {
  }

  /** A plain word has no padding and no line boundary. */
  lemma PlainWordIsOneLine(s: string)
    requires PlainWord(s)
    ensures |s| > 0 ==> !PyStr.IsSpace(s[0]) && !PyStr.IsSpace(s[|s| - 1])
    ensures forall j :: 0 <= j < |s| ==> !PyStr.IsLineBreak(s[j])
  {
    forall j | 0 <= j < |s| ensures !PyStr.IsSpace(s[j]) && !PyStr.IsLineBreak(s[j]) {
      assert 'a' <= s[j] <= 'z' || s[j] == '_';
    }
  }

  /** Once done, a ticket cannot be reopened: every update to another status
      fails with exit 1. */
  lemma DoneIsFinal(name: string, text: string, target: string)
    requires ReadStatus(text) == Some("done") && target in TicketStatuses && target != "done"
    ensures UpdateStatus(name, text, target).code == 1
    ensures UpdateStatus(name, text, target).written.None?
    ensures UpdateStatusCorrected(name, text, target).code == 1
  {
  }
}
