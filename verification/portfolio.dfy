/** The workflow portfolio status report: a markdown page with a summary of
    ticket statuses, a ticket table, and optional sections for the collected
    audit counts, the collaboration assignments and a mermaid map of the
    workflow topology. The page is kept as its list of lines; the text is
    their join with newlines (some lines carry newlines of their own). The
    two editions of the generator differ only in the word that labels a
    node's theta band in the map. */
module Portfolio {
  import opened Results
  import opened Json
  import PyStr
  import FrontMatter

  /** A ticket as its parsed front matter. */
  type Ticket = map<string, string>

  /** `t.get(key, default)` */
  function Field(t: Ticket, key: string, default: string): string {
    if key in t then t[key] else default
  }

  /** The label of the theta band in a map node, per edition. */
  const LegacyTheta := "\U{03B8}"
  const ProductTheta := "theta"

  // ---------------------------------------------------------------- tickets

  /** One ticket file: its path and its lines. */
  datatype TicketFile = TicketFile(path: string, lines: seq<string>)

  /** `fm.get("id")` is truthy. */
  predicate HasId(fm: Ticket) {
    "id" in fm && fm["id"] != ""
  }

  /** The ticket a file yields, if any. */
  function TicketOf(f: TicketFile): (r: Option<Ticket>)
    ensures r.Some? ==> HasId(r.value)
  {
    var fm := FrontMatter.Parse(f.lines);
    if HasId(fm) then Some(fm["_path" := f.path]) else None
  }

  /** `collect_tickets`: the front matter of every file whose `id` is
      non-empty, in file order, with the file's path under `_path`. */
  function CollectTickets(files: seq<TicketFile>): (r: seq<Ticket>)
    ensures |r| <= |files|
    decreases |files|
  {
    if |files| == 0 then []
    else
      match TicketOf(files[0])
      case Some(t) => [t] + CollectTickets(files[1..])
      case None => CollectTickets(files[1..])
  }

  /** Every collected ticket has a non-empty id. */
  lemma {:induction false} CollectedHaveIds(files: seq<TicketFile>)
    ensures forall t :: t in CollectTickets(files) ==> HasId(t)
    decreases |files|
  {
    if |files| > 0 {
      CollectedHaveIds(files[1..]);
    }
  }

  /** A file is kept exactly when its front matter has a non-empty id; the
      ticket then carries that front matter and the file's path. */
  lemma {:induction false} CollectTicketsKeeps(files: seq<TicketFile>, f: TicketFile)
    requires f in files
    ensures var fm := FrontMatter.Parse(f.lines);
            HasId(fm) ==> fm["_path" := f.path] in CollectTickets(files)
    decreases |files|
  {
    if files[0] != f {
      CollectTicketsKeeps(files[1..], f);
    }
  }

  /** A file without a first-line fence yields no ticket. */
  lemma CollectTicketsSkipsUnfenced(f: TicketFile)
    requires |f.lines| == 0 || !FrontMatter.IsFence(f.lines[0])
    ensures CollectTickets([f]) == []
  {
  }

  // ---------------------------------------------------------------- tables

  /** A markdown table row: `| a | b | c |`. */
  function TableRow(cells: seq<string>): (row: string)
    requires |cells| >= 1
    ensures |row| > 0 && row[0] == '|'
  {
    var rest := Padded(cells) + [""];
    assert [""] + Padded(cells) + [""] == [""] + rest;
    PyStr.JoinCons("", rest, "|");
    PyStr.Join([""] + Padded(cells) + [""], "|")
  }

  function Padded(cells: seq<string>): (r: seq<string>)
    ensures |r| == |cells|
    ensures forall i :: 0 <= i < |cells| ==> r[i] == " " + cells[i] + " "
  {
    seq(|cells|, i requires 0 <= i < |cells| => " " + cells[i] + " ")
  }

  /** The cells of a table row, each without its one space of padding. */
  function ReadRow(row: string): (cells: seq<string>) {
    var parts := PyStr.Split(row, '|');
    if |parts| < 2 then []
    else seq(|parts| - 2, i requires 0 <= i < |parts| - 2 => Unpad(parts[i + 1]))
  }

  function Unpad(p: string): string {
    if |p| >= 2 && p[0] == ' ' && p[|p| - 1] == ' ' then p[1..|p| - 1] else p
  }

  predicate NoPipe(cells: seq<string>) {
    forall i :: 0 <= i < |cells| ==> '|' !in cells[i]
  }

  /** A row whose cells hold no `|` reads back as its cells. */
  lemma ReadTableRow(cells: seq<string>)
    requires |cells| >= 1 && NoPipe(cells)
    ensures ReadRow(TableRow(cells)) == cells
  {
    var padded := Padded(cells);
    var parts := [""] + padded + [""];
    forall i | 0 <= i < |parts| ensures '|' !in parts[i] {
      if 0 < i < |parts| - 1 {
        PadNoPipe(cells[i - 1]);
        assert parts[i] == padded[i - 1];
      } else {
        assert parts[i] == "";
      }
    }
    PyStr.SplitOfJoin(parts, '|');
    assert PyStr.Split(TableRow(cells), '|') == parts;
    var r := ReadRow(TableRow(cells));
    assert |r| == |cells|;
    forall i | 0 <= i < |cells| ensures r[i] == cells[i] {
      assert r[i] == Unpad(parts[i + 1]);
      assert parts[i + 1] == padded[i];
      UnpadPad(cells[i]);
    }
  }

  lemma UnpadPad(c: string)
    ensures Unpad(" " + c + " ") == c
  {
    var p := " " + c + " ";
    assert p[1..|p| - 1] == c;
  }

  lemma PadNoPipe(c: string)
    requires '|' !in c
    ensures '|' !in " " + c + " "
  {
    assert forall j :: 0 <= j < |" " + c + " "| ==> (" " + c + " ")[j] == ' ' || (" " + c + " ")[j] == c[j - 1];
  }

  // ---------------------------------------------------------------- summary

  const KnownStatuses: seq<string> := ["todo", "in_progress", "blocked", "done", "cancelled"]

  /** The status a ticket is counted under. */
  function StatusOf(t: Ticket): string {
    Field(t, "status", "unknown")
  }

  /** The status of every ticket, in order. */
  function Statuses(tickets: seq<Ticket>): (r: seq<string>)
    ensures |r| == |tickets|
    ensures forall i :: 0 <= i < |tickets| ==> r[i] == StatusOf(tickets[i])
  {
    seq(|tickets|, i requires 0 <= i < |tickets| => StatusOf(tickets[i]))
  }

  /** How many tickets carry the status. */
  function StatusCount(tickets: seq<Ticket>, s: string): nat {
    multiset(Statuses(tickets))[s]
  }

  /** The loop that counts statuses into a dict. */
  function StatusCounts(tickets: seq<Ticket>): (counts: map<string, nat>)
    decreases |tickets|
  {
    if |tickets| == 0 then map[]
    else
      var prev := StatusCounts(tickets[..|tickets| - 1]);
      var s := StatusOf(tickets[|tickets| - 1]);
      prev[s := (if s in prev then prev[s] else 0) + 1]
  }

  /** The dict holds a status exactly when some ticket has it, and then with
      the number of tickets that do. */
  lemma {:induction false} StatusCountsAgree(tickets: seq<Ticket>, s: string)
    ensures s in StatusCounts(tickets) <==> StatusCount(tickets, s) > 0
    ensures s in StatusCounts(tickets) ==> StatusCounts(tickets)[s] == StatusCount(tickets, s)
    decreases |tickets|
  {
    if |tickets| > 0 {
      var front := tickets[..|tickets| - 1];
      StatusCountsAgree(front, s);
      assert Statuses(tickets) == Statuses(front) + [StatusOf(tickets[|tickets| - 1])];
    }
  }

  /** `- key: n` */
  function CountLine(key: string, n: nat): string {
    "- " + key + ": " + PyStr.NatToString(n)
  }

  /** The key and the number of a `- key: n` line. */
  function ReadCountLine(line: string): Option<(string, nat)> {
    if |line| < 2 || line[..2] != "- " then None
    else
      var parts := PyStr.SplitN(line[2..], ':', 1);
      if |parts| == 2 && |parts[1]| >= 2 && parts[1][0] == ' ' && PyStr.AllDigits(parts[1][1..])
      then Some((parts[0], PyStr.ParseDigits(parts[1][1..])))
      else None
  }

  /** A count line for a key without ':' reads back as the key and the count. */
  lemma ReadCountLineBack(key: string, n: nat)
    requires ':' !in key
    ensures ReadCountLine(CountLine(key, n)) == Some((key, n))
  {
    var digits := PyStr.NatToString(n);
    var line := CountLine(key, n);
    assert line[..2] == "- ";
    assert line[2..] == key + [':'] + (" " + digits);
    PyStr.SplitOnceAt(key, ':', " " + digits);
    assert (" " + digits)[1..] == digits;
    PyStr.ParseNatToString(n);
  }

  /** One line per known status with a positive count, in the fixed order. */
  function StatusLines(counts: map<string, nat>, known: seq<string>): (r: seq<string>)
    ensures |r| <= |known|
  {
    if |known| == 0 then []
    else
      var s := known[0];
      (if s in counts && counts[s] > 0 then [CountLine(s, counts[s])] else [])
        + StatusLines(counts, known[1..])
  }

  /** Some line reads back as the key `s` with the count `n`. */
  predicate Listed(lines: seq<string>, s: string, n: nat)
    decreases |lines|
  {
    |lines| > 0 && (ReadCountLine(lines[0]) == Some((s, n)) || Listed(lines[1..], s, n))
  }

  lemma {:induction false} ListedConcat(a: seq<string>, b: seq<string>, s: string, n: nat)
    ensures Listed(a + b, s, n) <==> Listed(a, s, n) || Listed(b, s, n)
    decreases |a|
  {
    if |a| > 0 {
      assert (a + b)[0] == a[0];
      assert (a + b)[1..] == a[1..] + b;
      ListedConcat(a[1..], b, s, n);
    } else {
      assert a + b == b;
    }
  }

  /** Read back, the status lines list exactly the statuses among `known`
      that were counted, each with its count. */
  lemma {:induction false} StatusLinesFor(counts: map<string, nat>, known: seq<string>, s: string, n: nat)
    requires forall i :: 0 <= i < |known| ==> ':' !in known[i]
    ensures Listed(StatusLines(counts, known), s, n) <==> s in known && s in counts && counts[s] == n && n > 0
    decreases |known|
  {
    if |known| > 0 {
      var k := known[0];
      var head := if k in counts && counts[k] > 0 then [CountLine(k, counts[k])] else [];
      StatusLinesFor(counts, known[1..], s, n);
      ListedConcat(head, StatusLines(counts, known[1..]), s, n);
      if head != [] {
        ReadCountLineBack(k, counts[k]);
        assert head[1..] == [];
      }
      assert s in known <==> s == k || s in known[1..];
    }
  }

  const SummaryHeading := "## Summary\n"

  /** The summary section: the heading, the total, the status lines. */
  function SummaryPart(tickets: seq<Ticket>): (r: seq<string>)
    ensures 2 <= |r| <= 2 + |KnownStatuses|
  {
    [SummaryHeading, CountLine("total", |tickets|)] + StatusLines(StatusCounts(tickets), KnownStatuses)
  }

  /** The summary's total reads back as the number of tickets. */
  lemma SummaryTotal(tickets: seq<Ticket>)
    ensures ReadCountLine(SummaryPart(tickets)[1]) == Some(("total", |tickets|))
  {
    ReadCountLineBack("total", |tickets|);
  }

  /** Read back, the summary lists a status with a count exactly when it is
      one of the five known statuses, some ticket has it, and the count is the
      number of tickets that do. */
  lemma SummaryListsStatus(tickets: seq<Ticket>, s: string, n: nat)
    ensures Listed(SummaryPart(tickets)[2..], s, n) <==>
              s in KnownStatuses && n == StatusCount(tickets, s) && n > 0
  {
    var part := SummaryPart(tickets);
    assert part[2..] == StatusLines(StatusCounts(tickets), KnownStatuses);
    StatusLinesFor(StatusCounts(tickets), KnownStatuses, s, n);
    StatusCountsAgree(tickets, s);
  }

  // ---------------------------------------------------------------- ticket table

  const TicketHeading := "\n## Ticket Status\n"
  const TicketColumns: seq<string> := ["id", "status", "priority", "owner", "due_by", "tags"]
  const TicketRule: seq<string> := ["--", "------", "--------", "-----", "------", "----"]

  function TicketCells(t: Ticket): (cells: seq<string>)
    ensures |cells| == |TicketColumns|
  {
    [Field(t, "id", "?"), Field(t, "status", "?"), Field(t, "priority", "medium"),
     Field(t, "owner", ""), Field(t, "due_by", ""), Field(t, "tags", "")]
  }

  function TicketRow(t: Ticket): string {
    TableRow(TicketCells(t))
  }

  function TicketRows(tickets: seq<Ticket>): (r: seq<string>)
    ensures |r| == |tickets|
    ensures forall i :: 0 <= i < |tickets| ==> r[i] == TicketRow(tickets[i])
  {
    seq(|tickets|, i requires 0 <= i < |tickets| => TicketRow(tickets[i]))
  }

  /** The ticket table: heading, column row, rule row, one row per ticket. */
  function TablePart(tickets: seq<Ticket>): (r: seq<string>)
    ensures |r| == 3 + |tickets|
  {
    [TicketHeading, TableRow(TicketColumns), TableRow(TicketRule)] + TicketRows(tickets)
  }

  /** No value of the ticket holds a `|`. */
  predicate PipeFree(t: Ticket) {
    forall k :: k in t ==> '|' !in t[k]
  }

  /** A ticket's row reads back as its id, status, priority, owner, due date
      and tags, with `?` for a missing id or status and `medium` for a missing
      priority. */
  lemma TicketRowReadsBack(t: Ticket)
    requires PipeFree(t)
    ensures var cells := ReadRow(TicketRow(t));
            |cells| == 6
            && cells[0] == (if "id" in t then t["id"] else "?")
            && cells[1] == (if "status" in t then t["status"] else "?")
            && cells[2] == (if "priority" in t then t["priority"] else "medium")
            && cells[3] == (if "owner" in t then t["owner"] else "")
            && cells[4] == (if "due_by" in t then t["due_by"] else "")
            && cells[5] == (if "tags" in t then t["tags"] else "")
  {
    TicketCellsPipeFree(t);
    ReadTableRow(TicketCells(t));
  }

  lemma TicketCellsPipeFree(t: Ticket)
    requires PipeFree(t)
    ensures NoPipe(TicketCells(t))
  {
  }

  /** The number of rows whose second cell reads as `s`. */
  function RowsWithStatus(rows: seq<string>, s: string): nat {
    if |rows| == 0 then 0
    else
      var cells := ReadRow(rows[0]);
      (if |cells| >= 2 && cells[1] == s then 1 else 0) + RowsWithStatus(rows[1..], s)
  }

  lemma StatusCountCons(tickets: seq<Ticket>, s: string)
    requires |tickets| > 0
    ensures StatusCount(tickets, s) == (if StatusOf(tickets[0]) == s then 1 else 0) + StatusCount(tickets[1..], s)
  {
    assert Statuses(tickets) == [StatusOf(tickets[0])] + Statuses(tickets[1..]);
  }

  /** The status cell of a ticket's row shows a known status exactly when the
      ticket is counted under it. */
  lemma TicketRowStatus(t: Ticket, s: string)
    requires PipeFree(t) && s in KnownStatuses
    ensures var cells := ReadRow(TicketRow(t));
            |cells| >= 2 && (cells[1] == s <==> StatusOf(t) == s)
  {
    TicketRowReadsBack(t);
  }

  /** For each known status, the summary's count is the number of table rows
      that show that status. */
  lemma {:induction false} SummaryMatchesTable(tickets: seq<Ticket>, s: string)
    requires s in KnownStatuses
    requires forall i :: 0 <= i < |tickets| ==> PipeFree(tickets[i])
    ensures RowsWithStatus(TicketRows(tickets), s) == StatusCount(tickets, s)
    decreases |tickets|
  {
    if |tickets| > 0 {
      var rest := tickets[1..];
      var rows := TicketRows(tickets);
      SummaryMatchesTable(rest, s);
      assert rows[1..] == TicketRows(rest);
      assert rows[0] == TicketRow(tickets[0]);
      TicketRowStatus(tickets[0], s);
      StatusCountCons(tickets, s);
    }
  }

  // ---------------------------------------------------------------- audit section

  /** `collect_audit_summary`: the row counts of the audit log, in total and
      for the three statuses, and the latest event time (none without rows). */
  datatype AuditSummary = AuditSummary(total: nat, success: nat, fail: nat, inProgress: nat, lastEventAt: Option<string>)

  const AuditHeading := "\n## Audit Logs (Collected)\n"
  const AuditMetrics: seq<string> := ["total", "success", "fail", "in_progress", "last_event_at"]

  /** The value column of the audit table, metric by metric. */
  function AuditValues(a: AuditSummary): (r: seq<string>)
    ensures |r| == |AuditMetrics|
  {
    [PyStr.NatToString(a.total), PyStr.NatToString(a.success), PyStr.NatToString(a.fail),
     PyStr.NatToString(a.inProgress), a.lastEventAt.GetOr("N/A")]
  }

  function AuditRows(a: AuditSummary): (r: seq<string>)
    ensures |r| == |AuditMetrics|
  {
    seq(|AuditMetrics|, i requires 0 <= i < |AuditMetrics| => TableRow([AuditMetrics[i], AuditValues(a)[i]]))
  }

  /** The audit section, present only when an audit summary was collected. */
  function AuditPart(audit: Option<AuditSummary>, generatedAt: string): (r: seq<string>)
    ensures audit.None? <==> r == []
  {
    match audit
    case None => []
    case Some(a) =>
      [AuditHeading, "- collected_at: " + generatedAt + "\n",
       TableRow(["metric", "value"]), TableRow(["------", "----:"])] + AuditRows(a)
  }

  /** Each row of the audit table reads back as its metric and its value:
      the count, or for the last row the latest event time, or `N/A` when
      the log has no rows. */
  lemma AuditRowReadsBack(a: AuditSummary, i: nat)
    requires i < |AuditMetrics|
    requires a.lastEventAt.Some? ==> '|' !in a.lastEventAt.value
    ensures ReadRow(AuditRows(a)[i]) == [AuditMetrics[i], AuditValues(a)[i]]
    ensures i == 4 ==> AuditValues(a)[i] == if a.lastEventAt.Some? then a.lastEventAt.value else "N/A"
  {
    var v := AuditValues(a)[i];
    if i < 4 {
      assert PyStr.AllDigits(v);
      assert forall j :: 0 <= j < |v| ==> v[j] != '|';
    }
    ReadTableRow([AuditMetrics[i], v]);
  }

  /** The four count values parse back as the counts. */
  lemma AuditCountsParse(a: AuditSummary)
    ensures PyStr.ParseDigits(AuditValues(a)[0]) == a.total
    ensures PyStr.ParseDigits(AuditValues(a)[1]) == a.success
    ensures PyStr.ParseDigits(AuditValues(a)[2]) == a.fail
    ensures PyStr.ParseDigits(AuditValues(a)[3]) == a.inProgress
  {
    PyStr.ParseNatToString(a.total);
    PyStr.ParseNatToString(a.success);
    PyStr.ParseNatToString(a.fail);
    PyStr.ParseNatToString(a.inProgress);
  }

  // ---------------------------------------------------------------- assignments

  /** One collaboration result file: its name and its parsed JSON, if any. */
  datatype AssignmentFile = AssignmentFile(name: string, data: Option<Value>)

  /** `collect_assignments`: every file whose JSON is a dict, in file order,
      with the file name set under `_file`; unreadable files and other JSON
      values are skipped. */
  function CollectAssignments(files: seq<AssignmentFile>): (r: seq<Value>)
    ensures |r| <= |files|
    ensures forall i :: 0 <= i < |r| ==> r[i].Object?
    decreases |files|
  {
    if |files| == 0 then []
    else
      var d := files[0].data;
      if d.Some? && d.value.Object? then
        [Object(SetField(d.value.fields, "_file", Str(files[0].name)))] + CollectAssignments(files[1..])
      else CollectAssignments(files[1..])
  }

  const AssignmentHeading := "\n## Assignments\n"
  const AssignmentColumns: seq<string> := ["ticket", "owner", "dispatch_mode", "status", "requires_manual"]
  const AssignmentRule: seq<string> := ["------", "-----", "-------------", "------", "---------------"]

  /** The ticket an assignment names: its `task_id`, else the file it came
      from, else `?`. */
  function TicketRef(a: Value): Value {
    GetOr(a, "task_id", GetOr(a, "_file", Str("?")))
  }

  function AssignmentCells(a: Value): (cells: seq<string>)
    ensures |cells| == |AssignmentColumns|
  {
    [ToStr(TicketRef(a)), ToStr(GetOr(a, "owner", Str(""))), ToStr(GetOr(a, "dispatch_mode", Str(""))),
     ToStr(GetOr(a, "status", Str(""))), ToStr(GetOr(a, "requires_manual_confirmation", Bool(false)))]
  }

  function AssignmentRows(assignments: seq<Value>): (r: seq<string>)
    ensures |r| == |assignments|
    ensures forall i :: 0 <= i < |r| ==> |r[i]| > 0 && r[i][0] == '|'
  {
    seq(|assignments|, i requires 0 <= i < |assignments| => TableRow(AssignmentCells(assignments[i])))
  }

  /** The assignments section, present only when there are assignments. */
  function AssignmentPart(assignments: seq<Value>): (r: seq<string>)
    ensures assignments == [] <==> r == []
    ensures assignments != [] ==> |r| == 3 + |assignments|
  {
    if assignments == [] then []
    else [AssignmentHeading, TableRow(AssignmentColumns), TableRow(AssignmentRule)] + AssignmentRows(assignments)
  }

  /** A collected assignment names its ticket by `task_id` when the file has
      one, and otherwise by the file's name; `?` never shows. */
  lemma CollectedTicketRef(f: AssignmentFile)
    requires f.data.Some? && f.data.value.Object?
    ensures var fields := f.data.value.fields;
            CollectAssignments([f]) == [Object(SetField(fields, "_file", Str(f.name)))]
            && TicketRef(CollectAssignments([f])[0]) ==
                 (if HasField(fields, "task_id") then Lookup(fields, "task_id").value else Str(f.name))
  {
  }

  /** Only dict files are collected, and each dict file is. */
  lemma {:induction false} CollectAssignmentsKeeps(files: seq<AssignmentFile>, f: AssignmentFile)
    requires f in files && f.data.Some? && f.data.value.Object?
    ensures Object(SetField(f.data.value.fields, "_file", Str(f.name))) in CollectAssignments(files)
    decreases |files|
  {
    if files[0] != f {
      CollectAssignmentsKeeps(files[1..], f);
    }
  }

  // ---------------------------------------------------------------- workflow map

  const NoGet := "AttributeError: object has no attribute 'get'"
  const NotIterable := "TypeError: object is not iterable"

  /** `for x in v` where each `x` is then read with `.get`: a list of dicts
      gives its items; an empty string or dict iterates nothing; a non-empty
      string or dict, or a list holding anything but dicts, fails at the
      first `.get`; any other value is not iterable. */
  function DictItems(v: Value): (r: Result<seq<Value>>)
    ensures r.Ok? ==> forall i :: 0 <= i < |r.value| ==> r.value[i].Object?
    ensures v.List? ==> (r.Ok? <==> forall i :: 0 <= i < |v.items| ==> v.items[i].Object?)
  {
    match v
    case List(items) =>
      if forall i :: 0 <= i < |items| ==> items[i].Object? then Ok(items) else Err(NoGet)
    case Str(s) => if s == "" then Ok([]) else Err(NoGet)
    case Object(fields) => if fields == [] then Ok([]) else Err(NoGet)
    case _ => Err(NotIterable)
  }

  /** `spec.get(key, [])` iterated as dicts. */
  function SpecItems(spec: Value, key: string): Result<seq<Value>> {
    DictItems(GetOr(spec, key, List([])))
  }

  /** `  id["label<br/>theta: band"]` */
  function NodeText(id: string, caption: string, theta: string, band: string): string {
    "  " + id + "[\"" + caption + "<br/>" + theta + ": " + band + "\"]"
  }

  function NodeId(node: Value): string { ToStr(GetOr(node, "id", Str("?"))) }

  /** A node's line, the label defaulting to the id. */
  function NodeLine(node: Value, theta: string): string {
    var nid := GetOr(node, "id", Str("?"));
    NodeText(ToStr(nid), ToStr(GetOr(node, "label", nid)), theta, ToStr(GetOr(node, "theta_gt_band", Str(""))))
  }

  const HitlArrow := "-.->|HITL|"
  const PlainArrow := "-->"

  predicate IsHitl(edge: Value) {
    GetOr(edge, "type", Str("")) == Str("hitl")
  }

  function EdgeFrom(edge: Value): string { ToStr(GetOr(edge, "from", Str("?"))) }
  function EdgeTo(edge: Value): string { ToStr(GetOr(edge, "to", Str("?"))) }

  /** `  from --> to`, or the dotted `  from -.->|HITL| to`. */
  function EdgeText(src: string, dst: string, hitl: bool): string {
    "  " + src + " " + (if hitl then HitlArrow else PlainArrow) + " " + dst
  }

  /** An edge's line: dotted for a hitl edge, solid otherwise. */
  function EdgeLine(edge: Value): string {
    EdgeText(EdgeFrom(edge), EdgeTo(edge), IsHitl(edge))
  }

  function NodeLines(nodes: seq<Value>, theta: string): (r: seq<string>)
    ensures |r| == |nodes|
    ensures forall i :: 0 <= i < |nodes| ==> r[i] == NodeLine(nodes[i], theta)
  {
    seq(|nodes|, i requires 0 <= i < |nodes| => NodeLine(nodes[i], theta))
  }

  function EdgeLines(edges: seq<Value>): (r: seq<string>)
    ensures |r| == |edges|
  {
    seq(|edges|, i requires 0 <= i < |edges| => EdgeLine(edges[i]))
  }

  const MermaidOpen := "```mermaid"
  const MermaidClose := "```"

  /** `topology_to_mermaid`, as its lines: the fence and the flowchart line,
      one line per node, one per edge, and the closing fence. */
  function Mermaid(spec: Value, theta: string): (r: Result<seq<string>>)
    requires spec.Object?
    ensures r.Ok? <==> SpecItems(spec, "nodes").Ok? && SpecItems(spec, "edges").Ok?
    ensures r.Ok? ==>
              |r.value| == 3 + |SpecItems(spec, "nodes").value| + |SpecItems(spec, "edges").value|
              && r.value[0] == MermaidOpen && r.value[1] == "flowchart LR"
              && r.value[|r.value| - 1] == MermaidClose
  {
    var nodes :- SpecItems(spec, "nodes");
    var edges :- SpecItems(spec, "edges");
    Ok([MermaidOpen, "flowchart LR"] + NodeLines(nodes, theta) + EdgeLines(edges) + [MermaidClose])
  }

  /** The ends and the arrow of an edge line: `(from, to, dotted)`. */
  function ReadEdge(line: string): Option<(string, string, bool)> {
    if |line| < 2 || line[..2] != "  " then None
    else
      var parts := PyStr.Split(line[2..], ' ');
      if |parts| == 3 && (parts[1] == HitlArrow || parts[1] == PlainArrow)
      then Some((parts[0], parts[2], parts[1] == HitlArrow))
      else None
  }

  /** The id of a node line: the text before the first `[`. */
  function ReadNodeId(line: string): Option<string> {
    if |line| < 2 || line[..2] != "  " then None
    else
      match PyStr.IndexOf(line[2..], '[')
      case Some(k) => Some(line[2..][..k])
      case None => None
  }

  /** An edge line whose ends hold no space reads back as its ends and its
      kind of arrow. */
  lemma EdgeTextReadsBack(src: string, dst: string, hitl: bool)
    requires ' ' !in src && ' ' !in dst
    ensures ReadEdge(EdgeText(src, dst, hitl)) == Some((src, dst, hitl))
  {
    var arrow := if hitl then HitlArrow else PlainArrow;
    var parts := [src, arrow, dst];
    var line := EdgeText(src, dst, hitl);
    assert line[..2] == "  ";
    assert line[2..] == PyStr.Join(parts, " ") by {
      PyStr.JoinCons(src, [arrow, dst], " ");
      PyStr.JoinCons(arrow, [dst], " ");
    }
    assert ' ' !in arrow;
    PyStr.SplitOfJoin(parts, ' ');
  }

  /** A node line whose id holds no `[` reads back as the id. */
  lemma NodeTextReadsBack(id: string, caption: string, theta: string, band: string)
    requires '[' !in id
    ensures ReadNodeId(NodeText(id, caption, theta, band)) == Some(id)
  {
    var line := NodeText(id, caption, theta, band);
    var rest := line[2..];
    assert line[..2] == "  ";
    assert rest == id + "[\"" + caption + "<br/>" + theta + ": " + band + "\"]";
    assert rest[..|id|] == id;
    assert rest[|id|] == '[';
    assert PyStr.IndexOf(rest, '[') == Some(|id|);
  }

  /** The map's lines: the two opening lines, the node lines, the edge
      lines, the closing fence. */
  lemma MermaidParts(spec: Value, theta: string)
    requires spec.Object? && Mermaid(spec, theta).Ok?
    ensures Mermaid(spec, theta).value ==
              [MermaidOpen, "flowchart LR"] + NodeLines(SpecItems(spec, "nodes").value, theta)
              + EdgeLines(SpecItems(spec, "edges").value) + [MermaidClose]
  {
  }

  /** Read back, the map lists each node's id on the line after the two
      opening lines and the nodes before it. */
  lemma MermaidNodeReadsBack(spec: Value, theta: string, j: nat)
    requires spec.Object? && Mermaid(spec, theta).Ok?
    requires j < |SpecItems(spec, "nodes").value|
    requires '[' !in NodeId(SpecItems(spec, "nodes").value[j])
    ensures ReadNodeId(Mermaid(spec, theta).value[2 + j]) == Some(NodeId(SpecItems(spec, "nodes").value[j]))
  {
    var nodes := SpecItems(spec, "nodes").value;
    var node := nodes[j];
    MermaidParts(spec, theta);
    assert Mermaid(spec, theta).value[2 + j] == NodeLines(nodes, theta)[j];
    var nid := GetOr(node, "id", Str("?"));
    NodeTextReadsBack(ToStr(nid), ToStr(GetOr(node, "label", nid)), theta,
                      ToStr(GetOr(node, "theta_gt_band", Str(""))));
  }

  lemma EdgeLineText(edges: seq<Value>, j: nat)
    requires j < |edges|
    ensures ReadEdge(EdgeLines(edges)[j]) == Some((EdgeFrom(edges[j]), EdgeTo(edges[j]), IsHitl(edges[j])))
              || ' ' in EdgeFrom(edges[j]) || ' ' in EdgeTo(edges[j])
  {
    if ' ' !in EdgeFrom(edges[j]) && ' ' !in EdgeTo(edges[j]) {
      EdgeTextReadsBack(EdgeFrom(edges[j]), EdgeTo(edges[j]), IsHitl(edges[j]));
    }
  }

  lemma IndexMiddle<T>(a: seq<T>, b: seq<T>, c: seq<T>, k: nat)
    requires k < |b|
    ensures (a + b + c)[|a| + k] == b[k]
  {
  }

  /** Read back, the map lists each edge after the nodes, with its ends, and
      dotted exactly when it is a hitl edge. */
  lemma MermaidEdgeReadsBack(spec: Value, theta: string, lines: seq<string>, j: nat)
    requires spec.Object? && Mermaid(spec, theta) == Ok(lines)
    requires j < |SpecItems(spec, "edges").value|
    requires ' ' !in EdgeFrom(SpecItems(spec, "edges").value[j]) && ' ' !in EdgeTo(SpecItems(spec, "edges").value[j])
    ensures 2 + |SpecItems(spec, "nodes").value| + j < |lines|
    ensures var edge := SpecItems(spec, "edges").value[j];
            ReadEdge(lines[2 + |SpecItems(spec, "nodes").value| + j]) == Some((EdgeFrom(edge), EdgeTo(edge), IsHitl(edge)))
  {
    var nodes := SpecItems(spec, "nodes").value;
    var edges := SpecItems(spec, "edges").value;
    var front := [MermaidOpen, "flowchart LR"] + NodeLines(nodes, theta);
    MermaidParts(spec, theta);
    IndexMiddle(front, EdgeLines(edges), [MermaidClose], j);
    EdgeLineText(edges, j);
  }

  // ---------------------------------------------------------------- the page

  const Title := "# Workflow Portfolio Status"
  const MapHeading := "\n## Workflow Map\n"

  function HeaderPart(generatedAt: string): seq<string> {
    [Title, "\nGenerated at: " + generatedAt + "\n"]
  }

  /** `topology_spec and topology_spec.get("nodes")`: the map is drawn for a
      dict whose `nodes` are truthy. */
  predicate ShowsMap(topology: Value) {
    Truthy(topology) && topology.Object? && Truthy(GetOrNull(topology, "nodes"))
  }

  /** The map section. A truthy topology that is not a dict fails at `.get`. */
  function MapPart(topology: Value, theta: string): (r: Result<seq<string>>)
    ensures r.Ok? && !ShowsMap(topology) ==> r.value == []
    ensures r.Ok? && ShowsMap(topology) ==> |r.value| == 2 && r.value[0] == MapHeading
    ensures r.Err? <==> Truthy(topology) && (!topology.Object? || (ShowsMap(topology) && Mermaid(topology, theta).Err?))
  {
    if !Truthy(topology) then Ok([])
    else if !topology.Object? then Err(NoGet)
    else if !Truthy(GetOrNull(topology, "nodes")) then Ok([])
    else
      var m :- Mermaid(topology, theta);
      Ok([MapHeading, PyStr.Join(m, "\n")])
  }

  /** `generate_markdown`, as the page's lines. `theta` is the edition's
      label for the theta band of a map node. */
  function Lines(tickets: seq<Ticket>, assignments: seq<Value>, audit: Option<AuditSummary>,
                 topology: Value, generatedAt: string, theta: string): (r: Result<seq<string>>)
    requires forall i :: 0 <= i < |assignments| ==> assignments[i].Object?
    ensures r.Ok? <==> MapPart(topology, theta).Ok?
  {
    var mapPart :- MapPart(topology, theta);
    Ok(HeaderPart(generatedAt) + SummaryPart(tickets) + TablePart(tickets)
       + AuditPart(audit, generatedAt) + AssignmentPart(assignments) + mapPart + [""])
  }

  /** `generate_markdown`: the page's lines joined with newlines. */
  function Markdown(tickets: seq<Ticket>, assignments: seq<Value>, audit: Option<AuditSummary>,
                    topology: Value, generatedAt: string, theta: string): (r: Result<string>)
    requires forall i :: 0 <= i < |assignments| ==> assignments[i].Object?
    ensures r.Ok? <==> Lines(tickets, assignments, audit, topology, generatedAt, theta).Ok?
  {
    var lines :- Lines(tickets, assignments, audit, topology, generatedAt, theta);
    Ok(PyStr.Join(lines, "\n"))
  }

  // ---------------------------------------------------------------- sections

  /** A section heading: `## ...`, possibly after one blank line. */
  predicate IsHeading(line: string) {
    (|line| >= 3 && line[..3] == "## ") || (|line| >= 4 && line[..4] == "\n## ")
  }

  /** The headings of the page, in order. */
  function Headings(lines: seq<string>): (r: seq<string>)
    ensures |r| <= |lines|
  {
    if |lines| == 0 then []
    else (if IsHeading(lines[0]) then [lines[0]] else []) + Headings(lines[1..])
  }

  lemma {:induction false} HeadingsConcat(a: seq<string>, b: seq<string>)
    ensures Headings(a + b) == Headings(a) + Headings(b)
    decreases |a|
  {
    if |a| == 0 {
      assert a + b == b;
    } else {
      var ab := a + b;
      var hd := if IsHeading(a[0]) then [a[0]] else [];
      assert ab[0] == a[0];
      assert ab[1..] == a[1..] + b;
      HeadingsConcat(a[1..], b);
      assert Headings(ab) == hd + Headings(a[1..] + b);
      assert Headings(a) == hd + Headings(a[1..]);
    }
  }

  lemma {:induction false} NoHeadings(lines: seq<string>)
    requires forall i :: 0 <= i < |lines| ==> !IsHeading(lines[i])
    ensures Headings(lines) == []
    decreases |lines|
  {
    if |lines| > 0 {
      NoHeadings(lines[1..]);
    }
  }

  /** A line opening with a character other than `#` or a newline is no heading. */
  lemma PlainLine(line: string)
    requires |line| > 0 && line[0] != '#' && line[0] != '\n'
    ensures !IsHeading(line)
  {
    if |line| >= 3 { assert line[..3][0] == line[0]; }
    if |line| >= 4 { assert line[..4][0] == line[0]; }
  }

  lemma HeaderHeadings(generatedAt: string)
    ensures Headings(HeaderPart(generatedAt)) == []
  {
    var g := "\nGenerated at: " + generatedAt + "\n";
    assert g[..3] == "\nGe" && g[..4] == "\nGen";
    assert !IsHeading(g);
    assert Title[..3] == "# W";
    assert HeaderPart(generatedAt) == [Title] + [g];
    HeadingsConcat([Title], [g]);
  }

  lemma {:induction false} StatusLinesNoHeadings(counts: map<string, nat>, known: seq<string>)
    ensures Headings(StatusLines(counts, known)) == []
    decreases |known|
  {
    if |known| > 0 {
      var k := known[0];
      StatusLinesNoHeadings(counts, known[1..]);
      if k in counts && counts[k] > 0 {
        PlainLine(CountLine(k, counts[k]));
        HeadingsConcat([CountLine(k, counts[k])], StatusLines(counts, known[1..]));
      } else {
        assert StatusLines(counts, known) == StatusLines(counts, known[1..]);
      }
    }
  }

  lemma SummaryHeadings(tickets: seq<Ticket>)
    ensures Headings(SummaryPart(tickets)) == [SummaryHeading]
  {
    var counts := StatusLines(StatusCounts(tickets), KnownStatuses);
    PlainLine(CountLine("total", |tickets|));
    StatusLinesNoHeadings(StatusCounts(tickets), KnownStatuses);
    HeadingsConcat([SummaryHeading, CountLine("total", |tickets|)], counts);
    SummaryIsHeading();
    assert Headings([SummaryHeading, CountLine("total", |tickets|)]) == [SummaryHeading];
  }

  /** A section: a heading followed by lines that are not headings. */
  lemma SectionHeadings(heading: string, rest: seq<string>)
    requires IsHeading(heading)
    requires forall i :: 0 <= i < |rest| ==> !IsHeading(rest[i])
    ensures Headings([heading] + rest) == [heading]
  {
    NoHeadings(rest);
    assert ([heading] + rest)[1..] == rest;
  }

  lemma TableHeadings(tickets: seq<Ticket>)
    ensures Headings(TablePart(tickets)) == [TicketHeading]
  {
    var rows := [TableRow(TicketColumns), TableRow(TicketRule)] + TicketRows(tickets);
    forall i | 0 <= i < |rows| ensures !IsHeading(rows[i]) {
      PlainLine(rows[i]);
    }
    assert TablePart(tickets) == [TicketHeading] + rows;
    TicketIsHeading();
    SectionHeadings(TicketHeading, rows);
  }

  lemma AuditHeadings(audit: Option<AuditSummary>, generatedAt: string)
    ensures Headings(AuditPart(audit, generatedAt)) == if audit.Some? then [AuditHeading] else []
  {
    if audit.Some? {
      var a := audit.value;
      var collected := "- collected_at: " + generatedAt + "\n";
      var rows := [collected, TableRow(["metric", "value"]), TableRow(["------", "----:"])] + AuditRows(a);
      forall i | 0 <= i < |rows| ensures !IsHeading(rows[i]) {
        PlainLine(rows[i]);
      }
      assert AuditPart(audit, generatedAt) == [AuditHeading] + rows;
      AuditIsHeading();
      SectionHeadings(AuditHeading, rows);
    }
  }

  lemma AssignmentHeadings(assignments: seq<Value>)
    ensures Headings(AssignmentPart(assignments)) == if assignments != [] then [AssignmentHeading] else []
  {
    if assignments != [] {
      var rows := [TableRow(AssignmentColumns), TableRow(AssignmentRule)] + AssignmentRows(assignments);
      forall i | 0 <= i < |rows| ensures !IsHeading(rows[i]) {
        PlainLine(rows[i]);
      }
      assert AssignmentPart(assignments) == [AssignmentHeading] + rows;
      AssignmentIsHeading();
      SectionHeadings(AssignmentHeading, rows);
    }
  }

  lemma SummaryIsHeading()
    ensures IsHeading(SummaryHeading)
  {
    assert SummaryHeading[..3] == "## ";
  }

  lemma TicketIsHeading()
    ensures IsHeading(TicketHeading)
  {
    assert TicketHeading[..4] == "\n## ";
  }

  lemma AuditIsHeading()
    ensures IsHeading(AuditHeading)
  {
    assert AuditHeading[..4] == "\n## ";
  }

  lemma AssignmentIsHeading()
    ensures IsHeading(AssignmentHeading)
  {
    assert AssignmentHeading[..4] == "\n## ";
  }

  lemma MapIsHeading()
    ensures IsHeading(MapHeading)
  {
    assert MapHeading[..4] == "\n## ";
  }

  lemma MapHeadings(topology: Value, theta: string)
    requires MapPart(topology, theta).Ok?
    ensures Headings(MapPart(topology, theta).value) == if ShowsMap(topology) then [MapHeading] else []
  {
    if ShowsMap(topology) {
      var m := Mermaid(topology, theta).value;
      var text := PyStr.Join(m, "\n");
      assert MapPart(topology, theta).value == [MapHeading, text];
      PyStr.JoinFirst(m, "\n");
      PlainLine(text);
      MapIsHeading();
      HeadingsConcat([MapHeading], [text]);
    }
  }

  /** The section headings of the page, in order: the summary and the ticket
      table always; the audit section exactly when an audit summary was
      collected; the assignments exactly when there are any; the workflow
      map exactly when the topology is a dict with truthy nodes. */
  lemma PageSections(tickets: seq<Ticket>, assignments: seq<Value>, audit: Option<AuditSummary>,
                     topology: Value, generatedAt: string, theta: string)
    requires forall i :: 0 <= i < |assignments| ==> assignments[i].Object?
    requires Lines(tickets, assignments, audit, topology, generatedAt, theta).Ok?
    ensures Headings(Lines(tickets, assignments, audit, topology, generatedAt, theta).value)
              == [SummaryHeading, TicketHeading]
                 + (if audit.Some? then [AuditHeading] else [])
                 + (if assignments != [] then [AssignmentHeading] else [])
                 + (if ShowsMap(topology) then [MapHeading] else [])
  {
    var h := HeaderPart(generatedAt);
    var sm := SummaryPart(tickets);
    var tb := TablePart(tickets);
    var au := AuditPart(audit, generatedAt);
    var asg := AssignmentPart(assignments);
    var mp := MapPart(topology, theta).value;
    LinesParts(tickets, assignments, audit, topology, generatedAt, theta);
    HeaderHeadings(generatedAt);
    SummaryHeadings(tickets);
    TableHeadings(tickets);
    AuditHeadings(audit, generatedAt);
    AssignmentHeadings(assignments);
    MapHeadings(topology, theta);
    PlainLineEmpty();
    HeadingsOfParts(h, sm, tb, au, asg, mp, [""]);
    var A := if audit.Some? then [AuditHeading] else [];
    var B := if assignments != [] then [AssignmentHeading] else [];
    var M := if ShowsMap(topology) then [MapHeading] else [];
    assert Headings(h + sm + tb + au + asg + mp + [""]) == [] + [SummaryHeading] + [TicketHeading] + A + B + M + [];
    Regroup(SummaryHeading, TicketHeading, A, B, M);
  }

  lemma Regroup<T>(x: T, y: T, a: seq<T>, b: seq<T>, c: seq<T>)
    ensures [] + [x] + [y] + a + b + c + [] == [x, y] + a + b + c
  {
  }

  lemma LinesParts(tickets: seq<Ticket>, assignments: seq<Value>, audit: Option<AuditSummary>,
                   topology: Value, generatedAt: string, theta: string)
    requires forall i :: 0 <= i < |assignments| ==> assignments[i].Object?
    requires Lines(tickets, assignments, audit, topology, generatedAt, theta).Ok?
    ensures Lines(tickets, assignments, audit, topology, generatedAt, theta).value
              == HeaderPart(generatedAt) + SummaryPart(tickets) + TablePart(tickets)
                 + AuditPart(audit, generatedAt) + AssignmentPart(assignments)
                 + MapPart(topology, theta).value + [""]
  {
  }

  lemma HeadingsOfParts(a: seq<string>, b: seq<string>, c: seq<string>, d: seq<string>,
                        e: seq<string>, f: seq<string>, g: seq<string>)
    ensures Headings(a + b + c + d + e + f + g)
              == Headings(a) + Headings(b) + Headings(c) + Headings(d) + Headings(e) + Headings(f) + Headings(g)
  {
    HeadingsConcat(a, b);
    HeadingsConcat(a + b, c);
    HeadingsConcat(a + b + c, d);
    HeadingsConcat(a + b + c + d, e);
    HeadingsConcat(a + b + c + d + e, f);
    HeadingsConcat(a + b + c + d + e + f, g);
  }

  lemma PlainLineEmpty()
    ensures Headings([""]) == []
  {
  }
}
