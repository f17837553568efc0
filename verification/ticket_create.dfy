/** Creating a task-context ticket: the title slug, the next ticket number
    and the file a new ticket is written to. The folder is given as the names
    of its files; the clock gives today's and the default due date. */
module TicketCreate {
  import opened Results
  import PyStr
  import Json
  import Tickets

  // ------------------------------------------------------------------ new tickets

  /** The characters a title keeps: ASCII letters and digits, Hangul
      syllables, space, `_` and `-`. */
  predicate TitleChar(c: char) {
    'A' <= c <= 'Z' || 'a' <= c <= 'z' || '0' <= c <= '9' || '\U{ac00}' <= c <= '\U{d7a3}'
    || c == ' ' || c == '_' || c == '-'
  }

  /** The characters of a title slug: the title characters but space. */
  predicate SlugChar(c: char) {
    TitleChar(c) && c != ' '
  }

  predicate IsSep(c: char) { c == '-' || c == '_' }

  /** No `-` or `_` next to another. */
  predicate NoAdjacentSeps(s: string) {
    forall i :: 0 <= i < |s| - 1 ==> !(IsSep(s[i]) && IsSep(s[i + 1]))
  }

  /** `re.sub(r"[^A-Za-z0-9가-힣 _-]", "", title)` */
  function KeepTitleChars(s: string): (r: string)
    ensures |r| <= |s|
    ensures forall i :: 0 <= i < |r| ==> TitleChar(r[i])
    ensures (forall i :: 0 <= i < |s| ==> TitleChar(s[i])) ==> r == s
    ensures forall c :: c in r ==> c in s
    decreases |s|
  {
    if |s| == 0 then ""
    else (if TitleChar(s[0]) then [s[0]] else []) + KeepTitleChars(s[1..])
  }

  /** The length of the run of `-` and `_` at the start. */
  function SepRun(s: string): (k: nat)
    ensures k <= |s| && forall i :: 0 <= i < k ==> IsSep(s[i])
    ensures k < |s| ==> !IsSep(s[k])
    decreases |s|
  {
    if |s| > 0 && IsSep(s[0]) then 1 + SepRun(s[1..]) else 0
  }

  /** Putting a character in front keeps separators apart when it is not
      one, or when what follows does not start with one. */
  lemma NoAdjacentCons(c: char, rest: string)
    requires NoAdjacentSeps(rest)
    requires |rest| > 0 ==> !(IsSep(c) && IsSep(rest[0]))
    ensures NoAdjacentSeps([c] + rest)
  {
    var r := [c] + rest;
    forall i | 0 <= i < |r| - 1 ensures !(IsSep(r[i]) && IsSep(r[i + 1])) {
      if i > 0 {
        assert r[i] == rest[i - 1] && r[i + 1] == rest[i];
      }
    }
  }

  /** `re.sub(r"[-_]{2,}", "-", s)`: each run of two or more separators
      becomes one `-`; a lone separator stays. */
  function CollapseSeps(s: string): (r: string)
    ensures |r| <= |s| && (|r| == 0 <==> |s| == 0)
    ensures |s| > 0 ==> (IsSep(r[0]) <==> IsSep(s[0]))
    ensures NoAdjacentSeps(r)
    ensures forall c :: c in r ==> c in s || c == '-'
    decreases |s|
  {
    if |s| == 0 then ""
    else if !IsSep(s[0]) then
      var rest := CollapseSeps(s[1..]);
      NoAdjacentCons(s[0], rest);
      [s[0]] + rest
    else
      var k := SepRun(s);
      var rest := CollapseSeps(s[k..]);
      var c := if k >= 2 then '-' else s[0];
      NoAdjacentCons(c, rest);
      [c] + rest
  }

  /** Text without adjacent separators is left alone. */
  lemma {:induction false} CollapseFixed(s: string)
    requires NoAdjacentSeps(s)
    ensures CollapseSeps(s) == s
    decreases |s|
  {
    if |s| > 0 {
      assert NoAdjacentSeps(s[1..]) by {
        forall i | 0 <= i < |s[1..]| - 1 ensures !(IsSep(s[1..][i]) && IsSep(s[1..][i + 1])) {
          assert s[1..][i] == s[i + 1] && s[1..][i + 1] == s[i + 2];
        }
      }
      CollapseFixed(s[1..]);
      if IsSep(s[0]) {
        assert |s| == 1 || !IsSep(s[1]);
        assert SepRun(s) == 1;
      }
      assert s == [s[0]] + s[1..];
    }
  }

  const MaxTitleSlug := 60
  const DefaultTitleSlug := "ticket"

  /** The title before the cut: the kept characters, stripped, spaces turned
      into `-` and separator runs collapsed. */
  function TitleBase(title: string): (r: string)
    ensures forall c :: c in r ==> SlugChar(c)
    ensures NoAdjacentSeps(r)
    ensures (forall i :: 0 <= i < |title| ==> !SlugChar(title[i])) ==> r == ""
  {
    var kept := KeepTitleChars(title);
    var stripped := PyStr.Strip(kept);
    var dashed := PyStr.ReplaceChar(stripped, ' ', "-");
    KeptSubset(kept, stripped);
    DashedSlugChars(kept, stripped, dashed);
    NothingToKeep(title, kept, stripped, dashed);
    CollapseSeps(dashed)
  }

  /** Once spaces are dashes, every character is a slug character. */
  lemma DashedSlugChars(kept: string, stripped: string, dashed: string)
    requires forall i :: 0 <= i < |kept| ==> TitleChar(kept[i])
    requires forall c :: c in stripped ==> c in kept
    requires dashed == PyStr.ReplaceChar(stripped, ' ', "-")
    ensures forall c :: c in dashed ==> SlugChar(c)
  {
    forall c | c in dashed ensures SlugChar(c) {
      assert c != ' ';
      if c in stripped {
        var i :| 0 <= i < |kept| && kept[i] == c;
      }
    }
  }

  /** `normalize_title`: the title base cut to 60 characters, or `ticket`
      when nothing is left. */
  function NormalizeTitle(title: string): (r: string)
    ensures 1 <= |r| <= MaxTitleSlug
    ensures forall i :: 0 <= i < |r| ==> SlugChar(r[i])
    ensures NoAdjacentSeps(r)
    ensures (forall i :: 0 <= i < |title| ==> !SlugChar(title[i])) ==> r == DefaultTitleSlug
  {
    CutSlug(TitleBase(title))
  }

  /** The cut to 60 characters, with `ticket` for an empty base. */
  function CutSlug(base: string): (r: string)
    requires forall c :: c in base ==> SlugChar(c)
    requires NoAdjacentSeps(base)
    ensures 1 <= |r| <= MaxTitleSlug
    ensures forall i :: 0 <= i < |r| ==> SlugChar(r[i])
    ensures NoAdjacentSeps(r)
    ensures |base| == 0 ==> r == DefaultTitleSlug
  {
    if |base| == 0 then
      LowerWordIsSlug(DefaultTitleSlug);
      DefaultTitleSlug
    else
      var r := PyStr.Prefix(base, MaxTitleSlug);
      assert forall i :: 0 <= i < |r| ==> r[i] == base[i];
      assert forall i :: 0 <= i < |r| ==> r[i] in base;
      r
  }

  /** A word of lower-case ASCII letters is a slug. */
  lemma LowerWordIsSlug(s: string)
    requires forall j :: 0 <= j < |s| ==> 'a' <= s[j] <= 'z'
    ensures forall j :: 0 <= j < |s| ==> SlugChar(s[j])
    ensures NoAdjacentSeps(s)
  {
  }

  /** No slug character is whitespace. */
  lemma SlugCharNotSpace(c: char)
    requires SlugChar(c)
    ensures !PyStr.IsSpace(c)
  {
  }

  /** A slug is its own normal form, so normalising a title twice changes
      nothing more. */
  lemma NormalizeTitleIdempotent(title: string)
    ensures NormalizeTitle(NormalizeTitle(title)) == NormalizeTitle(title)
  {
    var r := NormalizeTitle(title);
    SlugIsBase(r);
  }

  /** A slug is its own title base. */
  lemma SlugIsBase(r: string)
    requires |r| > 0 && forall i :: 0 <= i < |r| ==> SlugChar(r[i])
    requires NoAdjacentSeps(r)
    ensures TitleBase(r) == r
  {
    assert KeepTitleChars(r) == r;
    SlugStripped(r);
    assert PyStr.ReplaceChar(r, ' ', "-") == r;
    CollapseFixed(r);
  }

  /** A slug has no whitespace at either end. */
  lemma SlugStripped(r: string)
    requires |r| > 0 && forall i :: 0 <= i < |r| ==> SlugChar(r[i])
    ensures PyStr.Strip(r) == r
  {
    SlugCharNotSpace(r[0]);
    SlugCharNotSpace(r[|r| - 1]);
    PyStr.StripPlain(r);
  }

  /** What stripping keeps comes from its input. */
  lemma KeptSubset(kept: string, stripped: string)
    requires stripped == PyStr.Strip(kept)
    ensures forall c :: c in stripped ==> c in kept
  {
    PyStr.StripWithIsSlice(kept, PyStr.Whitespace);
    var a := PyStr.StripStart(kept, PyStr.Whitespace);
    forall c | c in stripped ensures c in kept {
      var i :| 0 <= i < |stripped| && stripped[i] == c;
      assert kept[a + i] == c;
    }
  }

  /** A title without slug characters leaves nothing once stripped. */
  lemma NothingToKeep(title: string, kept: string, stripped: string, dashed: string)
    requires kept == KeepTitleChars(title) && stripped == PyStr.Strip(kept)
    requires dashed == PyStr.ReplaceChar(stripped, ' ', "-")
    ensures (forall i :: 0 <= i < |title| ==> !SlugChar(title[i])) ==> |dashed| == 0
  {
    if forall i :: 0 <= i < |title| ==> !SlugChar(title[i]) {
      forall i | 0 <= i < |kept| ensures PyStr.IsSpace(kept[i]) {
        assert kept[i] in title;
      }
    }
  }

  // ------------------------------------------------------------------ ticket ids

  /** The longest run of ASCII digits at the start. */
  function LeadingDigits(s: string): (d: string)
    ensures |d| <= |s| && d == s[..|d|] && PyStr.AllDigits(d)
    ensures |d| < |s| ==> !PyStr.IsDigit(s[|d|])
    decreases |s|
  {
    if |s| > 0 && PyStr.IsDigit(s[0]) then [s[0]] + LeadingDigits(s[1..]) else ""
  }

  const TicketPrefix := "TKT-"

  /** The stem of a file the `TKT-*.md` pattern selects, past `TKT-`. */
  function TicketBody(name: string): Option<string> {
    if PyStr.StartsWith(name, TicketPrefix) && PyStr.EndsWith(name, ".md") && |name| >= 7 then
      Some(name[|TicketPrefix|..|name| - 3])
    else None
  }

  lemma TicketBodyOf(body: string)
    ensures TicketBody(TicketPrefix + body + ".md") == Some(body)
  {
    var name := TicketPrefix + body + ".md";
    assert name[..|TicketPrefix|] == TicketPrefix;
    assert name[|name| - 3..] == ".md";
    assert name[|TicketPrefix|..|name| - 3] == body;
  }

  /** The number `re.match(r"TKT-(\d+)", stem)` reads from a file the
      `TKT-*.md` pattern selects; none for other files. */
  function TicketNumber(name: string): (r: Option<nat>)
  {
    match TicketBody(name)
    case None => None
    case Some(body) =>
      var digits := LeadingDigits(body);
      if |digits| > 0 then Some(PyStr.ParseDigits(digits)) else None
  }

  /** The ticket numbers of the files, in order. */
  function TicketNumbers(names: seq<string>): (nums: seq<nat>)
    ensures forall i :: 0 <= i < |names| && TicketNumber(names[i]).Some? ==> TicketNumber(names[i]).value in nums
    decreases |names|
  {
    if |names| == 0 then []
    else
      var prev := names[..|names| - 1];
      var nums := TicketNumbers(prev);
      assert forall i :: 0 <= i < |prev| ==> prev[i] == names[i];
      match TicketNumber(names[|names| - 1])
      case Some(n) => nums + [n]
      case None => nums
  }

  /** Every number collected comes from some file. */
  lemma {:induction false} TicketNumberFromFile(names: seq<string>, n: nat)
    requires n in TicketNumbers(names)
    ensures exists i :: 0 <= i < |names| && TicketNumber(names[i]) == Some(n)
    decreases |names|
  {
    var prev := names[..|names| - 1];
    var last := names[|names| - 1];
    if TicketNumber(last) == Some(n) {
      assert TicketNumber(names[|names| - 1]) == Some(n);
    } else {
      assert n in TicketNumbers(prev);
      TicketNumberFromFile(prev, n);
      var i :| 0 <= i < |prev| && TicketNumber(prev[i]) == Some(n);
      assert names[i] == prev[i];
    }
  }

  /** `max(nums, default=0) + 1` */
  function MaxPlusOne(nums: seq<nat>): (r: nat)
    ensures r >= 1 && forall n :: n in nums ==> n < r
    ensures r == 1 || r - 1 in nums
    decreases |nums|
  {
    if |nums| == 0 then 1
    else
      var prev := MaxPlusOne(nums[..|nums| - 1]);
      assert nums == nums[..|nums| - 1] + [nums[|nums| - 1]];
      if nums[|nums| - 1] + 1 > prev then nums[|nums| - 1] + 1 else prev
  }

  /** `next_ticket_id`: one more than the largest ticket number in the
      folder, 1 when there is none. */
  function NextTicketId(names: seq<string>): (r: nat)
    ensures r >= 1 && forall n :: n in TicketNumbers(names) ==> n < r
    ensures r == 1 || r - 1 in TicketNumbers(names)
  {
    MaxPlusOne(TicketNumbers(names))
  }

  /** `f"TKT-{n:04d}"` */
  function TicketId(n: nat): string {
    TicketPrefix + PyStr.ZeroPad(n, 4)
  }

  /** `f"{ticket_id}-{slug}.md"` */
  function TicketFileName(n: nat, slug: string): string {
    TicketId(n) + "-" + slug + ".md"
  }

  /** The number a ticket's file name was made from is read back from it. */
  lemma TicketNumberOfFileName(n: nat, slug: string)
    ensures TicketNumber(TicketFileName(n, slug)) == Some(n)
  {
    var pad := PyStr.ZeroPad(n, 4);
    var body := pad + "-" + slug;
    assert TicketFileName(n, slug) == TicketPrefix + body + ".md";
    TicketBodyOf(body);
    assert body == pad + ("-" + slug);
    LeadingDigitsBefore(pad, "-" + slug);
    PyStr.ParseZeroPad(n, 4);
  }

  /** The digits at the start end where a non-digit follows them. */
  lemma {:induction false} LeadingDigitsBefore(d: string, rest: string)
    requires PyStr.AllDigits(d) && |rest| > 0 && !PyStr.IsDigit(rest[0])
    ensures LeadingDigits(d + rest) == d
    decreases |d|
  {
    if |d| > 0 {
      assert (d + rest)[1..] == d[1..] + rest;
      LeadingDigitsBefore(d[1..], rest);
      assert d == [d[0]] + d[1..];
    } else {
      assert d + rest == rest;
    }
  }

  /** After a ticket is created under the next id, the id after that is one
      more: ids keep increasing. */
  lemma NextIdAfterCreate(names: seq<string>, slug: string)
    ensures NextTicketId(names + [TicketFileName(NextTicketId(names), slug)]) == NextTicketId(names) + 1
  {
    var n := NextTicketId(names);
    var all := names + [TicketFileName(n, slug)];
    TicketNumberOfFileName(n, slug);
    assert all[..|all| - 1] == names;
  }

  /** The next ticket's file is never one the folder already holds: its
      number exceeds every number the folder's ticket files carry. */
  lemma NewFileIsFresh(names: seq<string>, slug: string)
    ensures TicketFileName(NextTicketId(names), slug) !in names
  {
    var n := NextTicketId(names);
    TicketNumberOfFileName(n, slug);
    forall i | 0 <= i < |names| ensures names[i] != TicketFileName(n, slug) {
      if TicketNumber(names[i]).Some? {
        assert TicketNumber(names[i]).value in TicketNumbers(names);
      }
    }
  }

  const Priorities: set<string> := {"low", "medium", "high", "critical"}

  /** What `create_ticket` does: its exit code, the file it names and the
      text it writes (if any). */
  datatype Creation = Creation(code: int, fileName: string, text: Option<string>)

  /** The ticket file's text: the front matter between `---` lines, then the
      title as a heading. */
  function TicketText(id: string, status: string, priority: string, owner: string, dueBy: string,
                      deps: seq<string>, tags: seq<string>, today: string, title: string): string
  {
    "---" + "\n"
    + ("id: " + id + "\n"
    + ("task_context_id: " + id + "\n"
    + (Tickets.StatusLine(status) + "\n"
    + TicketTextRest(priority, owner, dueBy, deps, tags, today, title))))
  }

  /** The lines after the status line. */
  function TicketTextRest(priority: string, owner: string, dueBy: string,
                          deps: seq<string>, tags: seq<string>, today: string, title: string): string
  {
    "priority: " + priority + "\n"
    + "owner: " + owner + "\n"
    + "due_by: " + dueBy + "\n"
    + "dependencies: " + Json.ToStr(Json.StrList(deps)) + "\n"
    + "tags: " + Json.ToStr(Json.StrList(tags)) + "\n"
    + "created: " + today + "\n"
    + "updated: null\n"
    + "---\n\n"
    + "# " + title + "\n"
  }

  /** `[d.strip() for d in deps if d.strip()]` */
  function StrippedDeps(deps: seq<string>): (r: seq<string>)
    ensures |r| <= |deps|
    ensures forall i :: 0 <= i < |r| ==> |r[i]| > 0 && PyStr.Strip(r[i]) == r[i]
    decreases |deps|
  {
    if |deps| == 0 then []
    else
      var d := PyStr.Strip(deps[0]);
      PyStr.StripIdempotent(deps[0]);
      (if |d| > 0 then [d] else []) + StrippedDeps(deps[1..])
  }

  /** `main` of `create_ticket`: a status or priority outside the choices is
      refused by the argument parser (exit 2); an existing file of the same
      name exits 1 without writing; otherwise the ticket is written under the
      next id, a blank due date taking the default. */
  function CreateTicket(names: seq<string>, title: string, status: string, priority: string, owner: string,
                        dueBy: string, deps: seq<string>, tags: seq<string>,
                        today: string, defaultDue: string): (r: Creation)
    ensures status !in Tickets.TicketStatuses || priority !in Priorities ==> r.code == 2 && r.text.None?
    ensures r.code == 1 ==> r.fileName in names && r.text.None?
    ensures r.code == 0 ==> r.fileName == TicketFileName(NextTicketId(names), NormalizeTitle(title))
    ensures r.code == 0 ==> r.fileName !in names && r.text.Some?
  {
    if status !in Tickets.TicketStatuses || priority !in Priorities then Creation(2, "", None)
    else
      var n := NextTicketId(names);
      var id := TicketId(n);
      var fileName := TicketFileName(n, NormalizeTitle(title));
      if fileName in names then Creation(1, fileName, None)
      else
        var due := if |PyStr.Strip(dueBy)| == 0 then defaultDue else PyStr.Strip(dueBy);
        Creation(0, fileName, Some(TicketText(id, status, priority, owner, due, StrippedDeps(deps), tags, today, title)))
  }

  /** With valid choices a ticket is always written: the name clash the
      script guards against cannot happen. */
  lemma CreateAlwaysWrites(names: seq<string>, title: string, status: string, priority: string, owner: string,
                           dueBy: string, deps: seq<string>, tags: seq<string>, today: string, defaultDue: string)
    requires status in Tickets.TicketStatuses && priority in Priorities
    ensures CreateTicket(names, title, status, priority, owner, dueBy, deps, tags, today, defaultDue).code == 0
  {
    NewFileIsFresh(names, NormalizeTitle(title));
  }

  /** A line made of a fixed key and digits has no line boundary. */
  lemma LabelledIdOneLine(key: string, n: nat)
    requires forall j :: 0 <= j < |key| ==> !PyStr.IsLineBreak(key[j])
    ensures forall j :: 0 <= j < |key + TicketId(n)| ==> !PyStr.IsLineBreak((key + TicketId(n))[j])
  {
    var pad := PyStr.ZeroPad(n, 4);
    var line := key + TicketId(n);
    assert line == key + TicketPrefix + pad;
    forall j | 0 <= j < |line| ensures !PyStr.IsLineBreak(line[j]) {
      if j >= |key| + |TicketPrefix| {
        assert line[j] == pad[j - |key| - |TicketPrefix|];
      }
    }
  }

  predicate OneLine(s: string) {
    forall j :: 0 <= j < |s| ==> !PyStr.IsLineBreak(s[j])
  }

  /** The keys in front of the status line hold no line boundary. */
  lemma HeaderKeysOneLine()
    ensures OneLine("---") && OneLine("id: ") && OneLine("task_context_id: ")
  {
    PrintableOneLine("---");
    PrintableOneLine("id: ");
    PrintableOneLine("task_context_id: ");
  }

  /** Printable ASCII text is one line. */
  lemma PrintableOneLine(s: string)
    requires forall j :: 0 <= j < |s| ==> ' ' <= s[j] <= '~'
    ensures OneLine(s)
  {
  }

  /** The status written into a ticket's text reads back. */
  lemma TicketTextStatus(n: nat, status: string, rest: string)
    requires status in Tickets.TicketStatuses
    ensures Tickets.ReadStatus("---" + "\n" + ("id: " + TicketId(n) + "\n" + ("task_context_id: " + TicketId(n) + "\n"
      + (Tickets.StatusLine(status) + "\n" + rest)))) == Some(status)
  {
    var id := TicketId(n);
    var b3 := Tickets.StatusLine(status) + "\n" + rest;
    var b2 := "task_context_id: " + id + "\n" + b3;
    var b1 := "id: " + id + "\n" + b2;
    Tickets.StatusNamePlain(status);
    Tickets.ReadStatusFront(status, rest);
    HeaderKeysOneLine();
    LabelledIdOneLine("task_context_id: ", n);
    Tickets.ReadStatusBehind("task_context_id: " + id, b3);
    LabelledIdOneLine("id: ", n);
    Tickets.ReadStatusBehind("id: " + id, b2);
    Tickets.ReadStatusBehind("---", b1);
  }

  /** A new ticket is written in the status it was created with, so the
      status update reads that status back from it. */
  lemma CreatedTicketStatus(names: seq<string>, title: string, status: string, priority: string, owner: string,
                            dueBy: string, deps: seq<string>, tags: seq<string>, today: string, defaultDue: string)
    requires CreateTicket(names, title, status, priority, owner, dueBy, deps, tags, today, defaultDue).code == 0
    ensures Tickets.ReadStatus(CreateTicket(names, title, status, priority, owner, dueBy, deps, tags, today,
                                            defaultDue).text.value) == Some(status)
  {
    var due := if |PyStr.Strip(dueBy)| == 0 then defaultDue else PyStr.Strip(dueBy);
    TicketTextStatus(NextTicketId(names), status,
                     TicketTextRest(priority, owner, due, StrippedDeps(deps), tags, today, title));
  }
}
