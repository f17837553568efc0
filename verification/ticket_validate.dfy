/** The ticket-folder check: every ticket's front matter is scanned for its
    `dependencies` list, and each listed dependency must name another ticket
    file (by its whole stem, not just its `TKT-n` id). The folder listing and
    the file contents are inputs. */
module TicketValidate {
  import opened Results
  import PyStr
  import Json

  const Fence := "---"

  /** `ln.split(":", 1)` with both sides stripped. */
  function KeyValue(line: string): (kv: (string, string))
    requires ':' in line
    ensures exists k :: (0 <= k < |line| && line[k] == ':' && ':' !in line[..k]
                         && kv == (PyStr.Strip(line[..k]), PyStr.Strip(line[k + 1..])))
  {
    var k := PyStr.IndexOf(line, ':').value;
    (PyStr.Strip(line[..k]), PyStr.Strip(line[k + 1..]))
  }

  /** The key/value pairs of the lines that carry a ':', in order. */
  function KeyValues(lines: seq<string>): (r: seq<(string, string)>)
    ensures |r| <= |lines|
    decreases |lines|
  {
    if |lines| == 0 then []
    else (if ':' in lines[0] then [KeyValue(lines[0])] else []) + KeyValues(lines[1..])
  }

  /** The scan of the front matter, one line at a time: nothing is read before
      the first fence line, and the second one ends the scan. */
  function ScanFront(lines: seq<string>, inFront: bool): (r: seq<(string, string)>)
    decreases |lines|
  {
    if |lines| == 0 then []
    else if lines[0] == Fence then (if inFront then [] else ScanFront(lines[1..], true))
    else (if inFront && ':' in lines[0] then [KeyValue(lines[0])] else []) + ScanFront(lines[1..], inFront)
  }

  /** The first fence line at or after `from`. */
  function FenceIndex(lines: seq<string>, from: nat): (r: Option<nat>)
    requires from <= |lines|
    ensures r.Some? ==> from <= r.value < |lines| && lines[r.value] == Fence
    ensures forall j :: from <= j < |lines| && (r.None? || j < r.value) ==> lines[j] != Fence
    decreases |lines| - from
  {
    if from == |lines| then None
    else if lines[from] == Fence then Some(from)
    else FenceIndex(lines, from + 1)
  }

  /** The lines strictly between the first two fence lines (to the end when
      the second is missing; none when there is no fence at all). */
  function FrontBlock(lines: seq<string>): (block: seq<string>)
    ensures forall i :: 0 <= i < |block| ==> block[i] != Fence
  {
    match FenceIndex(lines, 0)
    case None => []
    case Some(a) =>
      match FenceIndex(lines, a + 1)
      case None => lines[a + 1..]
      case Some(b) => lines[a + 1..b]
  }

  /** Inside the front matter the scan reads every line up to the closing
      fence. */
  lemma {:induction false} ScanInside(lines: seq<string>)
    ensures ScanFront(lines, true) == KeyValues(
      match FenceIndex(lines, 0) case None => lines case Some(b) => lines[..b])
    decreases |lines|
  {
    if |lines| > 0 && lines[0] != Fence {
      ScanInside(lines[1..]);
      FenceShift(lines);
      match FenceIndex(lines[1..], 0)
      case None =>
        assert [lines[0]] + lines[1..] == lines;
      case Some(b) =>
        assert lines[..b + 1] == [lines[0]] + lines[1..][..b];
        assert lines[..b + 1][1..] == lines[1..][..b];
    }
  }

  /** Before the front matter the scan skips lines up to the opening fence. */
  lemma {:induction false} ScanOutside(lines: seq<string>)
    ensures ScanFront(lines, false) == KeyValues(FrontBlock(lines))
    decreases |lines|
  {
    if |lines| > 0 {
      if lines[0] == Fence {
        ScanInside(lines[1..]);
        FrontBlockAtFence(lines);
      } else {
        ScanOutside(lines[1..]);
        FrontBlockShift(lines);
      }
    }
  }

  /** From an opening fence, the block runs to the next fence. */
  lemma FrontBlockAtFence(lines: seq<string>)
    requires |lines| > 0 && lines[0] == Fence
    ensures FrontBlock(lines) ==
      match FenceIndex(lines[1..], 0) case None => lines[1..] case Some(b) => lines[1..][..b]
  {
    FenceFrom(lines, 1);
    match FenceIndex(lines[1..], 0)
    case None =>
    case Some(b) =>
      assert lines[1..][..b] == lines[1..b + 1];
  }

  /** A first line that is not a fence is not part of the block. */
  lemma FrontBlockShift(lines: seq<string>)
    requires |lines| > 0 && lines[0] != Fence
    ensures FrontBlock(lines) == FrontBlock(lines[1..])
  {
    FenceShift(lines);
    match FenceIndex(lines[1..], 0)
    case None =>
    case Some(a) =>
      FenceFrom(lines, a + 2);
      match FenceIndex(lines[1..], a + 1)
      case None =>
        assert lines[1..][a + 1..] == lines[a + 2..];
      case Some(b) =>
        assert lines[1..][a + 1..b] == lines[a + 2..b + 1];
  }

  /** Dropping a first line that is not a fence shifts the fence positions by one. */
  lemma FenceShift(lines: seq<string>)
    requires |lines| > 0
    ensures lines[0] != Fence ==>
      FenceIndex(lines, 0) == (match FenceIndex(lines[1..], 0) case None => None case Some(b) => Some(b + 1))
    ensures lines[0] == Fence ==> FenceIndex(lines, 0) == Some(0)
  {
    if lines[0] != Fence {
      FenceFrom(lines, 1);
    }
  }

  /** A fence search from `from` in the list equals one from `from - 1` in its tail. */
  lemma FenceFrom(lines: seq<string>, from: nat)
    requires 1 <= from <= |lines|
    ensures FenceIndex(lines, from) ==
      (match FenceIndex(lines[1..], from - 1) case None => None case Some(b) => Some(b + 1))
  {
    var r := FenceIndex(lines, from);
    var t := FenceIndex(lines[1..], from - 1);
    if r.Some? {
      assert lines[1..][r.value - 1] == Fence;
      if t.Some? {
        assert lines[t.value + 1] == Fence;
      }
    }
  }

  /** `front.get(key, default)`: a later assignment of the key wins. */
  function FrontGet(front: seq<(string, string)>, key: string, default: string): (r: string)
    ensures (forall i :: 0 <= i < |front| ==> front[i].0 != key) ==> r == default
    ensures (exists i :: 0 <= i < |front| && front[i].0 == key) ==>
      exists i :: 0 <= i < |front| && front[i] == (key, r)
        && forall j :: i < j < |front| ==> front[j].0 != key
    decreases |front|
  {
    if |front| == 0 then default
    else if front[|front| - 1].0 == key then front[|front| - 1].1
    else
      var init := front[..|front| - 1];
      var r := FrontGet(init, key, default);
      assert (exists i :: 0 <= i < |front| && front[i].0 == key) ==>
        exists i :: 0 <= i < |init| && init[i].0 == key by {
        if exists i :: 0 <= i < |front| && front[i].0 == key {
          var i :| 0 <= i < |front| && front[i].0 == key;
          assert init[i].0 == key;
        }
      }
      r
  }

  const Quotes: set<char> := {'"', '\''}

  /** `[x.strip().strip("\"'") for x in parts if x.strip()]` */
  function Items(parts: seq<string>): (r: seq<string>)
    ensures |r| <= |parts|
    decreases |parts|
  {
    if |parts| == 0 then []
    else
      var x := PyStr.Strip(parts[0]);
      (if |x| > 0 then [PyStr.StripChars(x, Quotes)] else []) + Items(parts[1..])
  }

  /** The dependency list of a front-matter value: only a bracketed value is
      split at its commas. */
  function DepItems(deps: string): (r: seq<string>)
    ensures !(PyStr.StartsWith(deps, "[") && PyStr.EndsWith(deps, "]")) ==> r == []
    ensures forall d :: d in r ==> ',' !in d
  {
    if PyStr.StartsWith(deps, "[") && PyStr.EndsWith(deps, "]") then
      assert deps[0] == '[' && deps[|deps| - 1] == ']';
      var parts := PyStr.Split(deps[1..|deps| - 1], ',');
      ItemsNoComma(parts);
      Items(parts)
    else []
  }

  lemma {:induction false} ItemsNoComma(parts: seq<string>)
    requires forall i :: 0 <= i < |parts| ==> ',' !in parts[i]
    ensures forall d :: d in Items(parts) ==> ',' !in d
    decreases |parts|
  {
    if |parts| > 0 {
      ItemsNoComma(parts[1..]);
      var x := PyStr.Strip(parts[0]);
      PyStr.StripWithIsSlice(parts[0], PyStr.Whitespace);
      PyStr.StripWithIsSlice(x, Quotes);
      assert forall c :: c in PyStr.StripChars(x, Quotes) ==> c in x;
      assert forall c :: c in x ==> c in parts[0];
    }
  }

  /** The dependencies a ticket's text declares. */
  function TicketDeps(content: string): seq<string> {
    DepItems(FrontGet(ScanFront(PyStr.SplitLines(content), false), "dependencies", "[]"))
  }

  /** A ticket file: its stem and its text. The file name is the stem plus `.md`. */
  datatype TicketFile = TicketFile(stem: string, content: string)

  function Stems(files: seq<TicketFile>): (r: set<string>)
    ensures forall s :: s in r <==> exists i :: 0 <= i < |files| && files[i].stem == s
  {
    set i | 0 <= i < |files| :: files[i].stem
  }

  function MissingMessage(f: TicketFile, dep: string): string {
    f.stem + ".md dependency missing: " + dep
  }

  /** The issues of one ticket, in dependency order. */
  function DepIssues(f: TicketFile, deps: seq<string>, stems: set<string>): (r: seq<string>)
    ensures |r| <= |deps|
    ensures |r| == 0 <==> forall d :: d in deps && |d| > 0 ==> d in stems
    decreases |deps|
  {
    if |deps| == 0 then []
    else
      var d := deps[0];
      var rest := DepIssues(f, deps[1..], stems);
      assert forall x :: x in deps <==> x == d || x in deps[1..];
      (if |d| > 0 && d !in stems then [MissingMessage(f, d)] else []) + rest
  }

  /** Each issue names a non-empty dependency that is not a stem, and each
      such dependency has its issue. */
  lemma {:induction false} DepIssuesExact(f: TicketFile, deps: seq<string>, stems: set<string>, m: string)
    ensures m in DepIssues(f, deps, stems) <==>
      exists d :: d in deps && |d| > 0 && d !in stems && m == MissingMessage(f, d)
    decreases |deps|
  {
    if |deps| > 0 {
      DepIssuesExact(f, deps[1..], stems, m);
      assert forall x :: x in deps <==> x == deps[0] || x in deps[1..];
    }
  }

  /** The issues of one ticket file. */
  function FileIssues(f: TicketFile, stems: set<string>): seq<string> {
    DepIssues(f, TicketDeps(f.content), stems)
  }

  /** The lists one after another. */
  function Flatten(xss: seq<seq<string>>): (r: seq<string>)
    ensures |r| == 0 <==> forall i :: 0 <= i < |xss| ==> |xss[i]| == 0
    decreases |xss|
  {
    if |xss| == 0 then []
    else
      var r := xss[0] + Flatten(xss[1..]);
      assert forall i :: 1 <= i < |xss| ==> xss[1..][i - 1] == xss[i];
      r
  }

  lemma {:induction false} FlattenHas(xss: seq<seq<string>>, i: nat, m: string)
    requires i < |xss| && m in xss[i]
    ensures m in Flatten(xss)
    decreases |xss|
  {
    if i > 0 {
      assert xss[1..][i - 1] == xss[i];
      FlattenHas(xss[1..], i - 1, m);
    }
  }

  /** The issues of every ticket, in folder order. */
  function Issues(files: seq<TicketFile>, stems: set<string>): (r: seq<string>)
    ensures |r| == 0 <==> forall i :: 0 <= i < |files| ==> |FileIssues(files[i], stems)| == 0
  {
    var per := seq(|files|, i requires 0 <= i < |files| => FileIssues(files[i], stems));
    assert forall i :: 0 <= i < |files| ==> per[i] == FileIssues(files[i], stems);
    Flatten(per)
  }

  /** What the check printed and its exit code. */
  datatype Report = Report(code: int, output: seq<string>)

  /** `main`. `None` is a missing `tickets` folder; the file names of a folder are
      distinct, so are their stems. */
  function Validate(folder: Option<seq<TicketFile>>): (r: Report)
    requires folder.Some? ==> forall i, j :: 0 <= i < j < |folder.value| ==> folder.value[i].stem != folder.value[j].stem
    ensures folder.None? ==> r == Report(1, ["ERR: tickets directory missing"])
    ensures r.code == 0 || r.code == 1
    ensures r.code == 0 ==> r.output == ["VALIDATION_OK"]
    ensures r.code == 1 && folder.Some? ==> |r.output| >= 2 && r.output[0] == "VALIDATION_FAIL"
  {
    match folder
    case None => Report(1, ["ERR: tickets directory missing"])
    case Some(files) =>
      var issues := Issues(files, Stems(files));
      if |issues| > 0 then Report(1, ["VALIDATION_FAIL"] + issues) else Report(0, ["VALIDATION_OK"])
  }

  /** The folder passes exactly when every non-empty dependency of every ticket
      names a ticket file of the folder. */
  lemma ValidateOkIff(files: seq<TicketFile>)
    requires forall i, j :: 0 <= i < j < |files| ==> files[i].stem != files[j].stem
    ensures Validate(Some(files)).code == 0 <==>
      forall i, d :: 0 <= i < |files| && d in TicketDeps(files[i].content) && |d| > 0 ==>
        exists j :: 0 <= j < |files| && files[j].stem == d
  {
  }

  /** A ticket that names a missing dependency is reported under its file name. */
  lemma MissingDependencyReported(files: seq<TicketFile>, i: nat, d: string)
    requires forall a, b :: 0 <= a < b < |files| ==> files[a].stem != files[b].stem
    requires i < |files| && d in TicketDeps(files[i].content) && |d| > 0
    requires forall j :: 0 <= j < |files| ==> files[j].stem != d
    ensures Validate(Some(files)).code == 1
    ensures MissingMessage(files[i], d) in Validate(Some(files)).output
    decreases |files|
  {
    var stems := Stems(files);
    assert d !in stems;
    DepIssuesExact(files[i], TicketDeps(files[i].content), stems, MissingMessage(files[i], d));
    var per := seq(|files|, j requires 0 <= j < |files| => FileIssues(files[j], stems));
    FlattenHas(per, i, MissingMessage(files[i], d));
  }

  // ---------------------------------------------------------------- dependencies written by the creator

  /** The pieces `repr` writes for a list of strings: each one quoted. */
  function QuotedItems(deps: seq<string>): (q: seq<string>)
    ensures |q| == |deps| && forall i :: 0 <= i < |deps| ==> q[i] == "'" + deps[i] + "'"
  {
    seq(|deps|, i requires 0 <= i < |deps| => "'" + deps[i] + "'")
  }

  /** The items after the first, as the split at ',' sees them: behind the space `repr` puts after each comma. */
  function Spaced(q: seq<string>): (s: seq<string>)
    ensures |s| == |q| && forall i :: 0 <= i < |q| ==> s[i] == " " + q[i]
  {
    seq(|q|, i requires 0 <= i < |q| => " " + q[i])
  }

  lemma {:induction false} ReprStrItems(parent: Json.Value, deps: seq<string>)
    requires forall i :: 0 <= i < |deps| ==> Json.Str(deps[i]) < parent
    ensures Json.ReprItems(parent, seq(|deps|, i requires 0 <= i < |deps| => Json.Str(deps[i])))
         == PyStr.Join(QuotedItems(deps), ", ")
    decreases |deps|
  {
    var items := seq(|deps|, i requires 0 <= i < |deps| => Json.Str(deps[i]));
    if |deps| >= 2 {
      ReprStrItems(parent, deps[1..]);
      assert items[1..] == seq(|deps[1..]|, i requires 0 <= i < |deps[1..]| => Json.Str(deps[1..][i]));
      assert QuotedItems(deps) == [QuotedItems(deps)[0]] + QuotedItems(deps[1..]);
      PyStr.JoinCons(QuotedItems(deps)[0], QuotedItems(deps[1..]), ", ");
    }
  }

  /** A space before a ", "-join is a ","-join of the spaced pieces. */
  lemma {:induction false} SpacedJoin(q: seq<string>)
    requires |q| >= 1
    ensures " " + PyStr.Join(q, ", ") == PyStr.Join(Spaced(q), ",")
    decreases |q|
  {
    if |q| >= 2 {
      SpacedJoin(q[1..]);
      assert Spaced(q) == [Spaced(q)[0]] + Spaced(q[1..]);
      PyStr.JoinCons(Spaced(q)[0], Spaced(q[1..]), ",");
    }
  }

  /** A dependency the creator can write back unchanged: `str` of the list
      escapes nothing in it, it holds no comma, and it has no quote or
      whitespace at either end. */
  predicate PlainDep(d: string) {
    |d| > 0 && ',' !in d && Json.ReprUnescaped(d)
    && d[0] !in Quotes && d[|d| - 1] !in Quotes
    && !PyStr.IsSpace(d[0]) && !PyStr.IsSpace(d[|d| - 1])
  }

  /** Stripping a set of characters off a piece wrapped in one of them gives the piece. */
  lemma StripWrapped(c: char, d: string, drop: set<char>)
    requires c in drop && |d| > 0 && d[0] !in drop && d[|d| - 1] !in drop
    ensures PyStr.StripWith([c] + d + [c], drop) == d
  {
    var w := [c] + d + [c];
    assert w[1..] == d + [c];
    assert (d + [c])[..|d|] == d;
    assert PyStr.LStripWith(d + [c], drop) == d + [c];
    assert PyStr.RStripWith(d + [c], drop) == PyStr.RStripWith(d, drop);
  }

  /** A quoted piece has no whitespace at its ends. */
  lemma QuotedUnpadded(d: string)
    ensures !PyStr.IsSpace(("'" + d + "'")[0]) && !PyStr.IsSpace(("'" + d + "'")[|d| + 1])
  {
  }

  /** One quoted piece, with or without the leading space, reads back as its dependency. */
  lemma ItemOfQuoted(d: string, lead: string)
    requires PlainDep(d) && (lead == "" || lead == " ")
    ensures PyStr.Strip(lead + "'" + d + "'") == "'" + d + "'"
    ensures PyStr.StripChars("'" + d + "'", Quotes) == d
  {
    var q := "'" + d + "'";
    QuotedUnpadded(d);
    if lead == " " {
      assert lead + "'" + d + "'" == " " + q;
      PyStr.StripSpacePrefix(q);
    } else {
      assert lead + "'" + d + "'" == q;
      PyStr.StripPlain(q);
    }
    assert q == ['\''] + d + ['\''];
    StripWrapped('\'', d, Quotes);
  }

  /** A plain dependency's piece, behind its space or not, is one item. */
  lemma ItemsCons(d: string, lead: string, rest: seq<string>)
    requires PlainDep(d) && (lead == "" || lead == " ")
    ensures Items([lead + "'" + d + "'"] + rest) == [d] + Items(rest)
  {
    ItemOfQuoted(d, lead);
    assert ([lead + "'" + d + "'"] + rest)[1..] == rest;
  }

  lemma {:induction false} ItemsOfQuoted(deps: seq<string>)
    requires forall i :: 0 <= i < |deps| ==> PlainDep(deps[i])
    ensures Items(Spaced(QuotedItems(deps))) == deps
    decreases |deps|
  {
    if |deps| > 0 {
      var s := Spaced(QuotedItems(deps));
      var tail := Spaced(QuotedItems(deps[1..]));
      assert s[0] == " " + "'" + deps[0] + "'";
      assert s[1..] == tail;
      assert s == [s[0]] + s[1..];
      ItemsCons(deps[0], " ", tail);
      ItemsOfQuoted(deps[1..]);
      assert deps == [deps[0]] + deps[1..];
    }
  }

  /** How the creator renders a list of strings: `str` of the list. */
  lemma RenderedDeps(deps: seq<string>)
    ensures Json.ToStr(Json.StrList(deps)) == "[" + PyStr.Join(QuotedItems(deps), ", ") + "]"
  {
    var v := Json.StrList(deps);
    assert v == Json.List(v.items);
    assert v.items == seq(|deps|, i requires 0 <= i < |deps| => Json.Str(deps[i]));
    ReprStrItems(v, deps);
  }

  /** Splitting the rendered items at ',' leaves the first piece bare and the
      others behind a space. */
  lemma SplitQuoted(deps: seq<string>)
    requires |deps| >= 1 && forall i :: 0 <= i < |deps| ==> ',' !in deps[i]
    ensures PyStr.Split(PyStr.Join(QuotedItems(deps), ", "), ',')
         == [QuotedItems(deps)[0]] + Spaced(QuotedItems(deps[1..]))
  {
    var q := QuotedItems(deps);
    assert q[1..] == QuotedItems(deps[1..]);
    var parts := [q[0]] + Spaced(q[1..]);
    assert forall i :: 0 <= i < |parts| ==> ',' !in parts[i] by {
      forall i | 0 <= i < |parts| ensures ',' !in parts[i] {
        if i > 0 {
          assert parts[i] == " " + ("'" + deps[i] + "'");
        }
      }
    }
    if |deps| >= 2 {
      SpacedJoin(q[1..]);
      PyStr.JoinCons(q[0], q[1..], ", ");
      PyStr.JoinCons(q[0], Spaced(q[1..]), ",");
      assert PyStr.Join(parts, [',']) == PyStr.Join(q, ", ");
    } else {
      assert PyStr.Join(parts, [',']) == PyStr.Join(q, ", ");
    }
    PyStr.SplitOfJoin(parts, ',');
  }

  /** A bracketed value is split at the commas between its brackets. */
  lemma DepItemsOfBracketed(inner: string)
    ensures DepItems("[" + inner + "]") == Items(PyStr.Split(inner, ','))
  {
    var text := "[" + inner + "]";
    assert text[1..|text| - 1] == inner;
    assert PyStr.StartsWith(text, "[") && PyStr.EndsWith(text, "]");
  }

  /** The pieces of the rendered list read back as the list. */
  lemma ItemsOfRendered(deps: seq<string>)
    requires forall i :: 0 <= i < |deps| ==> PlainDep(deps[i])
    ensures Items(PyStr.Split(PyStr.Join(QuotedItems(deps), ", "), ',')) == deps
  {
    if |deps| == 0 {
      assert PyStr.Split("", ',') == [""];
      assert PyStr.Strip("") == "";
    } else {
      SplitQuoted(deps);
      assert QuotedItems(deps)[0] == "" + "'" + deps[0] + "'";
      ItemsCons(deps[0], "", Spaced(QuotedItems(deps[1..])));
      ItemsOfQuoted(deps[1..]);
      assert deps == [deps[0]] + deps[1..];
    }
  }

  /** The `dependencies` value the ticket creator writes reads back, through
      this check's parser, as the list it was given. */
  lemma CreatedDepsReadBack(deps: seq<string>)
    requires forall i :: 0 <= i < |deps| ==> PlainDep(deps[i])
    ensures DepItems(Json.ToStr(Json.StrList(deps))) == deps
  {
    RenderedDeps(deps);
    DepItemsOfBracketed(PyStr.Join(QuotedItems(deps), ", "));
    ItemsOfRendered(deps);
  }
}
