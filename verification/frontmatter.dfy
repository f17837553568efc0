/** The `---`-fenced front matter of a markdown ticket as the governance
    validator and the portfolio report read it: nothing unless the very first
    line is a fence; then every `key: value` line up to the next fence, split
    at the first ':', the key stripped, the value stripped and then stripped of
    quote characters. A later line with the same key overwrites an earlier
    one. */
module FrontMatter {
  import opened Results
  import PyStr

  const Fence := "---"
  const Quotes: set<char> := {'"', '\''}

  /** `line.strip() == "---"` */
  predicate IsFence(line: string) {
    PyStr.Strip(line) == Fence
  }

  /** The lines before the first fence line: the whole list when there is none. */
  function UntilFence(lines: seq<string>): (r: seq<string>)
    ensures |r| <= |lines| && r == lines[..|r|]
    ensures forall i :: 0 <= i < |r| ==> !IsFence(r[i])
    ensures |r| < |lines| ==> IsFence(lines[|r|])
    decreases |lines|
  {
    if |lines| == 0 || IsFence(lines[0]) then []
    else [lines[0]] + UntilFence(lines[1..])
  }

  lemma UntilFenceStep(lines: seq<string>)
    requires |lines| > 0 && !IsFence(lines[0])
    ensures UntilFence(lines) == [lines[0]] + UntilFence(lines[1..])
  {
  }

  /** The lines of the front matter: none unless the first line is a fence,
      then those after it up to the closing fence (or the end of the file). */
  function Block(lines: seq<string>): (b: seq<string>)
    ensures |lines| == 0 || !IsFence(lines[0]) ==> b == []
    ensures |lines| > 0 && IsFence(lines[0]) ==>
              (1 + |b| <= |lines| && b == lines[1..1 + |b|] && (1 + |b| < |lines| ==> IsFence(lines[1 + |b|])))
    ensures forall i :: 0 <= i < |b| ==> !IsFence(b[i])
  {
    if |lines| == 0 || !IsFence(lines[0]) then [] else UntilFence(lines[1..])
  }

  /** `k, v = line.split(":", 1)`, then `k.strip()` and `v.strip().strip('"\'')`. */
  function Entry(line: string): (kv: (string, string))
    requires ':' in line
  {
    var k := PyStr.IndexOf(line, ':').value;
    (PyStr.Strip(line[..k]), PyStr.StripChars(PyStr.Strip(line[k + 1..]), Quotes))
  }

  /** The lines that hold a ':', in order; the parse skips the others. */
  function ColonLines(lines: seq<string>): (r: seq<string>)
    ensures |r| <= |lines|
    ensures forall j :: 0 <= j < |r| ==> ':' in r[j]
    decreases |lines|
  {
    if |lines| == 0 then []
    else (if ':' in lines[0] then [lines[0]] else []) + ColonLines(lines[1..])
  }

  /** The entries of the lines that hold a ':', in order. */
  function Entries(lines: seq<string>): (r: seq<(string, string)>)
    ensures |r| == |ColonLines(lines)|
  {
    var c := ColonLines(lines);
    seq(|c|, j requires 0 <= j < |c| => Entry(c[j]))
  }

  /** Assigning the pairs into a dict one after the other. */
  function ToMap(pairs: seq<(string, string)>): (m: map<string, string>)
    ensures forall k :: k in m <==> exists i :: 0 <= i < |pairs| && pairs[i].0 == k
    decreases |pairs|
  {
    if |pairs| == 0 then map[]
    else
      var prev := ToMap(pairs[..|pairs| - 1]);
      var last := pairs[|pairs| - 1];
      assert forall k :: k in prev <==> exists i :: 0 <= i < |pairs| - 1 && pairs[i].0 == k by {
        forall k | k in prev ensures exists i :: 0 <= i < |pairs| - 1 && pairs[i].0 == k {
          var i :| 0 <= i < |pairs[..|pairs| - 1]| && pairs[..|pairs| - 1][i].0 == k;
          assert pairs[i].0 == k;
        }
        forall k | exists i :: 0 <= i < |pairs| - 1 && pairs[i].0 == k ensures k in prev {
          var i :| 0 <= i < |pairs| - 1 && pairs[i].0 == k;
          assert pairs[..|pairs| - 1][i].0 == k;
        }
      }
      prev[last.0 := last.1]
  }

  /** The value a key ends up with is the one its last pair carries. */
  lemma {:induction false} ToMapLastWins(pairs: seq<(string, string)>, i: nat)
    requires i < |pairs|
    requires forall j :: i < j < |pairs| ==> pairs[j].0 != pairs[i].0
    ensures pairs[i].0 in ToMap(pairs) && ToMap(pairs)[pairs[i].0] == pairs[i].1
    decreases |pairs|
  {
    if i < |pairs| - 1 {
      var front := pairs[..|pairs| - 1];
      assert front[i] == pairs[i];
      ToMapLastWins(front, i);
    }
  }

  /** `parse_frontmatter` on the file's lines. */
  function Parse(lines: seq<string>): (fm: map<string, string>)
    ensures |lines| == 0 || !IsFence(lines[0]) ==> fm == map[]
  {
    ToMap(Entries(Block(lines)))
  }

  /** Each line kept for the parse is a line of the input that holds a ':'. */
  lemma {:induction false} ColonLinesFrom(lines: seq<string>)
    ensures forall j :: 0 <= j < |ColonLines(lines)| ==> ColonLines(lines)[j] in lines
    decreases |lines|
  {
    if |lines| > 0 {
      ColonLinesFrom(lines[1..]);
      var head := if ':' in lines[0] then [lines[0]] else [];
      var tail := ColonLines(lines[1..]);
      assert ColonLines(lines) == head + tail;
      forall j | 0 <= j < |ColonLines(lines)| ensures ColonLines(lines)[j] in lines {
        if j >= |head| {
          assert ColonLines(lines)[j] == tail[j - |head|];
          assert tail[j - |head|] in lines[1..];
        }
      }
    }
  }

  /** Every key read comes from a line of the block that carries a ':'. */
  lemma EntryKeys(lines: seq<string>)
    ensures forall k :: k in ToMap(Entries(lines)) ==>
                          exists line :: line in lines && ':' in line && Entry(line).0 == k
  {
    ColonLinesFrom(lines);
    var es := Entries(lines);
    var c := ColonLines(lines);
    forall k | k in ToMap(es) ensures exists line :: line in lines && ':' in line && Entry(line).0 == k {
      var j :| 0 <= j < |es| && es[j].0 == k;
      assert c[j] in lines && ':' in c[j] && Entry(c[j]) == es[j];
    }
  }

  // ---------------------------------------------------------------- writing front matter back

  /** A key that survives the parse unchanged: no ':' and no surrounding whitespace. */
  predicate PlainKey(k: string) {
    ':' !in k && (|k| > 0 ==> !PyStr.IsSpace(k[0]) && !PyStr.IsSpace(k[|k| - 1]))
  }

  /** A value that survives the parse unchanged: no surrounding whitespace or quotes. */
  predicate PlainValue(v: string) {
    |v| > 0 ==> (!PyStr.IsSpace(v[0]) && !PyStr.IsSpace(v[|v| - 1])
                 && v[0] !in Quotes && v[|v| - 1] !in Quotes)
  }

  function EntryLine(k: string, v: string): string {
    k + ": " + v
  }

  function EntryLines(pairs: seq<(string, string)>): (lines: seq<string>)
    ensures |lines| == |pairs|
    ensures forall i :: 0 <= i < |pairs| ==> lines[i] == EntryLine(pairs[i].0, pairs[i].1)
  {
    seq(|pairs|, i requires 0 <= i < |pairs| => EntryLine(pairs[i].0, pairs[i].1))
  }

  /** A ticket file: the fenced `key: value` lines, then the body. */
  function Render(pairs: seq<(string, string)>, body: seq<string>): seq<string> {
    [Fence] + EntryLines(pairs) + [Fence] + body
  }

  /** A non-whitespace character is kept by `strip`. */
  lemma StripKeeps(s: string, c: char)
    requires c in s && !PyStr.IsSpace(c)
    ensures c in PyStr.Strip(s)
  {
    var k :| 0 <= k < |s| && s[k] == c;
    PyStr.StripWithIsSlice(s, PyStr.Whitespace);
    PyStr.LStripSuffix(s, PyStr.Whitespace);
    var a := PyStr.StripStart(s, PyStr.Whitespace);
    var l := PyStr.LStripWith(s, PyStr.Whitespace);
    var r := PyStr.Strip(s);
    assert k >= a;
    PyStr.RStripPrefix(l, PyStr.Whitespace);
    assert l[k - a] == c;
    assert k - a < |r|;
    assert r[k - a] == c;
  }

  /** A line holding a ':' is never a fence. */
  lemma ColonNotFence(line: string)
    requires ':' in line
    ensures !IsFence(line)
  {
    PyStr.PrintableNotSpace(':');
    StripKeeps(line, ':');
  }

  lemma FenceIsFence()
    ensures IsFence(Fence)
  {
    PyStr.PrintableNotSpace('-');
    PyStr.StripPlain(Fence);
  }

  /** A rendered entry line reads back as its key and value. */
  lemma EntryOfLine(k: string, v: string)
    requires PlainKey(k) && PlainValue(v)
    ensures ':' in EntryLine(k, v) && Entry(EntryLine(k, v)) == (k, v)
  {
    EntryLineCut(k, v);
    PyStr.StripPlain(k);
    PyStr.StripSpacePrefix(v);
    PyStr.StripWithFixed(v, Quotes);
  }

  /** The first ':' of a rendered entry line is the one after its key. */
  lemma EntryLineCut(k: string, v: string)
    requires ':' !in k
    ensures PyStr.IndexOf(EntryLine(k, v), ':') == Some(|k|)
    ensures EntryLine(k, v)[..|k|] == k && EntryLine(k, v)[|k| + 1..] == " " + v
  {
    var line := EntryLine(k, v);
    assert line[|k|] == ':';
    assert line[..|k|] == k;
    assert line[|k| + 1..] == " " + v;
  }

  /** The fence ends the scan right after lines that all hold a ':'. */
  lemma {:induction false} UntilFenceAfterEntries(ls: seq<string>, rest: seq<string>)
    requires forall i :: 0 <= i < |ls| ==> ':' in ls[i]
    ensures UntilFence(ls + [Fence] + rest) == ls
    decreases |ls|
  {
    var lines := ls + [Fence] + rest;
    if |ls| == 0 {
      assert lines[0] == Fence;
      FenceIsFence();
    } else {
      assert lines[0] == ls[0];
      ColonNotFence(ls[0]);
      UntilFenceStep(lines);
      assert lines[1..] == ls[1..] + [Fence] + rest;
      UntilFenceAfterEntries(ls[1..], rest);
      assert ls == [ls[0]] + ls[1..];
    }
  }

  /** Every rendered entry line holds the ':' after its key. */
  lemma EntryLinesHaveColon(pairs: seq<(string, string)>)
    ensures forall i :: 0 <= i < |pairs| ==> ':' in EntryLines(pairs)[i]
  {
    forall i | 0 <= i < |pairs| ensures ':' in EntryLines(pairs)[i] {
      assert EntryLines(pairs)[i][|pairs[i].0|] == ':';
    }
  }

  /** Lines that all hold a ':' are all kept. */
  lemma {:induction false} ColonLinesAll(ls: seq<string>)
    requires forall i :: 0 <= i < |ls| ==> ':' in ls[i]
    ensures ColonLines(ls) == ls
    decreases |ls|
  {
    if |ls| > 0 {
      ColonLinesAll(ls[1..]);
      assert ls == [ls[0]] + ls[1..];
    }
  }

  /** Rendered entry lines read back as the pairs they were made from. */
  lemma EntriesOfRendered(pairs: seq<(string, string)>)
    requires forall i :: 0 <= i < |pairs| ==> PlainKey(pairs[i].0) && PlainValue(pairs[i].1)
    ensures Entries(EntryLines(pairs)) == pairs
  {
    var ls := EntryLines(pairs);
    EntryLinesHaveColon(pairs);
    ColonLinesAll(ls);
    forall i | 0 <= i < |pairs| ensures Entries(ls)[i] == pairs[i] {
      EntryOfLine(pairs[i].0, pairs[i].1);
    }
  }

  /** Writing plain pairs between fences and reading the file back gives the
      dict those pairs build: every key with its last value. */
  lemma ParseOfRendered(pairs: seq<(string, string)>, body: seq<string>)
    requires forall i :: 0 <= i < |pairs| ==> PlainKey(pairs[i].0) && PlainValue(pairs[i].1)
    ensures Parse(Render(pairs, body)) == ToMap(pairs)
  {
    BlockOfRendered(pairs, body);
    EntriesOfRendered(pairs);
  }

  /** The block of a rendered file is exactly its entry lines. */
  lemma BlockOfRendered(pairs: seq<(string, string)>, body: seq<string>)
    ensures Block(Render(pairs, body)) == EntryLines(pairs)
  {
    var lines := Render(pairs, body);
    FenceIsFence();
    assert lines[0] == Fence;
    assert lines[1..] == EntryLines(pairs) + [Fence] + body;
    EntryLinesHaveColon(pairs);
    UntilFenceAfterEntries(EntryLines(pairs), body);
  }

  /** With distinct keys, each rendered key reads back with its own value. */
  lemma RenderedFieldReadBack(pairs: seq<(string, string)>, body: seq<string>, i: nat)
    requires forall i :: 0 <= i < |pairs| ==> PlainKey(pairs[i].0) && PlainValue(pairs[i].1)
    requires i < |pairs| && forall j :: i < j < |pairs| ==> pairs[j].0 != pairs[i].0
    ensures pairs[i].0 in Parse(Render(pairs, body))
    ensures Parse(Render(pairs, body))[pairs[i].0] == pairs[i].1
  {
    ParseOfRendered(pairs, body);
    ToMapLastWins(pairs, i);
  }
}
