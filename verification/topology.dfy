/** The workflow topology generator: from a goal statement it picks a
    topology type by keyword, cuts the goal into at most six decision
    questions, makes one node per question chained by data edges, and (in
    the product edition) adds the execution policy, the loop-risk profile
    and the handoff points of the type. Fractions are kept in hundredths. */
module Topology {
  import opened Results
  import PyStr

  // ---------------------------------------------------------------- topology type

  const LoopWords: seq<string> := ["반복", "루프", "개선", "개량"]
  /** The older edition lists the first loop word twice. */
  const LegacyLoopWords: seq<string> := ["반복", "루프", "반복", "개선", "개량"]
  const FanOutWords: seq<string> := ["분기", "조건", "경우"]
  const FanInWords: seq<string> := ["합치", "통합", "요약"]
  const DagWords: seq<string> := ["동시", "병렬", "비교", "분석", "채점"]

  /** Some word of the group occurs in the text. */
  predicate Mentions(text: string, words: seq<string>) {
    exists i :: 0 <= i < |words| && PyStr.Contains(text, words[i])
  }

  /** `choose_topology`: the keyword groups are tried in a fixed order on the
      lower-cased goal. */
  function ChooseTopology(goal: string): (t: string)
    ensures t == "loop" || t == "fan_out" || t == "fan_in" || t == "dag" || t == "linear"
  {
    var lowered := PyStr.Lower(goal);
    if Mentions(lowered, LoopWords) then "loop"
    else if Mentions(lowered, FanOutWords) then "fan_out"
    else if Mentions(lowered, FanInWords) then "fan_in"
    else if Mentions(lowered, DagWords) then "dag"
    else "linear"
  }

  /** A word with no ASCII letter in it. */
  predicate Caseless(w: string) {
    forall j :: 0 <= j < |w| ==> !('A' <= w[j] <= 'Z') && !('a' <= w[j] <= 'z')
  }

  lemma StartsWithLower(s: string, w: string)
    requires Caseless(w)
    ensures PyStr.StartsWith(PyStr.Lower(s), w) <==> PyStr.StartsWith(s, w)
  {
    if |w| <= |s| {
      if PyStr.Lower(s)[..|w|] == w {
        forall j | 0 <= j < |w| ensures s[j] == w[j] {
          assert PyStr.Lower(s)[j] == w[j];
        }
        assert s[..|w|] == w;
      }
      if s[..|w|] == w {
        forall j | 0 <= j < |w| ensures PyStr.Lower(s)[j] == w[j] {
          assert s[j] == w[j];
        }
        assert PyStr.Lower(s)[..|w|] == w;
      }
    }
  }

  /** Lower-casing never changes whether a caseless word occurs. */
  lemma {:induction false} ContainsLower(s: string, w: string)
    requires Caseless(w)
    ensures PyStr.Contains(PyStr.Lower(s), w) <==> PyStr.Contains(s, w)
    decreases |s|
  {
    StartsWithLower(s, w);
    if |s| > 0 {
      assert PyStr.Lower(s)[1..] == PyStr.Lower(s[1..]);
      ContainsLower(s[1..], w);
    }
  }

  lemma MentionsLower(s: string, words: seq<string>)
    requires forall i :: 0 <= i < |words| ==> Caseless(words[i])
    ensures Mentions(PyStr.Lower(s), words) <==> Mentions(s, words)
  {
    forall i | 0 <= i < |words| ensures PyStr.Contains(PyStr.Lower(s), words[i]) <==> PyStr.Contains(s, words[i]) {
      ContainsLower(s, words[i]);
    }
  }

  lemma KeywordsCaseless()
    ensures forall i :: 0 <= i < |LoopWords| ==> Caseless(LoopWords[i])
    ensures forall i :: 0 <= i < |FanOutWords| ==> Caseless(FanOutWords[i])
    ensures forall i :: 0 <= i < |FanInWords| ==> Caseless(FanInWords[i])
    ensures forall i :: 0 <= i < |DagWords| ==> Caseless(DagWords[i])
  {
  }

  /** The groups are tried in the order loop, fan-out, fan-in, DAG: the type
      is the first group some word of which occurs in the goal as written,
      and linear when none does. */
  lemma ChooseTopologyPriority(goal: string)
    ensures var t := ChooseTopology(goal);
            (t == "loop" <==> Mentions(goal, LoopWords))
            && (t == "fan_out" <==> !Mentions(goal, LoopWords) && Mentions(goal, FanOutWords))
            && (t == "fan_in" <==> !Mentions(goal, LoopWords) && !Mentions(goal, FanOutWords) && Mentions(goal, FanInWords))
            && (t == "dag" <==> !Mentions(goal, LoopWords) && !Mentions(goal, FanOutWords)
                                && !Mentions(goal, FanInWords) && Mentions(goal, DagWords))
            && (t == "linear" <==> !Mentions(goal, LoopWords) && !Mentions(goal, FanOutWords)
                                   && !Mentions(goal, FanInWords) && !Mentions(goal, DagWords))
  {
    KeywordsCaseless();
    MentionsLower(goal, LoopWords);
    MentionsLower(goal, FanOutWords);
    MentionsLower(goal, FanInWords);
    MentionsLower(goal, DagWords);
  }

  /** Repeating a loop word in the older edition changes nothing. */
  lemma LegacyLoopWordsSame(text: string)
    ensures Mentions(text, LegacyLoopWords) <==> Mentions(text, LoopWords)
  {
    if Mentions(text, LegacyLoopWords) {
      var i :| 0 <= i < |LegacyLoopWords| && PyStr.Contains(text, LegacyLoopWords[i]);
      var j := if i <= 1 then i else if i == 2 then 0 else i - 1;
      assert LoopWords[j] == LegacyLoopWords[i];
    }
    if Mentions(text, LoopWords) {
      var i :| 0 <= i < |LoopWords| && PyStr.Contains(text, LoopWords[i]);
      var j := if i <= 1 then i else i + 1;
      assert LegacyLoopWords[j] == LoopWords[i];
    }
  }

  // ---------------------------------------------------------------- splitting the goal

  /** The separator one of the pattern's alternatives can match. */
  predicate IsSeparator(sep: string) {
    sep == "." || sep == "?" || sep == "!" || sep == "\n" || sep == "그리고 " || sep == "및 " || sep == "또는 "
  }

  /** The length of the separator `[.?!\n]|그리고 |및 |또는 ` matches at the
      start of `s`, the alternatives tried in that order; 0 when none does. */
  function SepAt(s: string): (m: nat)
    ensures m <= |s|
  {
    if |s| == 0 then 0
    else if s[0] == '.' || s[0] == '?' || s[0] == '!' || s[0] == '\n' then 1
    else if |s| >= 4 && s[0] == '그' && s[1] == '리' && s[2] == '고' && s[3] == ' ' then 4
    else if |s| >= 2 && s[0] == '및' && s[1] == ' ' then 2
    else if |s| >= 3 && s[0] == '또' && s[1] == '는' && s[2] == ' ' then 3
    else 0
  }

  /** What `SepAt` matches is one of the pattern's alternatives. */
  lemma SepAtIsSeparator(s: string)
    requires SepAt(s) > 0
    ensures IsSeparator(s[..SepAt(s)])
  {
    var m := SepAt(s);
    if m == 4 {
      assert s[..4] == "그리고 ";
    } else if m == 2 {
      assert s[..2] == "및 ";
    } else if m == 3 {
      assert s[..3] == "또는 ";
    } else {
      assert s[..1] == [s[0]];
    }
  }

  /** A match at the start of a prefix is a match at the start of the whole. */
  lemma SepAtPrefix(t: string, u: string)
    requires |t| <= |u| && u[..|t|] == t && SepAt(t) > 0
    ensures SepAt(u) > 0
  {
    assert forall j :: 0 <= j < |t| ==> u[j] == t[j];
  }

  /** Where the leftmost separator match starts. */
  function FirstSep(s: string): (r: Option<nat>)
    ensures r.Some? ==> r.value < |s| && SepAt(s[r.value..]) > 0
    decreases |s|
  {
    if |s| == 0 then None
    else if SepAt(s) > 0 then Some(0)
    else
      match FirstSep(s[1..])
      case None => None
      case Some(k) => assert s[1..][k..] == s[k + 1..]; Some(k + 1)
  }

  /** No match starts before the first one. */
  lemma {:induction false} FirstSepLeftmost(s: string, j: nat)
    requires j < |s|
    requires FirstSep(s).Some? ==> j < FirstSep(s).value
    ensures SepAt(s[j..]) == 0
    decreases |s|
  {
    if j > 0 && SepAt(s) == 0 {
      assert s[1..][j - 1..] == s[j..];
      FirstSepLeftmost(s[1..], j - 1);
    }
  }

  /** The text before each separator match paired with the match, the last
      text paired with the empty string. */
  function Pieces(s: string): (r: seq<(string, string)>)
    ensures |r| >= 1 && r[|r| - 1].1 == ""
    decreases |s|
  {
    match FirstSep(s)
    case None => [(s, "")]
    case Some(k) =>
      var m := SepAt(s[k..]);
      [(s[..k], s[k..k + m])] + Pieces(s[k + m..])
  }

  /** `re.split(pattern, s)`: the texts between the matches. */
  function Parts(s: string): (parts: seq<string>)
    ensures |parts| >= 1
  {
    var ps := Pieces(s);
    seq(|ps|, i requires 0 <= i < |ps| => ps[i].0)
  }

  /** The pieces put back together. */
  function Concat(ps: seq<(string, string)>): string {
    if |ps| == 0 then "" else ps[0].0 + ps[0].1 + Concat(ps[1..])
  }

  /** Splitting loses nothing: the texts and the separators between them
      make up the goal again. */
  lemma {:induction false} PiecesRejoin(s: string)
    ensures Concat(Pieces(s)) == s
    decreases |s|
  {
    match FirstSep(s)
    case None =>
    case Some(k) =>
      var m := SepAt(s[k..]);
      var rest := s[k + m..];
      var ps := Pieces(s);
      PiecesRejoin(rest);
      assert ps[1..] == Pieces(rest);
      calc {
        Concat(ps);
        s[..k] + s[k..k + m] + Concat(Pieces(rest));
        s[..k] + s[k..k + m] + rest;
        { assert s == s[..k] + s[k..k + m] + s[k + m..]; }
        s;
      }
  }

  /** A whole match: the pattern matches all of `sep` at its start. */
  predicate IsMatch(sep: string) {
    |sep| > 0 && SepAt(sep) == |sep|
  }

  /** The text a match covers is itself a whole match. */
  lemma SepAtOwnMatch(u: string)
    requires SepAt(u) > 0
    ensures IsMatch(u[..SepAt(u)])
  {
    var t := u[..SepAt(u)];
    assert forall j :: 0 <= j < |t| ==> t[j] == u[j];
  }

  /** Every separator between two texts is a whole match of the pattern. */
  lemma PiecesMatches(s: string, i: nat)
    requires i < |Pieces(s)| - 1
    ensures IsMatch(Pieces(s)[i].1)
  {
    PiecesSeparatorsMatch(s);
  }

  /** Every piece but the last ends in a whole match. */
  ghost predicate SeparatorsMatch(ps: seq<(string, string)>) {
    forall i :: 0 <= i < |ps| - 1 ==> IsMatch(ps[i].1)
  }

  lemma PiecesSeparatorsMatchCons(h: (string, string), t: seq<(string, string)>)
    requires IsMatch(h.1) && SeparatorsMatch(t)
    ensures SeparatorsMatch([h] + t)
  {
    forall i | 0 <= i < |[h] + t| - 1
      ensures IsMatch(([h] + t)[i].1)
    {
      if i > 0 {
        assert ([h] + t)[i] == t[i - 1];
      }
    }
  }

  lemma {:induction false} PiecesSeparatorsMatch(s: string)
    ensures SeparatorsMatch(Pieces(s))
    decreases |s|
  {
    if FirstSep(s).Some? {
      var k, m := PiecesFirstSplit(s);
      SepAtOwnMatch(s[k..]);
      assert s[k..][..m] == s[k..k + m];
      PiecesSeparatorsMatch(s[k + m..]);
      PiecesSeparatorsMatchCons((s[..k], s[k..k + m]), Pieces(s[k + m..]));
    }
  }

  /** Splitting at the first match: its text, the match, then the rest split. */
  lemma PiecesFirstSplit(s: string) returns (k: nat, m: nat)
    requires FirstSep(s).Some?
    ensures 0 < m && k + m <= |s| && m == SepAt(s[k..])
    ensures Pieces(s) == [(s[..k], s[k..k + m])] + Pieces(s[k + m..])
  {
    k := FirstSep(s).value;
    m := SepAt(s[k..]);
  }

  /** Every separator between two texts is one of the pattern's
      alternatives. */
  lemma PiecesSeparators(s: string, i: nat)
    requires i < |Pieces(s)| - 1
    ensures IsSeparator(Pieces(s)[i].1)
  {
    var sep := Pieces(s)[i].1;
    PiecesMatches(s, i);
    SepAtIsSeparator(sep);
    assert sep[..|sep|] == sep;
  }

  /** No text between separators holds the start of a match. */
  lemma {:induction false} PartsSeparatorFree(s: string, i: nat, j: nat)
    requires i < |Parts(s)| && j < |Parts(s)[i]|
    ensures SepAt(Parts(s)[i][j..]) == 0
    decreases |s|
  {
    var ps := Pieces(s);
    match FirstSep(s)
    case None =>
      assert Parts(s)[i] == s;
      FirstSepLeftmost(s, j);
    case Some(k) =>
      var m := SepAt(s[k..]);
      var rest := s[k + m..];
      if i == 0 {
        var p := s[..k];
        assert Parts(s)[0] == p;
        FirstSepLeftmost(s, j);
        assert s[j..][..|p[j..]|] == p[j..];
        if SepAt(p[j..]) > 0 {
          SepAtPrefix(p[j..], s[j..]);
        }
      } else {
        assert Parts(s)[i] == Parts(rest)[i - 1];
        PartsSeparatorFree(rest, i - 1, j);
      }
  }

  // ---------------------------------------------------------------- decision questions

  /** `[p.strip() for p in parts if len(p.strip()) > 2]` */
  function Fragments(parts: seq<string>): (r: seq<string>)
    ensures |r| <= |parts|
    ensures forall i :: 0 <= i < |r| ==> |r[i]| > 2
  {
    if |parts| == 0 then []
    else
      var q := PyStr.Strip(parts[0]);
      (if |q| > 2 then [q] else []) + Fragments(parts[1..])
  }

  /** The fragments are exactly the stripped parts longer than two characters. */
  lemma {:induction false} FragmentsMembers(parts: seq<string>, x: string)
    ensures x in Fragments(parts) <==> |x| > 2 && exists i :: 0 <= i < |parts| && PyStr.Strip(parts[i]) == x
    decreases |parts|
  {
    if |parts| > 0 {
      FragmentsMembers(parts[1..], x);
      if exists i :: 0 <= i < |parts| && PyStr.Strip(parts[i]) == x {
        var i :| 0 <= i < |parts| && PyStr.Strip(parts[i]) == x;
        if i > 0 {
          assert parts[1..][i - 1] == parts[i];
        }
      }
      if exists i :: 0 <= i < |parts[1..]| && PyStr.Strip(parts[1..][i]) == x {
        var i :| 0 <= i < |parts[1..]| && PyStr.Strip(parts[1..][i]) == x;
        assert parts[i + 1] == parts[1..][i];
      }
    }
  }

  const MaxQuestions := 6

  /** `tokenize_dqs` of the older edition (and the question texts of the
      newer one): the first six fragments of the goal, or the whole stripped
      goal when no fragment is long enough. */
  function Questions(goal: string): (qs: seq<string>)
    ensures 1 <= |qs| <= MaxQuestions
  {
    var raw := Fragments(Parts(goal));
    if |raw| == 0 then [PyStr.Strip(goal)]
    else if |raw| <= MaxQuestions then raw
    else raw[..MaxQuestions]
  }

  /** Every question is a stripped part of the goal longer than two
      characters, unless the goal has no such part, when the single question
      is the stripped goal itself. */
  lemma QuestionsFromGoal(goal: string, i: nat)
    requires i < |Questions(goal)|
    ensures var q := Questions(goal)[i];
            (|q| > 2 && exists k :: 0 <= k < |Parts(goal)| && PyStr.Strip(Parts(goal)[k]) == q)
            || (Fragments(Parts(goal)) == [] && Questions(goal) == [PyStr.Strip(goal)])
  {
    var raw := Fragments(Parts(goal));
    if |raw| > 0 {
      var q := Questions(goal)[i];
      assert q == raw[i];
      FragmentsMembers(Parts(goal), q);
    }
  }

  /** `round(1.0 / max(1, n), 2)` in hundredths. */
  function WeightHundredths(n: nat): (w: nat)
    ensures n >= 1 ==> 2 * n * w <= 200 + n && 2 * n * w > 200 - n
  {
    var d := if n == 0 then 1 else n;
    (200 + d) / (2 * d)
  }

  /** A decision question of the newer edition. */
  datatype Dq = Dq(id: string, question: string, weight: nat)

  /** `DQ<k>` */
  function DqId(k: nat): string {
    "DQ" + PyStr.NatToString(k)
  }

  /** `tokenize_dqs` of the newer edition: the questions numbered from
      `DQ1`, all weighted alike. */
  function TokenizeDqs(goal: string): (dqs: seq<Dq>)
    ensures |dqs| == |Questions(goal)|
    ensures forall i :: 0 <= i < |dqs| ==> dqs[i].id == DqId(i + 1) && dqs[i].question == Questions(goal)[i]
  {
    var qs := Questions(goal);
    seq(|qs|, i requires 0 <= i < |qs| => Dq(DqId(i + 1), qs[i], WeightHundredths(|qs|)))
  }

  /** The equal weights of the questions add up to one, give or take the
      rounding of each. */
  lemma WeightsNearOne(goal: string)
    ensures var dqs := TokenizeDqs(goal);
            forall i :: 0 <= i < |dqs| ==> 2 * |dqs| * dqs[i].weight <= 200 + |dqs| && 2 * |dqs| * dqs[i].weight > 200 - |dqs|
  {
  }

  // ---------------------------------------------------------------- nodes

  /** The fields both editions give a node; `rsvTarget` is in hundredths. */
  datatype Node = Node(id: string, caption: string, theta: string, assignedDqs: seq<string>, rsvTarget: nat)

  /** `T<k>` */
  function TaskId(k: nat): string {
    "T" + PyStr.NatToString(k)
  }

  /** The band of the node at `i` of `n`: the first is wide (even when it is
      also the last), the last narrow, the rest moderate. */
  function Band(i: nat, n: nat): (theta: string)
    ensures theta == "wide" || theta == "moderate" || theta == "narrow"
  {
    if i == 0 then "wide" else if i + 1 == n then "narrow" else "moderate"
  }

  /** `round(min(1.0, max(0.05, 1.0 / max(1, n) + 0.05 * i)), 2)` in hundredths. */
  function RsvTarget(i: nat, n: nat): (r: nat)
    ensures 5 <= r <= 100
  {
    var x := WeightHundredths(n) + 5 * i;
    if x < 5 then 5 else if x > 100 then 100 else x
  }

  const LabelWidth := 60

  /** `build_nodes` of the older edition, over the question texts. */
  function LegacyNodes(qs: seq<string>): (nodes: seq<Node>)
    ensures |nodes| == |qs|
    ensures forall i :: 0 <= i < |qs| ==>
              nodes[i] == Node(TaskId(i + 1), PyStr.Prefix(qs[i], LabelWidth), Band(i, |qs|), [DqId(i + 1)], RsvTarget(i, |qs|))
  {
    seq(|qs|, i requires 0 <= i < |qs| =>
          Node(TaskId(i + 1), PyStr.Prefix(qs[i], LabelWidth), Band(i, |qs|), [DqId(i + 1)], RsvTarget(i, |qs|)))
  }

  /** A band's expected semantic-entropy range, in hundredths. */
  datatype Range = Range(lo: nat, hi: nat)

  /** `THETA_RANGE_MAP` */
  function ThetaRange(theta: string): (r: Range)
    requires theta == "wide" || theta == "moderate" || theta == "narrow"
    ensures r.lo < r.hi <= 100
  {
    if theta == "narrow" then Range(0, 20)
    else if theta == "moderate" then Range(20, 60)
    else Range(40, 90)
  }

  /** `_output_type_for_position` */
  function OutputType(i: nat, n: nat): (t: string)
    ensures t == "memo" || t == "decision" || t == "table"
  {
    if i == 0 then "memo" else if i + 1 == n then "decision" else "table"
  }

  /** A node of the newer edition: the shared fields and what it adds. */
  datatype ProductNode = ProductNode(
    node: Node,
    stopCondition: string,
    outputType: string,
    thetaRange: Range,
    entropyExpected: nat)

  /** `build_nodes` of the newer edition. */
  function ProductNodes(dqs: seq<Dq>): (nodes: seq<ProductNode>)
    ensures |nodes| == |dqs|
  {
    seq(|dqs|, i requires 0 <= i < |dqs| =>
          var theta := Band(i, |dqs|);
          var range := ThetaRange(theta);
          ProductNode(
            Node(TaskId(i + 1), PyStr.Prefix(dqs[i].question, LabelWidth), theta, [dqs[i].id], RsvTarget(i, |dqs|)),
            dqs[i].id + " closed OR redundancy detected",
            OutputType(i, |dqs|),
            range,
            (range.lo + range.hi) / 2))
  }

  /** The shared fields of the nodes. */
  function Cores(nodes: seq<ProductNode>): (r: seq<Node>)
    ensures |r| == |nodes|
    ensures forall i :: 0 <= i < |nodes| ==> r[i] == nodes[i].node
  {
    seq(|nodes|, i requires 0 <= i < |nodes| => nodes[i].node)
  }

  /** Both editions give the same goal the same nodes, as far as the older
      one goes. */
  lemma EditionsAgreeOnNodes(goal: string)
    ensures Cores(ProductNodes(TokenizeDqs(goal))) == LegacyNodes(Questions(goal))
  {
  }

  /** Node `i` is `T<i+1>`, works on `DQ<i+1>`, is labelled with at most 60
      characters from the start of its question, and its band, output type
      and expected entropy follow its position: the first node is a wide
      memo, the last (when there are two or more) a narrow decision, the rest
      moderate tables, the entropy lying inside the band's range. */
  lemma ProductNodeMeans(goal: string, i: nat)
    requires i < |Questions(goal)|
    ensures var n := |Questions(goal)|;
            var p := ProductNodes(TokenizeDqs(goal))[i];
            var q := Questions(goal)[i];
            p.node.id == TaskId(i + 1) && p.node.assignedDqs == [DqId(i + 1)]
            && |p.node.caption| <= LabelWidth && p.node.caption == q[..|p.node.caption|]
            && (|q| <= LabelWidth ==> p.node.caption == q)
            && (i == 0 <==> p.node.theta == "wide") && (i == 0 <==> p.outputType == "memo")
            && (0 < i && i + 1 == n <==> p.node.theta == "narrow")
            && (0 < i && i + 1 == n <==> p.outputType == "decision")
            && p.thetaRange.lo <= p.entropyExpected <= p.thetaRange.hi
  {
  }

  /** Different positions carry different task ids. */
  lemma TaskIdsDistinct(a: nat, b: nat)
    requires a != b
    ensures TaskId(a) != TaskId(b)
  {
    if TaskId(a) == TaskId(b) {
      assert PyStr.NatToString(a) == TaskId(a)[1..];
      PyStr.ParseNatToString(a);
      PyStr.ParseNatToString(b);
    }
  }

  // ---------------------------------------------------------------- edges

  datatype Edge = Edge(from: string, to: string, kind: string)

  /** `build_edges`: a data edge from each node to the next. */
  function BuildEdges(nodes: seq<Node>): (edges: seq<Edge>)
    ensures |edges| == if |nodes| <= 1 then 0 else |nodes| - 1
    ensures forall i :: 0 <= i < |edges| ==> edges[i] == Edge(nodes[i].id, nodes[i + 1].id, "data")
  {
    if |nodes| <= 1 then []
    else seq(|nodes| - 1, i requires 0 <= i < |nodes| - 1 => Edge(nodes[i].id, nodes[i + 1].id, "data"))
  }

  /** No two positions carry the same id. */
  predicate DistinctIds(nodes: seq<Node>) {
    forall a, b :: 0 <= a < |nodes| && 0 <= b < |nodes| && a != b ==> nodes[a].id != nodes[b].id
  }

  /** With distinct ids the edges form a chain: edge `i` comes into a node
      exactly when the node is at `i + 1`, and it comes from the node before. */
  lemma ChainEdgesIn(nodes: seq<Node>, j: nat)
    requires j < |nodes| && DistinctIds(nodes)
    ensures var edges := BuildEdges(nodes);
            forall i :: 0 <= i < |edges| ==>
              (edges[i].to == nodes[j].id <==> i + 1 == j) && edges[i].from == nodes[i].id
  {
    var edges := BuildEdges(nodes);
    forall i | 0 <= i < |edges| ensures edges[i].to == nodes[j].id <==> i + 1 == j {
      assert edges[i].to == nodes[i + 1].id;
    }
  }

  /** ... and edge `i` leaves a node exactly when the node is at `i`, going
      to the node after it. */
  lemma ChainEdgesOut(nodes: seq<Node>, j: nat)
    requires j < |nodes| && DistinctIds(nodes)
    ensures var edges := BuildEdges(nodes);
            forall i :: 0 <= i < |edges| ==>
              (edges[i].from == nodes[j].id <==> i == j) && edges[i].to == nodes[i + 1].id
  {
    var edges := BuildEdges(nodes);
    forall i | 0 <= i < |edges| ensures edges[i].from == nodes[j].id <==> i == j {
      assert edges[i].from == nodes[i].id;
    }
  }

  /** Generated nodes carry distinct ids. */
  lemma NodeIdsDistinct(qs: seq<string>)
    ensures DistinctIds(LegacyNodes(qs))
  {
    forall a, b | 0 <= a < |qs| && 0 <= b < |qs| && a != b ensures LegacyNodes(qs)[a].id != LegacyNodes(qs)[b].id {
      TaskIdsDistinct(a + 1, b + 1);
    }
  }

  // ---------------------------------------------------------------- execution policy

  const BaseRules: seq<string> := [
    "CONTINUE: delta_entropy > epsilon AND new DQ closure detected",
    "REFRAME: redundancy flag AND delta_rsv == 0 for 2 consecutive iterations",
    "STOP: all assigned DQs closed OR rsv_accumulated >= rsv_total"
  ]
  const GateRule := "STOP: strategy_gate triggered — require human approval before proceed"

  /** The node-level policy; the estimator hook it names is fixed. */
  datatype Policy = Policy(rules: seq<string>, humanGateNodes: seq<string>)

  /** `_build_execution_policy` */
  function ExecutionPolicy(risk: string, nodes: seq<Node>): (p: Policy)
    ensures |p.rules| == (if risk == "high" then 4 else 3) && p.rules[..3] == BaseRules
    ensures risk == "high" ==> p.rules[3] == GateRule
    ensures p.humanGateNodes == (if risk == "high" && |nodes| > 0 then [nodes[|nodes| - 1].id] else [])
  {
    var rules := if risk == "high" then BaseRules + [GateRule] else BaseRules;
    var gates := if risk == "high" && |nodes| > 0 then [nodes[|nodes| - 1].id] else [];
    Policy(rules, gates)
  }

  // ---------------------------------------------------------------- handoff

  const HandoffRules: seq<string> := [
    "pass structured DQ status, not prose summaries",
    "include constraint_list and open_dqs at each handoff"
  ]

  datatype Handoff = Handoff(points: seq<string>, rules: seq<string>)

  /** The ids of the narrow nodes, in order. */
  function NarrowIds(nodes: seq<Node>): (r: seq<string>)
    ensures |r| <= |nodes|
  {
    if |nodes| == 0 then []
    else (if nodes[0].theta == "narrow" then [nodes[0].id] else []) + NarrowIds(nodes[1..])
  }

  /** `_build_handoff_strategy` */
  function HandoffStrategy(topologyType: string, nodes: seq<Node>): (r: Option<Handoff>)
    ensures r.Some? <==> topologyType == "fan_out" || topologyType == "fan_in" || topologyType == "dag"
  {
    if topologyType != "fan_out" && topologyType != "fan_in" && topologyType != "dag" then None
    else
      var points :=
        if topologyType == "fan_out" && |nodes| > 1 then [nodes[0].id]
        else if topologyType == "fan_in" && |nodes| > 1 then [nodes[|nodes| - 1].id]
        else if topologyType == "dag" then NarrowIds(nodes)
        else [];
      Some(Handoff(points, HandoffRules))
  }

  /** Only the last of two or more generated nodes is narrow. */
  lemma {:induction false} NarrowIdsOfBands(nodes: seq<Node>, n: nat, offset: nat)
    requires offset + |nodes| == n
    requires forall i :: 0 <= i < |nodes| ==> nodes[i].theta == Band(offset + i, n)
    ensures NarrowIds(nodes) == if |nodes| > 0 && offset + |nodes| > 1 then [nodes[|nodes| - 1].id] else []
    decreases |nodes|
  {
    if |nodes| > 0 {
      assert forall i :: 0 <= i < |nodes[1..]| ==> nodes[1..][i].theta == Band(offset + 1 + i, n);
      NarrowIdsOfBands(nodes[1..], n, offset + 1);
      if |nodes| > 1 {
        assert nodes[1..][|nodes[1..]| - 1] == nodes[|nodes| - 1];
      }
    }
  }

  // ---------------------------------------------------------------- loop risks

  datatype LoopRisk = LoopRisk(loopType: string, location: string, risk: string, mitigation: seq<string>)

  /** `DEFAULT_LOOP_RISKS.get(topology_type, [])` */
  function LoopRisks(topologyType: string): (r: seq<LoopRisk>)
    ensures forall i :: 0 <= i < |r| ==> r[i].risk == "low" || r[i].risk == "med" || r[i].risk == "high"
  {
    if topologyType == "linear" then
      [LoopRisk("redundancy_accumulation", "sequential nodes", "low", ["output schema enforces distinct sections"])]
    else if topologyType == "fan_out" then
      [LoopRisk("exploration_spiral", "parallel branches", "med", ["max_axes cap per branch", "orthogonality check"]),
       LoopRisk("redundancy_accumulation", "branch outputs", "med", ["deduplicate at synthesis node"])]
    else if topologyType == "fan_in" then
      [LoopRisk("rsv_inflation", "convergence node", "med", ["RSV cap at synthesis", "DQ re-scope if exceeded"])]
    else if topologyType == "dag" then
      [LoopRisk("semantic_dependency_cycle", "cross-dependency edges", "med", ["DAG validation", "merge or insert synthesis node"]),
       LoopRisk("rsv_inflation", "multi-path convergence", "med", ["DQ boundary review", "goal decomposition if needed"])]
    else if topologyType == "loop" then
      [LoopRisk("infinite_loop", "cycle back-edge", "high", ["max_iterations cap", "convergence check per iteration"]),
       LoopRisk("redundancy_accumulation", "repeated iterations", "high", ["output length cap", "delta_entropy threshold"]),
       LoopRisk("human_deferral_loop", "HITL gate", "med", ["explicit judgment criteria at gate"])]
    else []
  }

  // ---------------------------------------------------------------- spec

  /** The newer edition's topology spec, without its creation time. */
  datatype TopologySpec = TopologySpec(
    runId: string,
    nodes: seq<ProductNode>,
    edges: seq<Edge>,
    topologyType: string,
    rsvTotal: nat,
    strategyGate: bool,
    goalPreview: string,
    decisionQuestions: seq<Dq>,
    loopRisks: seq<LoopRisk>,
    policy: Policy,
    handoff: Option<Handoff>)

  /** The sum of the nodes' targets, in hundredths. */
  function RsvSum(nodes: seq<Node>): nat {
    if |nodes| == 0 then 0 else nodes[0].rsvTarget + RsvSum(nodes[1..])
  }

  const PreviewWidth := 120

  /** `build_spec` of the newer edition. */
  function BuildSpec(goal: string, risk: string, runId: string): (spec: TopologySpec)
    ensures spec.runId == runId && spec.strategyGate == (risk == "high")
    ensures 1 <= |spec.nodes| <= MaxQuestions && |spec.decisionQuestions| == |spec.nodes|
  {
    var dqs := TokenizeDqs(goal);
    var nodes := ProductNodes(dqs);
    var cores := Cores(nodes);
    var topologyType := ChooseTopology(goal);
    TopologySpec(runId, nodes, BuildEdges(cores), topologyType, RsvSum(cores), risk == "high",
                 PyStr.Prefix(goal, PreviewWidth), dqs, LoopRisks(topologyType),
                 ExecutionPolicy(risk, cores), HandoffStrategy(topologyType, cores))
  }

  /** Where each part of a spec comes from. */
  lemma SpecFields(goal: string, risk: string, runId: string)
    ensures var spec := BuildSpec(goal, risk, runId);
            var cores := Cores(spec.nodes);
            spec.nodes == ProductNodes(TokenizeDqs(goal)) && spec.topologyType == ChooseTopology(goal)
            && spec.edges == BuildEdges(cores) && spec.policy == ExecutionPolicy(risk, cores)
            && spec.handoff == HandoffStrategy(spec.topologyType, cores)
            && spec.loopRisks == LoopRisks(spec.topologyType)
  {
  }

  /** A high-risk spec is gated throughout: it sets the strategy gate, adds
      the fourth stop rule and makes its last node the only human gate; any
      other risk does none of these. */
  lemma HighRiskGates(goal: string, risk: string, runId: string)
    ensures var spec := BuildSpec(goal, risk, runId);
            var last := spec.nodes[|spec.nodes| - 1].node.id;
            (spec.strategyGate <==> |spec.policy.rules| == 4)
            && (spec.strategyGate ==> spec.policy.rules[3] == GateRule && spec.policy.humanGateNodes == [last])
            && (!spec.strategyGate ==> spec.policy.humanGateNodes == [])
  {
    SpecFields(goal, risk, runId);
  }

  /** Every type the generator picks has a risk profile: one entry for
      linear and fan-in, two for fan-out and DAG, three for loop. */
  lemma LoopRisksPresent(goal: string)
    ensures var t := ChooseTopology(goal);
            |LoopRisks(t)| == (if t == "loop" then 3 else if t == "fan_out" || t == "dag" then 2 else 1)
  {
  }

  /** A plan has a handoff strategy exactly for fan-out, fan-in and DAG; its
      points are the first node for fan-out, the last for fan-in and for a
      DAG (the only narrow node), and none when there is a single node. */
  lemma HandoffPoints(t: string, dqs: seq<Dq>)
    requires |dqs| >= 1
    ensures var nodes := Cores(ProductNodes(dqs));
            var h := HandoffStrategy(t, nodes);
            var n := |nodes|;
            (h.Some? <==> t == "fan_out" || t == "fan_in" || t == "dag")
            && (t == "fan_out" ==> h.value.points == (if n > 1 then [nodes[0].id] else []))
            && (t == "fan_in" || t == "dag" ==> h.value.points == (if n > 1 then [nodes[n - 1].id] else []))
  {
    var nodes := Cores(ProductNodes(dqs));
    NarrowIdsOfBands(nodes, |nodes|, 0);
  }

  /** The generated nodes form a chain of `n - 1` data edges, first to
      last: the edges into node `j` are the one from node `j - 1` (none for
      the first node), and the edges out of it the one to node `j + 1` (none
      for the last). */
  lemma NodesChain(dqs: seq<Dq>, j: nat)
    requires j < |dqs|
    ensures var nodes := Cores(ProductNodes(dqs));
            var edges := BuildEdges(nodes);
            |edges| == |nodes| - 1
            && (forall i :: 0 <= i < |edges| ==> (edges[i].to == nodes[j].id <==> i + 1 == j))
            && (forall i :: 0 <= i < |edges| ==> (edges[i].from == nodes[j].id <==> i == j))
            && (forall i :: 0 <= i < |edges| ==> edges[i].from == nodes[i].id && edges[i].to == nodes[i + 1].id)
  {
    var nodes := Cores(ProductNodes(dqs));
    forall a, b | 0 <= a < |nodes| && 0 <= b < |nodes| && a != b ensures nodes[a].id != nodes[b].id {
      TaskIdsDistinct(a + 1, b + 1);
    }
    ChainEdgesIn(nodes, j);
    ChainEdgesOut(nodes, j);
  }

  /** The older edition's spec, without its creation time. */
  datatype LegacySpec = LegacySpec(
    runId: string,
    nodes: seq<Node>,
    edges: seq<Edge>,
    topologyType: string,
    rsvTotal: nat,
    strategyGate: bool,
    goalPreview: string)

  /** `build_spec` of the older edition; the run id it derives from the clock
      is a parameter here. */
  function BuildLegacySpec(goal: string, risk: string, runId: string): (spec: LegacySpec)
    ensures spec.strategyGate <==> risk == "high"
  {
    var nodes := LegacyNodes(Questions(goal));
    LegacySpec(runId, nodes, BuildEdges(nodes), ChooseTopology(goal), RsvSum(nodes), risk == "high",
               PyStr.Prefix(goal, PreviewWidth))
  }

  /** The newer spec extends the older one: same nodes, edges, type, target
      total and gate. */
  lemma EditionsAgreeOnSpec(goal: string, risk: string, runId: string)
    ensures var spec := BuildSpec(goal, risk, runId);
            var legacy := BuildLegacySpec(goal, risk, runId);
            Cores(spec.nodes) == legacy.nodes && spec.edges == legacy.edges
            && spec.topologyType == legacy.topologyType && spec.rsvTotal == legacy.rsvTotal
            && spec.strategyGate == legacy.strategyGate
  {
    EditionsAgreeOnNodes(goal);
  }

  const EmptyGoal := "Error: goal is empty"

  /** `main`: the goal is stripped, and an empty goal is refused before
      anything is built. */
  function Generate(goal: string, risk: string, runId: string): (r: Result<TopologySpec>)
    ensures r.Err? <==> PyStr.IsBlank(goal)
    ensures r.Err? ==> r.error == EmptyGoal
    ensures r.Ok? ==> r.value.runId == runId && |r.value.nodes| >= 1
  {
    var g := PyStr.Strip(goal);
    if g == "" then Err(EmptyGoal) else Ok(BuildSpec(g, risk, runId))
  }
}
