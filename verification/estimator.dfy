/** The semantic-progress estimator of the workflow-topology designer: two
    snapshots of a node's normalized output are indexed into canonical units
    (`section:id` with a token set), current units are matched against the
    previous ones by Jaccard similarity, decision questions that closed or
    became partial since the previous snapshot earn RSV, and a redundancy flag
    marks a snapshot that grew without adding meaning.

    Similarities are exact rationals (`real`); RSV is counted in quarters
    (strong closure 4, partial 2, weak 1). The entropy proxy `theta` and its
    change are float heuristics and enter only as the boolean "the entropy
    change is negligible". */
module Estimator {
  import opened Results
  import opened Json
  import Dicts
  import PyStr

  /** `SIM_NEW_THRESHOLD`: a current unit at least this similar to some
      previous unit is a rephrase. */
  const SimNewThreshold: real := 0.62

  /** `DEFAULT_REDUNDANCY_THRESHOLD` */
  const DefaultRedundancyThreshold: real := 0.75

  /** `DEFAULT_MIN_NEW_UNITS_FOR_PROGRESS` */
  const DefaultMinNewUnits: int := 1

  // ---------------------------------------------------------------- similarity

  /** `jaccard(a, b)`: 1 for two empty sets, 0 when exactly one is empty,
      otherwise the size of the intersection over the size of the union. */
  function Jaccard(a: set<string>, b: set<string>): (r: real)
    ensures 0.0 <= r <= 1.0
    ensures |a| == 0 && |b| == 0 ==> r == 1.0
    ensures (|a| == 0) != (|b| == 0) ==> r == 0.0
  {
    if |a| == 0 && |b| == 0 then 1.0
    else if |a| == 0 || |b| == 0 then 0.0
    else
      SubsetCard(a * b, a + b);
      (|a * b| as real) / (|a + b| as real)
  }

  lemma SubsetCard(x: set<string>, y: set<string>)
    requires x <= y
    ensures |x| <= |y|
  {
    assert y == x + (y - x);
  }

  /** Similarity does not depend on the order of its arguments. */
  lemma JaccardSymmetric(a: set<string>, b: set<string>)
    ensures Jaccard(a, b) == Jaccard(b, a)
  {
    assert a * b == b * a;
    assert a + b == b + a;
  }

  /** Similarity is 1 exactly for equal token sets. */
  lemma JaccardOneIff(a: set<string>, b: set<string>)
    ensures Jaccard(a, b) == 1.0 <==> a == b
  {
    if |a| > 0 && |b| > 0 {
      assert Jaccard(a, b) == (|a * b| as real) / (|a + b| as real);
      if a != b {
        var x :| (x in a && x !in b) || (x in b && x !in a);
        ProperSubsetCard(a * b, a + b, x);
        BelowOne(|a * b| as real, |a + b| as real);
      } else {
        assert a * b == a + b;
      }
    }
  }

  lemma ProperSubsetCard(x: set<string>, y: set<string>, e: string)
    requires x <= y && e in y && e !in x
    ensures |x| < |y|
  {
    assert y == x + (y - x);
    assert e in y - x;
  }

  lemma BelowOne(x: real, y: real)
    requires 0.0 <= x < y
    ensures x / y < 1.0
  {
  }

  /** Disjoint non-empty token sets have similarity 0. */
  lemma JaccardDisjoint(a: set<string>, b: set<string>)
    requires a * b == {}
    requires |a| > 0 || |b| > 0
    ensures Jaccard(a, b) == 0.0
  {
  }

  // ---------------------------------------------------------------- tokens

  /** The characters a token is made of: `a-z`, `0-9` and the Hangul syllables. */
  predicate WordChar(c: char) {
    ('a' <= c <= 'z') || ('0' <= c <= '9') || ('\U{ac00}' <= c <= '\U{d7a3}')
  }

  /** The characters the tokenizer splits on. */
  predicate SepChar(c: char) {
    PyStr.IsSpace(c) || c in {'.', ',', ';', ':', '(', ')', '/', '-', '_'}
  }

  /** The characters the text normalizer keeps after lower-casing; everything
      else is deleted, which joins its neighbours. */
  function Filter(s: string): (r: string)
    ensures forall i :: 0 <= i < |r| ==> WordChar(r[i]) || SepChar(r[i])
    ensures |r| <= |s|
  {
    if |s| == 0 then ""
    else (if WordChar(s[0]) || SepChar(s[0]) then [s[0]] else []) + Filter(s[1..])
  }

  predicate IsWord(w: string) {
    forall i :: 0 <= i < |w| ==> WordChar(w[i])
  }

  function Flush(cur: string): seq<string> {
    if |cur| == 0 then [] else [cur]
  }

  /** The maximal runs of word characters of `t`, the first extending `cur`:
      the non-empty pieces of splitting on runs of separators. */
  function Runs(t: string, cur: string): seq<string>
    decreases |t|
  {
    if |t| == 0 then Flush(cur)
    else if WordChar(t[0]) then Runs(t[1..], cur + [t[0]])
    else Flush(cur) + Runs(t[1..], "")
  }

  /** `_tokenize(s)`: the whitespace collapsing and stripping of the
      normalizer only touch separators, so the token set is the set of word
      runs of the lower-cased, filtered text. */
  function Tokens(s: string): (r: set<string>) {
    set w | w in Runs(Filter(PyStr.Lower(s)), "")
  }

  lemma {:induction false} RunsAreWords(t: string, cur: string)
    requires IsWord(cur)
    ensures forall w :: w in Runs(t, cur) ==> |w| > 0 && IsWord(w)
    decreases |t|
  {
    if |t| > 0 {
      if WordChar(t[0]) {
        RunsAreWords(t[1..], cur + [t[0]]);
      } else {
        RunsAreWords(t[1..], "");
      }
    }
  }

  /** Every token is a non-empty run of word characters. */
  lemma TokensAreWords(s: string)
    ensures forall w :: w in Tokens(s) ==> |w| > 0 && IsWord(w)
  {
    RunsAreWords(Filter(PyStr.Lower(s)), "");
  }

  lemma {:induction false} RunsOfWord(w: string, cur: string)
    requires IsWord(w)
    requires |cur + w| > 0
    ensures Runs(w, cur) == [cur + w]
    decreases |w|
  {
    if |w| > 0 {
      assert cur + [w[0]] + w[1..] == cur + w;
      RunsOfWord(w[1..], cur + [w[0]]);
    } else {
      assert cur + w == cur;
    }
  }

  lemma {:induction false} FilterKeepsWord(w: string)
    requires IsWord(w)
    ensures Filter(w) == w
    decreases |w|
  {
    if |w| > 0 {
      FilterKeepsWord(w[1..]);
      assert [w[0]] + w[1..] == w;
    }
  }

  /** Re-tokenizing a token yields that token alone. */
  lemma TokenOfToken(w: string)
    requires |w| > 0 && IsWord(w)
    ensures Tokens(w) == {w}
  {
    assert PyStr.Lower(w) == w;
    FilterKeepsWord(w);
    RunsOfWord(w, "");
    assert "" + w == w;
  }

  // ---------------------------------------------------------------- items

  /** `_safe_str`: `None` is the empty string, strings stay, the rest is `str()`. */
  function SafeStr(v: Value): (r: string)
    ensures v.Str? ==> r == v.s
    ensures v.Null? ==> r == ""
  {
    match v
    case Null => ""
    case Str(s) => s
    case _ => ToStr(v)
  }

  /** `_safe_list` */
  function SafeList(v: Value): seq<Value> {
    if v.List? then v.items else []
  }

  const IdKeys: seq<string> := ["id", "key", "code"]

  const TextKeys: seq<string> := ["text", "content", "question", "summary", "statement", "value"]

  /** The text of the first of `keys` the dict holds with a non-blank value. */
  function FirstNonBlank(item: Value, keys: seq<string>): (r: Option<string>)
    decreases |keys|
  {
    if |keys| == 0 then None
    else if Has(item, keys[0]) && !PyStr.IsBlank(SafeStr(Get(item, keys[0]).value)) then
      Some(SafeStr(Get(item, keys[0]).value))
    else FirstNonBlank(item, keys[1..])
  }

  /** The key scan finds a non-blank value of some listed key, and the first
      listed key whose value is non-blank when there is one. */
  lemma {:induction false} FirstNonBlankSpec(item: Value, keys: seq<string>)
    ensures FirstNonBlank(item, keys).Some? ==>
      !PyStr.IsBlank(FirstNonBlank(item, keys).value)
      && exists j :: 0 <= j < |keys| && Has(item, keys[j])
           && FirstNonBlank(item, keys).value == SafeStr(Get(item, keys[j]).value)
    ensures FirstNonBlank(item, keys).None? <==>
      forall j :: 0 <= j < |keys| && Has(item, keys[j]) ==> PyStr.IsBlank(SafeStr(Get(item, keys[j]).value))
    decreases |keys|
  {
    if |keys| > 0 {
      FirstNonBlankSpec(item, keys[1..]);
      var r := FirstNonBlank(item, keys);
      if !(Has(item, keys[0]) && !PyStr.IsBlank(SafeStr(Get(item, keys[0]).value))) {
        if r.Some? {
          var j :| 0 <= j < |keys[1..]| && Has(item, keys[1..][j])
            && r.value == SafeStr(Get(item, keys[1..][j]).value);
          assert keys[1..][j] == keys[j + 1];
        }
        if r.None? {
          forall j | 0 <= j < |keys| && Has(item, keys[j])
            ensures PyStr.IsBlank(SafeStr(Get(item, keys[j]).value))
          {
            if j > 0 {
              assert keys[j] == keys[1..][j - 1];
            }
          }
        }
      }
    }
  }

  /** `_item_id`: the stripped text of the first non-blank `id`, `key` or
      `code`, else `<prefix>_<index>`. */
  function ItemId(item: Value, prefix: string, idx: nat): (r: string)
    ensures |r| > 0
  {
    match FirstNonBlank(item, IdKeys)
    case Some(s) => PyStr.Strip(s)
    case None => prefix + "_" + PyStr.NatToString(idx)
  }

  /** An item with a non-blank string `id` is known by that id, stripped;
      an item without any id field falls back to its position. */
  lemma ItemIdChoice(item: Value, prefix: string, idx: nat)
    ensures Has(item, "id") && Get(item, "id").value.Str? && !PyStr.IsBlank(Get(item, "id").value.s)
      ==> ItemId(item, prefix, idx) == PyStr.Strip(Get(item, "id").value.s)
    ensures !Has(item, "id") && !Has(item, "key") && !Has(item, "code")
      ==> ItemId(item, prefix, idx) == prefix + "_" + PyStr.NatToString(idx)
  {
    if !Has(item, "id") && !Has(item, "key") && !Has(item, "code") {
      FirstNonBlankSpec(item, IdKeys);
    }
  }

  /** The text an item is tokenized from. */
  datatype ItemText = Plain(s: string) | DumpOf(item: Value)

  /** `_item_text`: the first non-blank text-like field as it stands, a dict
      without one is dumped as JSON, any other item is `_safe_str`. */
  function ItemTextOf(item: Value): (r: ItemText)
    ensures r.DumpOf? ==> item.Object? && FirstNonBlank(item, TextKeys).None?
    ensures r.Plain? && item.Object? ==> !PyStr.IsBlank(r.s)
  {
    if item.Object? then
      match FirstNonBlank(item, TextKeys)
      case Some(s) =>
        FirstNonBlankSpec(item, TextKeys);
        Plain(s)
      case None => DumpOf(item)
    else Plain(SafeStr(item))
  }

  function TextOf(t: ItemText): string {
    match t
    case Plain(s) => s
    case DumpOf(item) => Dumps(item)
  }

  /** `_item_type`: the stripped `type` field, else the section's default. */
  function ItemType(item: Value, default: string): (r: string)
    ensures item.Object? && !Has(item, "type") ==> r == default
    ensures |default| > 0 ==> |r| > 0
  {
    if item.Object? then
      var t := PyStr.Strip(SafeStr(GetOr(item, "type", Str(""))));
      if |t| > 0 then t else default
    else default
  }

  function Normalized(v: Value, key: string): string {
    PyStr.Strip(PyStr.Lower(SafeStr(GetOr(v, key, Str("")))))
  }

  predicate IsDqStatus(s: string) {
    s == "open" || s == "partial" || s == "closed"
  }

  type DqState = s: string | IsDqStatus(s) witness "open"

  /** `_dq_status`: `open`, `partial` or `closed`; `done` and `resolved` count
      as closed and anything else, non-dicts included, as open. */
  function DqStatus(item: Value): (r: DqState)
    ensures !item.Object? ==> r == "open"
  {
    if item.Object? then Classify(Normalized(item, "status")) else "open"
  }

  /** The status a normalized status text stands for. */
  function Classify(s: string): (r: DqState)
    ensures IsDqStatus(s) ==> r == s
  {
    if IsDqStatus(s) then s
    else if s == "done" || s == "resolved" then "closed"
    else "open"
  }

  /** Lower-case ASCII letters survive lower-casing and stripping. */
  lemma LowerWordFixed(s: string)
    requires forall i :: 0 <= i < |s| ==> PyStr.IsAsciiLower(s[i])
    ensures PyStr.Strip(PyStr.Lower(s)) == s
  {
    assert PyStr.Lower(s) == s;
    if |s| > 0 {
      PyStr.PrintableNotSpace(s[0]);
      PyStr.PrintableNotSpace(s[|s| - 1]);
    }
    PyStr.StripPlain(s);
  }

  lemma StatusIsLower(s: DqState)
    ensures forall i :: 0 <= i < |s| ==> PyStr.IsAsciiLower(s[i])
  {
  }

  /** A one-field dict holding lower-case letters reads back unchanged. */
  lemma NormalizedSingle(key: string, s: DqState)
    ensures Normalized(Object([(key, Str(s))]), key) == s
  {
    assert GetOr(Object([(key, Str(s))]), key, Str("")) == Str(s);
    StatusIsLower(s);
    LowerWordFixed(s);
  }

  /** A status the classifier produced reads back as itself. */
  lemma DqStatusRoundTrip(item: Value)
    ensures DqStatus(Object([("status", Str(DqStatus(item)))])) == DqStatus(item)
  {
    NormalizedSingle("status", DqStatus(item));
  }

  /** `_dq_strength` in quarters: `strong` 4, `partial` 2, `weak` 1, and 4
      for anything else. */
  function DqStrength(item: Value): (r: nat)
    ensures 1 <= r <= 4
    ensures !item.Object? ==> r == 4
  {
    if item.Object? then
      var cs := Normalized(item, "closure_strength");
      if cs == "strong" then 4
      else if cs == "partial" then 2
      else if cs == "weak" then 1
      else 4
    else 4
  }

  // ---------------------------------------------------------------- index

  datatype Unit = Unit(kind: string, tokens: set<string>)

  datatype CanonicalIndex = CanonicalIndex(units: Dicts.Dict<string, Unit>, dqStatus: Dicts.Dict<string, DqState>)

  /** The indexed sections in the order they are read, each with the type
      its items default to. */
  const Sections: seq<(string, string)> := [
    ("decision_questions", "dq"), ("claims", "claim"), ("assumptions", "assumption"),
    ("constraints", "constraint"), ("risks", "risk"), ("tradeoffs", "tradeoff")
  ]

  function Cid(section: string, id: string): string {
    section + ":" + id
  }

  function UnitOf(item: Value, default: string): Unit {
    Unit(ItemType(item, default), Tokens(TextOf(ItemTextOf(item))))
  }

  /** The `(cid, unit)` assignments one section contributes, in item order. */
  function SectionPairs(norm: Value, section: (string, string)): (r: seq<(string, Unit)>)
    ensures |r| == |SafeList(GetOrNull(norm, section.0))|
  {
    var items := SafeList(GetOrNull(norm, section.0));
    seq(|items|, i requires 0 <= i < |items| => (Cid(section.0, ItemId(items[i], section.1, i)), UnitOf(items[i], section.1)))
  }

  function AllPairs(norm: Value, sections: seq<(string, string)>): seq<(string, Unit)>
    decreases |sections|
  {
    if |sections| == 0 then [] else SectionPairs(norm, sections[0]) + AllPairs(norm, sections[1..])
  }

  function DqItems(norm: Value): seq<Value> {
    SafeList(GetOrNull(norm, "decision_questions"))
  }

  /** The canonical ids of the decision questions, in item order. */
  function DqCids(norm: Value): (r: seq<string>)
    ensures |r| == |DqItems(norm)|
  {
    var items := DqItems(norm);
    seq(|items|, i requires 0 <= i < |items| => Cid("decision_questions", ItemId(items[i], "dq", i)))
  }

  /** The `(cid, status)` assignments of the decision questions, in item order. */
  function StatusPairs(norm: Value): (r: seq<(string, DqState)>)
    ensures |r| == |DqCids(norm)|
    ensures forall i :: 0 <= i < |r| ==> r[i] == (DqCids(norm)[i], DqStatus(DqItems(norm)[i]))
  {
    var items := DqItems(norm);
    var cids := DqCids(norm);
    seq(|items|, i requires 0 <= i < |items| => (cids[i], DqStatus(items[i])))
  }

  /** The `(cid, item)` assignments of the decision questions, in item order. */
  function ItemPairs(norm: Value): (r: seq<(string, Value)>)
    ensures |r| == |DqCids(norm)|
    ensures forall i :: 0 <= i < |r| ==> r[i] == (DqCids(norm)[i], DqItems(norm)[i])
  {
    var items := DqItems(norm);
    var cids := DqCids(norm);
    seq(|items|, i requires 0 <= i < |items| => (cids[i], items[i]))
  }

  lemma PairKeys<V>(pairs: seq<(string, V)>, ids: seq<string>)
    requires |pairs| == |ids|
    requires forall i :: 0 <= i < |pairs| ==> pairs[i].0 == ids[i]
    ensures forall k :: k in Dicts.FromPairs(pairs).keys <==> k in ids
  {
    forall k | k in ids ensures k in Dicts.FromPairs(pairs).keys {
      var i :| 0 <= i < |ids| && ids[i] == k;
      assert pairs[i].0 == k;
    }
  }

  /** `build_index`: every item of every section under `section:id`, a later
      item with the same id replacing the earlier one; the decision questions
      also get their status. */
  function BuildIndex(norm: Value): (r: CanonicalIndex)
    ensures forall k :: k in r.dqStatus.keys <==> k in DqCids(norm)
  {
    PairKeys(StatusPairs(norm), DqCids(norm));
    CanonicalIndex(Dicts.FromPairs(AllPairs(norm, Sections)), Dicts.FromPairs(StatusPairs(norm)))
  }

  /** Every decision question with a status is also a unit. */
  lemma DqKeysAreUnits(norm: Value, k: string)
    requires k in BuildIndex(norm).dqStatus.keys
    ensures k in BuildIndex(norm).units.keys
  {
    var cids := DqCids(norm);
    var i :| 0 <= i < |cids| && cids[i] == k;
    var head := SectionPairs(norm, Sections[0]);
    assert AllPairs(norm, Sections) == head + AllPairs(norm, Sections[1..]);
    assert head[i].0 == k;
    assert (head + AllPairs(norm, Sections[1..]))[i].0 == k;
  }

  /** `curr_dq_item_by_cid`: the last decision question under each id. */
  function ItemByCid(norm: Value): (r: Dicts.Dict<string, Value>)
    ensures forall k :: k in r.keys <==> k in DqCids(norm)
  {
    PairKeys(ItemPairs(norm), DqCids(norm));
    Dicts.FromPairs(ItemPairs(norm))
  }

  /** A decision question's status is the one its last occurrence gives. */
  lemma DqStatusOfLast(norm: Value, i: nat)
    requires i < |DqItems(norm)|
    requires forall j :: i < j < |DqItems(norm)| ==> DqCids(norm)[j] != DqCids(norm)[i]
    ensures Dicts.Get(BuildIndex(norm).dqStatus, DqCids(norm)[i]) == Some(DqStatus(DqItems(norm)[i]))
  {
    var sp := StatusPairs(norm);
    assert forall j :: i < j < |sp| ==> sp[j].0 != sp[i].0;
    Dicts.FromPairsLastWins(sp, i);
    assert sp[i] == (DqCids(norm)[i], DqStatus(DqItems(norm)[i]));
    assert BuildIndex(norm).dqStatus == Dicts.FromPairs(sp);
  }

  /** The strength of a decision question is read from its last occurrence. */
  lemma DqItemOfLast(norm: Value, i: nat)
    requires i < |DqItems(norm)|
    requires forall j :: i < j < |DqItems(norm)| ==> DqCids(norm)[j] != DqCids(norm)[i]
    ensures Dicts.Get(ItemByCid(norm), DqCids(norm)[i]) == Some(DqItems(norm)[i])
  {
    Dicts.FromPairsLastWins(ItemPairs(norm), i);
  }

  /** `_extract_normalized_output`: the wrapped `normalized_output` object
      when there is one, else the payload itself. */
  function ExtractNormalized(payload: Value): (r: Value)
    ensures Has(payload, "normalized_output") && Get(payload, "normalized_output").value.Object?
      ==> r == Get(payload, "normalized_output").value
    ensures !Has(payload, "normalized_output") ==> r == payload
  {
    match Get(payload, "normalized_output")
    case Some(v) => if v.Object? then v else payload
    case None => payload
  }

  // ---------------------------------------------------------------- matching

  /** A dict of units as the `(id, tokens)` list its iteration yields. */
  function TokenList(units: Dicts.Dict<string, Unit>): (r: seq<(string, set<string>)>)
    ensures |r| == |units.keys|
    ensures forall i :: 0 <= i < |r| ==> r[i].0 == units.keys[i]
  {
    seq(|units.keys|, i requires 0 <= i < |units.keys| => (units.keys[i], units.entries[units.keys[i]].tokens))
  }

  /** The scan of `_match_best` from a running best: a strictly higher
      score replaces it, so the first of equal scores wins. */
  function Best(c: set<string>, prev: seq<(string, set<string>)>, id: Option<string>, score: real): (Option<string>, real)
    decreases |prev|
  {
    if |prev| == 0 then (id, score)
    else
      var s := Jaccard(c, prev[0].1);
      if s > score then Best(c, prev[1..], Some(prev[0].0), s) else Best(c, prev[1..], id, score)
  }

  /** `_match_best`: starts from no match at score 0. */
  function MatchBest(c: set<string>, prev: seq<(string, set<string>)>): (Option<string>, real) {
    Best(c, prev, None, 0.0)
  }

  /** The best score dominates the starting score and every candidate's, and
      it is either the starting pair or a candidate's id with its score. */
  lemma {:induction false} BestIsMax(c: set<string>, prev: seq<(string, set<string>)>, id: Option<string>, score: real)
    ensures Best(c, prev, id, score).1 >= score
    ensures forall i :: 0 <= i < |prev| ==> Best(c, prev, id, score).1 >= Jaccard(c, prev[i].1)
    ensures Best(c, prev, id, score) == (id, score)
      || exists i :: 0 <= i < |prev| && Best(c, prev, id, score) == (Some(prev[i].0), Jaccard(c, prev[i].1))
    decreases |prev|
  {
    if |prev| > 0 {
      var s := Jaccard(c, prev[0].1);
      var r := Best(c, prev, id, score);
      if s > score {
        BestIsMax(c, prev[1..], Some(prev[0].0), s);
      } else {
        BestIsMax(c, prev[1..], id, score);
      }
      forall i | 0 < i < |prev| ensures r.1 >= Jaccard(c, prev[i].1) {
        assert prev[i] == prev[1..][i - 1];
      }
      if r != (id, score) && r != (Some(prev[0].0), s) {
        var i :| 0 <= i < |prev[1..]| && r == (Some(prev[1..][i].0), Jaccard(c, prev[1..][i].1));
        assert prev[1..][i] == prev[i + 1];
      }
    }
  }

  /** The loop's test: a unit is new when there is nothing to compare with,
      no candidate scored above 0, or the best score is below the threshold. */
  predicate IsNew(c: set<string>, prev: seq<(string, set<string>)>) {
    |prev| == 0 || MatchBest(c, prev).0.None? || MatchBest(c, prev).1 < SimNewThreshold
  }

  /** A unit is a rephrase exactly when some previous unit is at least
      0.62-similar to it. */
  lemma RephraseIff(c: set<string>, prev: seq<(string, set<string>)>)
    ensures !IsNew(c, prev) <==> exists i :: 0 <= i < |prev| && Jaccard(c, prev[i].1) >= SimNewThreshold
  {
    BestIsMax(c, prev, None, 0.0);
  }

  /** The ids of the current units that are new, in iteration order. */
  function NewIds(curr: seq<(string, set<string>)>, prev: seq<(string, set<string>)>): (r: seq<string>)
    ensures |r| <= |curr|
    decreases |curr|
  {
    if |curr| == 0 then []
    else (if IsNew(curr[0].1, prev) then [curr[0].0] else []) + NewIds(curr[1..], prev)
  }

  /** An id is reported new exactly when some current unit under it is new. */
  lemma {:induction false} NewIdsIff(curr: seq<(string, set<string>)>, prev: seq<(string, set<string>)>, id: string)
    ensures id in NewIds(curr, prev) <==> exists i :: 0 <= i < |curr| && curr[i].0 == id && IsNew(curr[i].1, prev)
    decreases |curr|
  {
    if |curr| > 0 {
      NewIdsIff(curr[1..], prev, id);
      if exists i :: 0 <= i < |curr| && curr[i].0 == id && IsNew(curr[i].1, prev) {
        var i :| 0 <= i < |curr| && curr[i].0 == id && IsNew(curr[i].1, prev);
        if i > 0 {
          assert curr[1..][i - 1] == curr[i];
        }
      }
      if id in NewIds(curr[1..], prev) {
        var i :| 0 <= i < |curr[1..]| && curr[1..][i].0 == id && IsNew(curr[1..][i].1, prev);
        assert curr[i + 1] == curr[1..][i];
      }
    }
  }

  /** With nothing to compare against, every current unit is new. */
  lemma {:induction false} NothingBeforeAllNew(curr: seq<(string, set<string>)>, prev: seq<(string, set<string>)>)
    requires |prev| == 0
    ensures |NewIds(curr, prev)| == |curr|
    ensures forall i :: 0 <= i < |curr| ==> NewIds(curr, prev)[i] == curr[i].0
    decreases |curr|
  {
    if |curr| > 0 {
      NothingBeforeAllNew(curr[1..], prev);
      forall i | 0 < i < |curr| ensures NewIds(curr, prev)[i] == curr[i].0 {
        assert curr[1..][i - 1] == curr[i];
      }
    }
  }

  /** A unit whose exact token set was already there is never new. */
  lemma KnownUnitNotNew(c: set<string>, prev: seq<(string, set<string>)>, i: nat)
    requires i < |prev| && prev[i].1 == c
    ensures !IsNew(c, prev)
  {
    JaccardOneIff(c, c);
    RephraseIff(c, prev);
  }

  // ---------------------------------------------------------------- RSV

  /** What happened to one current decision question since the previous
      snapshot. */
  datatype Change = NewlyClosed(quarters: nat) | NewlyPartial | Unchanged

  /** Closed now and not before earns the item's strength; open before and
      partial now earns half. */
  function Transition(status: string, prevStatus: string, strength: nat): (r: Change)
    ensures r.NewlyClosed? <==> status == "closed" && prevStatus != "closed"
    ensures r.NewlyPartial? <==> status == "partial" && prevStatus == "open"
  {
    if status == "closed" && prevStatus != "closed" then NewlyClosed(strength)
    else if status == "partial" && prevStatus == "open" then NewlyPartial
    else Unchanged
  }

  function Quarters(c: Change): nat {
    match c
    case NewlyClosed(q) => q
    case NewlyPartial => 2
    case Unchanged => 0
  }

  /** One change per current decision question, in iteration order; a
      question missing from the previous snapshot counts as previously open. */
  function Changes(prev: CanonicalIndex, curr: CanonicalIndex, byCid: Dicts.Dict<string, Value>): (r: seq<Change>)
    ensures |r| == |curr.dqStatus.keys|
    ensures forall i :: 0 <= i < |r| && r[i].NewlyClosed? ==> 1 <= r[i].quarters <= 4
  {
    var keys := curr.dqStatus.keys;
    seq(|keys|, i requires 0 <= i < |keys| =>
      Transition(curr.dqStatus.entries[keys[i]], Dicts.Get(prev.dqStatus, keys[i]).GetOr("open"),
        DqStrength(Dicts.Get(byCid, keys[i]).GetOr(Object([])))))
  }

  function SumQuarters(cs: seq<Change>): nat
    decreases |cs|
  {
    if |cs| == 0 then 0 else Quarters(cs[0]) + SumQuarters(cs[1..])
  }

  /** The ids whose change satisfies `closed` (newly closed) or not (newly partial). */
  function IdsWith(keys: seq<string>, cs: seq<Change>, closed: bool): seq<string>
    requires |keys| == |cs|
    decreases |cs|
  {
    if |cs| == 0 then []
    else
      var hit := if closed then cs[0].NewlyClosed? else cs[0].NewlyPartial?;
      (if hit then [keys[0]] else []) + IdsWith(keys[1..], cs[1..], closed)
  }

  /** No RSV is earned exactly when nothing closed or became partial, given
      that every closing earns at least a quarter. */
  lemma {:induction false} NoRsvIff(cs: seq<Change>)
    requires forall i :: 0 <= i < |cs| && cs[i].NewlyClosed? ==> cs[i].quarters >= 1
    ensures SumQuarters(cs) == 0 <==> forall i :: 0 <= i < |cs| ==> cs[i].Unchanged?
    decreases |cs|
  {
    if |cs| > 0 {
      NoRsvIff(cs[1..]);
      if SumQuarters(cs) == 0 {
        forall i | 0 < i < |cs| ensures cs[i].Unchanged? {
          assert cs[i] == cs[1..][i - 1];
        }
      }
    }
  }

  /** Each question earns at most a full point. */
  lemma {:induction false} RsvBound(cs: seq<Change>)
    requires forall i :: 0 <= i < |cs| && cs[i].NewlyClosed? ==> cs[i].quarters <= 4
    ensures SumQuarters(cs) <= 4 * |cs|
    decreases |cs|
  {
    if |cs| > 0 {
      RsvBound(cs[1..]);
    }
  }

  /** A snapshot compared with itself changes nothing. */
  lemma SelfComparisonUnchanged(idx: CanonicalIndex, byCid: Dicts.Dict<string, Value>)
    ensures forall i :: 0 <= i < |Changes(idx, idx, byCid)| ==> Changes(idx, idx, byCid)[i].Unchanged?
  {
    var keys := idx.dqStatus.keys;
    forall i | 0 <= i < |keys| ensures Changes(idx, idx, byCid)[i].Unchanged? {
      assert Dicts.Get(idx.dqStatus, keys[i]) == Some(idx.dqStatus.entries[keys[i]]);
    }
  }

  function CountOf(xs: seq<string>, s: string): nat
    decreases |xs|
  {
    if |xs| == 0 then 0 else (if xs[0] == s then 1 else 0) + CountOf(xs[1..], s)
  }

  /** Open, partial and closed questions together are all the questions. */
  lemma {:induction false} StatusCountsCover(xs: seq<DqState>)
    ensures CountOf(xs, "open") + CountOf(xs, "partial") + CountOf(xs, "closed") == |xs|
    decreases |xs|
  {
    if |xs| > 0 {
      StatusCountsCover(xs[1..]);
    }
  }

  // ---------------------------------------------------------------- estimate

  /** `redundancy`: too few new units, a negligible entropy change and a
      rephrase share at or above the threshold. */
  predicate Redundant(newCount: nat, rephraseCount: nat, currCount: nat, entropyNegligible: bool,
                      threshold: real, minNew: int)
  {
    newCount < minNew && entropyNegligible && RedundancyRatio(rephraseCount, currCount) >= threshold
  }

  /** `redundancy_ratio`: the share of rephrases among at least one unit. */
  function RedundancyRatio(rephraseCount: nat, currCount: nat): (r: real)
    ensures rephraseCount == 0 ==> r == 0.0
    ensures rephraseCount <= currCount ==> 0.0 <= r <= 1.0
  {
    (rephraseCount as real) / ((if currCount < 1 then 1 else currCount) as real)
  }

  /** The integer and list outputs of `estimate`. */
  datatype Estimate = Estimate(
    newUnits: seq<string>,
    rephraseCount: nat,
    dqOpen: nat,
    dqPartial: nat,
    dqClosed: nat,
    newlyClosed: seq<string>,
    newlyPartial: seq<string>,
    deltaRsvQuarters: nat,
    redundancy: bool)

  /** The comparison of two indexed snapshots; `byCid` gives the current
      decision-question items by id and `entropyNegligible` stands for
      `abs(delta_entropy) < epsilon`. */
  function Compare(prev: CanonicalIndex, curr: CanonicalIndex, byCid: Dicts.Dict<string, Value>,
                   entropyNegligible: bool, threshold: real, minNew: int): (r: Estimate)
    ensures r.deltaRsvQuarters <= 4 * |curr.dqStatus.keys|
    ensures r.dqOpen + r.dqPartial + r.dqClosed == |curr.dqStatus.keys|
    ensures |r.newUnits| >= minNew ==> !r.redundancy
    ensures r.rephraseCount + |r.newUnits| == |curr.units.keys|
  {
    var currList := TokenList(curr.units);
    var newIds := NewIds(currList, TokenList(prev.units));
    var rephrases := |currList| - |newIds|;
    var statuses := Dicts.Values(curr.dqStatus);
    var cs := Changes(prev, curr, byCid);
    RsvBound(cs);
    StatusCountsCover(statuses);
    Estimate(newIds, rephrases,
      CountOf(statuses, "open"), CountOf(statuses, "partial"), CountOf(statuses, "closed"),
      IdsWith(curr.dqStatus.keys, cs, true), IdsWith(curr.dqStatus.keys, cs, false),
      SumQuarters(cs),
      Redundant(|newIds|, rephrases, |currList|, entropyNegligible, threshold, minNew))
  }

  /** `estimate(prev_norm, curr_norm, ...)` without the float heuristics. */
  function EstimateOf(prevNorm: Value, currNorm: Value, entropyNegligible: bool, threshold: real, minNew: int): Estimate
  {
    Compare(BuildIndex(prevNorm), BuildIndex(currNorm), ItemByCid(currNorm), entropyNegligible, threshold, minNew)
  }

  /** Against a snapshot with no units every current unit is new, nothing is
      a rephrase, and a positive threshold rules redundancy out. */
  lemma FirstSnapshot(prev: CanonicalIndex, curr: CanonicalIndex, byCid: Dicts.Dict<string, Value>,
                      entropyNegligible: bool, threshold: real, minNew: int)
    requires |prev.units.keys| == 0
    requires threshold > 0.0
    ensures Compare(prev, curr, byCid, entropyNegligible, threshold, minNew).newUnits == curr.units.keys
    ensures Compare(prev, curr, byCid, entropyNegligible, threshold, minNew).rephraseCount == 0
    ensures !Compare(prev, curr, byCid, entropyNegligible, threshold, minNew).redundancy
  {
    var currList := TokenList(curr.units);
    NothingBeforeAllNew(currList, TokenList(prev.units));
  }

  /** Comparing a snapshot with itself earns no RSV. */
  lemma SameSnapshotNoRsv(idx: CanonicalIndex, byCid: Dicts.Dict<string, Value>,
                          entropyNegligible: bool, threshold: real, minNew: int)
    ensures Compare(idx, idx, byCid, entropyNegligible, threshold, minNew).deltaRsvQuarters == 0
  {
    var cs := Changes(idx, idx, byCid);
    SelfComparisonUnchanged(idx, byCid);
    NoRsvIff(cs);
  }

  /** Comparing a snapshot with itself finds every unit a rephrase. */
  lemma SameSnapshotNothingNew(idx: CanonicalIndex, byCid: Dicts.Dict<string, Value>,
                               entropyNegligible: bool, threshold: real, minNew: int)
    ensures Compare(idx, idx, byCid, entropyNegligible, threshold, minNew).newUnits == []
  {
    var list := TokenList(idx.units);
    var r := NewIds(list, list);
    if |r| > 0 {
      NewIdsIff(list, list, r[0]);
      var i :| 0 <= i < |list| && list[i].0 == r[0] && IsNew(list[i].1, list);
      KnownUnitNotNew(list[i].1, list, i);
    }
  }

  /** Some RSV is earned exactly when some question closed or became partial. */
  lemma RsvIffProgress(prev: CanonicalIndex, curr: CanonicalIndex, byCid: Dicts.Dict<string, Value>,
                       entropyNegligible: bool, threshold: real, minNew: int)
    ensures Compare(prev, curr, byCid, entropyNegligible, threshold, minNew).deltaRsvQuarters > 0
      <==> exists i :: 0 <= i < |curr.dqStatus.keys| && !Changes(prev, curr, byCid)[i].Unchanged?
  {
    NoRsvIff(Changes(prev, curr, byCid));
  }
}
