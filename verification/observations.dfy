/** The signal rules of the observability collector: a batch of audit rows
    goes in, callback events come out. Four rules read the batch (failure
    clusters per task, a retry spike, a bottleneck task, a human-deferral
    loop); an empty batch or a batch that trips no rule still yields one
    periodic report, so a run never produces zero events. The rules are
    computed first as `Signal`s, then turned into events by `EmitEvent`. */
module Observations {
  import opened Results
  import PyStr
  import CcDefaults

  /** One audit row as the collector reads it. A NULL text column reads as
      "" and a NULL `transition_repeated` as 0: every rule treats the two
      alike. */
  datatype Row = Row(
    taskName: string,
    status: string,
    notes: string,
    continuationHint: string,
    transitionRepeated: int)

  /** What a rule found; `EmitEvent` turns each into one callback event. */
  datatype Signal =
    | NoRows
    | FailureCluster(task: string, count: nat)
    | RetrySpike(retries: nat, total: nat)
    | Bottleneck(task: string, count: nat, total: nat)
    | DeferralLoop(deferred: nat, total: nat)
    | Summary(total: nat, fails: nat, retries: nat)

  // ---------------------------------------------------------------- parse_bool

  const DeferralTokens: seq<string> := ["1", "true", "yes", "manual", "승인", "검토"]

  /** Some token occurs in `s`. */
  function AnyToken(s: string, tokens: seq<string>): (r: bool)
    ensures r <==> exists i :: 0 <= i < |tokens| && PyStr.Contains(s, tokens[i])
  {
    if tokens == [] then false
    else if PyStr.Contains(s, tokens[0]) then true
    else
      var rest := AnyToken(s, tokens[1..]);
      assert forall i :: 1 <= i < |tokens| ==> tokens[i] == tokens[1..][i - 1];
      rest
  }

  /** `str.lower()` on ASCII letters, one character at a time; it agrees
      with `PyStr.Lower` (see `LoweredIsLower`). */
  function Lowered(s: string): (r: string)
    ensures |r| == |s|
  {
    if s == [] then [] else [PyStr.LowerChar(s[0])] + Lowered(s[1..])
  }

  lemma {:induction false} LoweredIsLower(s: string)
    ensures Lowered(s) == PyStr.Lower(s)
  {
    if s != [] {
      LoweredIsLower(s[1..]);
      assert forall i :: 1 <= i < |s| ==> PyStr.Lower(s)[i] == PyStr.Lower(s[1..])[i - 1];
    }
  }

  /** Text without upper-case ASCII letters lowers to itself. */
  lemma {:induction false} LoweredNoUpper(s: string)
    requires forall i :: 0 <= i < |s| ==> !('A' <= s[i] <= 'Z')
    ensures Lowered(s) == s
  {
    if s != [] {
      assert forall i :: 0 <= i < |s[1..]| ==> s[1..][i] == s[i + 1];
      LoweredNoUpper(s[1..]);
    }
  }

  lemma {:induction false} LoweredConcat(a: string, b: string)
    ensures Lowered(a + b) == Lowered(a) + Lowered(b)
  {
    if a != [] {
      assert (a + b)[0] == a[0];
      assert (a + b)[1..] == a[1..] + b;
      assert Lowered(a + b) == [PyStr.LowerChar(a[0])] + Lowered(a[1..] + b);
      LoweredConcat(a[1..], b);
    } else {
      assert a + b == b;
    }
  }

  /** `parse_bool`: the lower-cased text mentions a deferral token anywhere
      (so "10", "manual review" and "승인 대기" all read as true). */
  function ParseBool(s: string): (r: bool)
  {
    AnyToken(Lowered(s), DeferralTokens)
  }

  /** `parse_bool` holds exactly when some token occurs in `s.lower()`. */
  lemma ParseBoolMeans(s: string)
    ensures ParseBool(s) <==> exists i :: 0 <= i < |DeferralTokens| && PyStr.Contains(PyStr.Lower(s), DeferralTokens[i])
  {
    LoweredIsLower(s);
  }

  lemma {:induction false} LoweredIdempotent(s: string)
    ensures Lowered(Lowered(s)) == Lowered(s)
  {
    if s != [] {
      LoweredIdempotent(s[1..]);
    }
  }

  /** Case does not matter to `parse_bool`. */
  lemma ParseBoolIgnoresCase(s: string)
    ensures ParseBool(PyStr.Lower(s)) == ParseBool(s)
  {
    LoweredIsLower(s);
    LoweredIdempotent(s);
  }

  lemma ContainsBefore(a: string, b: string, needle: string)
    requires PyStr.Contains(a, needle)
    ensures PyStr.Contains(a + b, needle)
  {
    var k := PyStr.ContainsIndex(a, needle);
    assert (a + b)[k..k + |needle|] == a[k..k + |needle|];
    PyStr.ContainsAt(a + b, needle, k);
  }

  /** Text that reads as a deferral still does with anything around it. */
  lemma ParseBoolInContext(a: string, s: string, b: string)
    requires ParseBool(s)
    ensures ParseBool(a + s + b)
  {
    var i :| 0 <= i < |DeferralTokens| && PyStr.Contains(Lowered(s), DeferralTokens[i]);
    LoweredConcat(a, s);
    LoweredConcat(a + s, b);
    PyStr.ContainsAfter(Lowered(a), Lowered(s), DeferralTokens[i]);
    ContainsBefore(Lowered(a) + Lowered(s), Lowered(b), DeferralTokens[i]);
  }

  // ---------------------------------------------------------------- row tests

  /** A failed row: its status, lower-cased, is exactly "fail". */
  predicate Failed(r: Row) {
    Lowered(r.status) == "fail"
  }

  predicate Retried(r: Row) {
    r.transitionRepeated == 1
  }

  predicate Deferred(r: Row) {
    ParseBool(r.notes) || ParseBool(r.continuationHint)
  }

  function NumFailed(rows: seq<Row>): (n: nat)
    ensures n <= |rows|
  {
    if rows == [] then 0 else (if Failed(rows[0]) then 1 else 0) + NumFailed(rows[1..])
  }

  function NumRetried(rows: seq<Row>): (n: nat)
    ensures n <= |rows|
  {
    if rows == [] then 0 else (if Retried(rows[0]) then 1 else 0) + NumRetried(rows[1..])
  }

  function NumDeferred(rows: seq<Row>): (n: nat)
    ensures n <= |rows|
  {
    if rows == [] then 0 else (if Deferred(rows[0]) then 1 else 0) + NumDeferred(rows[1..])
  }

  // ---------------------------------------------------------------- counters

  /** A row that feeds a task counter: it names a task and, for the failure
      counter, it failed. */
  predicate Counted(r: Row, failedOnly: bool) {
    r.taskName != "" && (failedOnly ==> Failed(r))
  }

  /** The task names a `Counter` is fed, in row order. */
  function TaskNames(rows: seq<Row>, failedOnly: bool): (names: seq<string>)
    ensures |names| <= |rows|
  {
    if rows == [] then []
    else (if Counted(rows[0], failedOnly) then [rows[0].taskName] else []) + TaskNames(rows[1..], failedOnly)
  }

  /** How many rows name task `t` (failed rows only, when asked): the
      reference the counters are checked against. */
  function TaskCount(rows: seq<Row>, t: string, failedOnly: bool): (n: nat)
    ensures n <= |rows|
  {
    if rows == [] then 0
    else (if rows[0].taskName == t && (failedOnly ==> Failed(rows[0])) then 1 else 0)
         + TaskCount(rows[1..], t, failedOnly)
  }

  /** The counter holds, for every task, the number of rows naming it. */
  lemma {:induction false} TaskNamesCount(rows: seq<Row>, t: string, failedOnly: bool)
    requires t != ""
    ensures multiset(TaskNames(rows, failedOnly))[t] == TaskCount(rows, t, failedOnly)
  {
    if rows != [] {
      TaskNamesCount(rows[1..], t, failedOnly);
    }
  }

  /** The keys of a `Counter` fed `names`, in first-seen order. */
  function Keys(names: seq<string>): (keys: seq<string>)
    ensures |keys| <= |names|
  {
    if names == [] then []
    else
      var keys := Keys(names[..|names| - 1]);
      var last := names[|names| - 1];
      if last in keys then keys else keys + [last]
  }

  /** The keys are the names, each once. */
  lemma {:induction false} KeysMembers(names: seq<string>)
    ensures forall t :: t in Keys(names) <==> t in names
    ensures forall i, j :: 0 <= i < j < |Keys(names)| ==> Keys(names)[i] != Keys(names)[j]
  {
    if names != [] {
      var init := names[..|names| - 1];
      assert names == init + [names[|names| - 1]];
      KeysMembers(init);
    }
  }

  /** `Counter.most_common(1)`: the key with the highest count, the
      first-seen one among equals; None for an empty counter. */
  function MostCommon(keys: seq<string>, counts: multiset<string>): (r: Option<(string, nat)>)
    ensures r.None? <==> keys == []
  {
    if keys == [] then None
    else
      var rest := MostCommon(keys[1..], counts);
      if rest.None? || counts[keys[0]] >= rest.value.1 then Some((keys[0], counts[keys[0]])) else rest
  }

  /** The chosen key has the highest count, and every key seen before it a
      strictly lower one. */
  lemma {:induction false} MostCommonIsMax(keys: seq<string>, counts: multiset<string>)
    requires keys != []
    ensures MostCommon(keys, counts).value.0 in keys
    ensures MostCommon(keys, counts).value.1 == counts[MostCommon(keys, counts).value.0]
    ensures forall t :: t in keys ==> counts[t] <= MostCommon(keys, counts).value.1
    ensures exists k :: 0 <= k < |keys| && keys[k] == MostCommon(keys, counts).value.0
                        && forall i :: 0 <= i < k ==> counts[keys[i]] < MostCommon(keys, counts).value.1
  {
    var r := MostCommon(keys, counts);
    if |keys| > 1 {
      MostCommonIsMax(keys[1..], counts);
      var rest := MostCommon(keys[1..], counts);
      assert forall t :: t in keys ==> t == keys[0] || t in keys[1..];
      if counts[keys[0]] < rest.value.1 {
        var k :| 0 <= k < |keys[1..]| && keys[1..][k] == rest.value.0
                 && forall i :: 0 <= i < k ==> counts[keys[1..][i]] < rest.value.1;
        assert keys[k + 1] == rest.value.0;
        assert forall i :: 1 <= i < k + 1 ==> keys[i] == keys[1..][i - 1];
      } else {
        assert keys[0] == r.value.0;
      }
    } else {
      assert keys[0] == r.value.0;
    }
  }

  // ---------------------------------------------------------------- rules

  function Max(a: int, b: int): int {
    if a >= b then a else b
  }

  /** The modes under which the bottleneck rule runs. */
  predicate BottleneckMode(mode: string) {
    mode == "scheduled" || mode == "on_demand" || mode == "event"
  }

  /** One failure cluster per failed task seen three or more times, in the
      counter's key order. */
  function Clusters(keys: seq<string>, counts: multiset<string>): (r: seq<Signal>)
    ensures forall s :: s in r ==> s.FailureCluster?
  {
    if keys == [] then []
    else
      var rest := Clusters(keys[1..], counts);
      if counts[keys[0]] >= 3 then [FailureCluster(keys[0], counts[keys[0]])] + rest else rest
  }

  /** A cluster is reported for exactly the keys counted three or more times. */
  lemma {:induction false} ClustersMembers(keys: seq<string>, counts: multiset<string>, s: Signal)
    ensures s in Clusters(keys, counts) <==>
              s.FailureCluster? && s.task in keys && s.count == counts[s.task] && s.count >= 3
  {
    if keys != [] {
      ClustersMembers(keys[1..], counts, s);
      assert forall t :: t in keys <==> t == keys[0] || t in keys[1..];
    }
  }

  function FailureSignals(rows: seq<Row>): (r: seq<Signal>)
    ensures forall s :: s in r ==> s.FailureCluster?
  {
    var names := TaskNames(rows, true);
    Clusters(Keys(names), multiset(names))
  }

  /** A retry spike: at least a fifth of the rows were repeats
      (`len(retry_rows) / len(rows) >= 0.2`, over the integers). */
  function RetrySignal(rows: seq<Row>): (r: seq<Signal>)
    ensures |r| <= 1 && forall s :: s in r ==> s.RetrySpike?
  {
    var k := NumRetried(rows);
    if 5 * k >= |rows| then [RetrySpike(k, |rows|)] else []
  }

  /** The bottleneck rule of the guarded collector: only when some row names
      a task, and when the top task reaches `max(2, int(len(rows) * 0.6))`. */
  function BottleneckSignal(rows: seq<Row>, mode: string): (r: seq<Signal>)
    ensures |r| <= 1 && forall s :: s in r ==> s.Bottleneck?
  {
    if !BottleneckMode(mode) then []
    else
      var names := TaskNames(rows, false);
      match MostCommon(Keys(names), multiset(names))
      case None => []
      case Some(top) =>
        if top.1 >= Max(2, 3 * |rows| / 5) then [Bottleneck(top.0, top.1, |rows|)] else []
  }

  /** A human-deferral loop: at least `max(1, int(len(rows) * 0.4))` rows
      carry a deferral token in their notes or continuation hint. */
  function DeferralSignal(rows: seq<Row>): (r: seq<Signal>)
    ensures |r| <= 1 && forall s :: s in r ==> s.DeferralLoop?
  {
    var d := NumDeferred(rows);
    if d >= Max(1, 2 * |rows| / 5) then [DeferralLoop(d, |rows|)] else []
  }

  /** `build_events` of the guarded collector, as signals in emission order:
      an empty batch gives only `NoRows`; otherwise the rule findings, or a
      `Summary` alone when no rule fired. */
  function Signals(rows: seq<Row>, mode: string): (r: seq<Signal>)
    ensures |r| >= 1
    ensures rows == [] ==> r == [NoRows]
    ensures rows != [] ==> forall s :: s in r ==> !s.NoRows?
  {
    if rows == [] then [NoRows]
    else
      var found := Found(rows, mode);
      if found == [] then [Summary(|rows|, NumFailed(rows), NumRetried(rows))] else found
  }

  /** The findings of the four rules, in the order the source checks them. */
  function Found(rows: seq<Row>, mode: string): (r: seq<Signal>)
    ensures forall s :: s in r ==> !s.NoRows? && !s.Summary?
  {
    FailureSignals(rows) + RetrySignal(rows) + BottleneckSignal(rows, mode) + DeferralSignal(rows)
  }

  /** Where a rule's signal comes from: a non-empty batch and that rule. */
  lemma SignalsFrom(rows: seq<Row>, mode: string, s: Signal)
    requires !s.Summary? && !s.NoRows?
    ensures s in Signals(rows, mode) <==>
              rows != [] && (s in FailureSignals(rows) || s in RetrySignal(rows)
                             || s in BottleneckSignal(rows, mode) || s in DeferralSignal(rows))
  {
    var found := Found(rows, mode);
    if rows != [] && found == [] {
      assert s !in FailureSignals(rows) && s !in RetrySignal(rows);
      assert s !in BottleneckSignal(rows, mode) && s !in DeferralSignal(rows);
    }
  }

  // ---------------------------------------------------------------- as written

  /** The bottleneck rule of the older collector: it tests `rows` rather than
      the counter before taking `most_common(1)[0]`, so a batch in which no
      row names a task raises IndexError. */
  function BottleneckAsWritten(rows: seq<Row>, mode: string): (r: Result<seq<Signal>>)
    requires rows != []
  {
    if !BottleneckMode(mode) then Ok([])
    else
      var names := TaskNames(rows, false);
      match MostCommon(Keys(names), multiset(names))
      case None => Err("IndexError: list index out of range")
      case Some(top) =>
        Ok(if top.1 >= Max(2, 3 * |rows| / 5) then [Bottleneck(top.0, top.1, |rows|)] else [])
  }

  function SignalsAsWritten(rows: seq<Row>, mode: string): (r: Result<seq<Signal>>)
  {
    if rows == [] then Ok([NoRows])
    else
      match BottleneckAsWritten(rows, mode)
      case Err(e) => Err(e)
      case Ok(bottleneck) =>
        var found := FailureSignals(rows) + RetrySignal(rows) + bottleneck + DeferralSignal(rows);
        Ok(if found == [] then [Summary(|rows|, NumFailed(rows), NumRetried(rows))] else found)
  }

  /** The older collector fails exactly on a non-empty batch under a
      bottleneck mode in which no row names a task, and otherwise agrees
      with the guarded one. */
  lemma SignalsAsWrittenCrashes(rows: seq<Row>, mode: string)
    ensures SignalsAsWritten(rows, mode).Err? <==>
              rows != [] && BottleneckMode(mode) && forall i :: 0 <= i < |rows| ==> rows[i].taskName == ""
    ensures SignalsAsWritten(rows, mode).Ok? ==> SignalsAsWritten(rows, mode).value == Signals(rows, mode)
  {
    if rows != [] && BottleneckMode(mode) {
      var names := TaskNames(rows, false);
      if names == [] {
        forall i | 0 <= i < |rows| ensures rows[i].taskName == "" {
          if rows[i].taskName != "" {
            TaskNamesPresent(rows, i, false);
          }
        }
      } else {
        assert names[0] in names;
        assert Keys(names) != [];
        NamedRowWitness(rows, false);
      }
    }
  }

  /** A scheduled run over one row without a task name: the older collector
      raises where the guarded one reports a summary. */
  lemma UnnamedScheduledBatchCrashes()
    ensures SignalsAsWritten([Row("", "ok", "", "", 0)], "scheduled").Err?
    ensures Signals([Row("", "ok", "", "", 0)], "scheduled") == [Summary(1, 0, 0)]
  {
    var rows := [Row("", "ok", "", "", 0)];
    SignalsAsWrittenCrashes(rows, "scheduled");
    assert TaskNames(rows, false) == [];
    assert !Failed(rows[0]) by {
      assert Lowered("ok")[0] == 'o';
    }
    assert !Deferred(rows[0]) by {
      NoTokenInEmpty();
    }
  }

  lemma NoTokenInEmpty()
    ensures !ParseBool("")
  {
    forall i | 0 <= i < |DeferralTokens| ensures !PyStr.Contains("", DeferralTokens[i]) {
      assert |DeferralTokens[i]| > 0;
    }
  }

  // ---------------------------------------------------------------- counter facts

  /** A row that feeds the counter puts its task name in it. */
  lemma {:induction false} TaskNamesPresent(rows: seq<Row>, i: nat, failedOnly: bool)
    requires i < |rows| && Counted(rows[i], failedOnly)
    ensures rows[i].taskName in TaskNames(rows, failedOnly)
  {
    if i > 0 {
      TaskNamesPresent(rows[1..], i - 1, failedOnly);
    }
  }

  /** A non-empty counter was fed by some row. */
  lemma {:induction false} NamedRowWitness(rows: seq<Row>, failedOnly: bool)
    requires TaskNames(rows, failedOnly) != []
    ensures exists i :: 0 <= i < |rows| && Counted(rows[i], failedOnly)
  {
    if !Counted(rows[0], failedOnly) {
      NamedRowWitness(rows[1..], failedOnly);
      var i :| 0 <= i < |rows[1..]| && Counted(rows[1..][i], failedOnly);
      assert rows[i + 1] == rows[1..][i];
    }
  }

  /** A task is in the counter exactly when some counted row names it. */
  lemma TaskNamesMember(rows: seq<Row>, t: string, failedOnly: bool)
    ensures t in TaskNames(rows, failedOnly) <==> t != "" && TaskCount(rows, t, failedOnly) > 0
  {
    if t != "" {
      TaskNamesCount(rows, t, failedOnly);
    }
  }

  // ---------------------------------------------------------------- rule lemmas

  /** The failure rule reports exactly the tasks named by three or more
      failed rows, each with its count. */
  lemma FailureSignalsMembers(rows: seq<Row>, s: Signal)
    ensures s in FailureSignals(rows) <==>
              s.FailureCluster? && s.task != "" && s.count == TaskCount(rows, s.task, true) && s.count >= 3
  {
    var names := TaskNames(rows, true);
    ClustersMembers(Keys(names), multiset(names), s);
    KeysMembers(names);
    if s.FailureCluster? {
      TaskNamesMember(rows, s.task, true);
      if s.task != "" {
        TaskNamesCount(rows, s.task, true);
      }
    }
  }

  /** A failure cluster for task `t` with count `c` is reported exactly when
      `t` names three or more failed rows and `c` is their number. */
  lemma FailureClusterReported(rows: seq<Row>, mode: string, t: string, c: nat)
    ensures FailureCluster(t, c) in Signals(rows, mode) <==>
              t != "" && c == TaskCount(rows, t, true) && c >= 3
  {
    var s := FailureCluster(t, c);
    FailureSignalsMembers(rows, s);
    if rows == [] {
      assert TaskCount(rows, t, true) == 0;
    } else {
      SignalsFrom(rows, mode, s);
    }
  }

  /** A retry spike is reported exactly when at least a fifth of a non-empty
      batch are repeats, carrying the repeat count and the batch size. */
  lemma RetrySpikeReported(rows: seq<Row>, mode: string, k: nat, n: nat)
    ensures RetrySpike(k, n) in Signals(rows, mode) <==>
              rows != [] && k == NumRetried(rows) && n == |rows| && 5 * k >= n
  {
    if rows != [] {
      SignalsFrom(rows, mode, RetrySpike(k, n));
    }
  }

  /** A human-deferral loop is reported exactly when at least
      `max(1, int(len(rows) * 0.4))` rows of a non-empty batch defer. */
  lemma DeferralReported(rows: seq<Row>, mode: string, d: nat, n: nat)
    ensures DeferralLoop(d, n) in Signals(rows, mode) <==>
              rows != [] && d == NumDeferred(rows) && n == |rows| && d >= Max(1, 2 * n / 5)
  {
    if rows != [] {
      SignalsFrom(rows, mode, DeferralLoop(d, n));
    }
  }

  /** Some task of the batch is named by at least `max(2, int(len(rows) * 0.6))`
      rows. */
  ghost predicate Dominated(rows: seq<Row>) {
    exists t :: t != "" && TaskCount(rows, t, false) >= Max(2, 3 * |rows| / 5)
  }

  /** The bottleneck rule fires under a bottleneck mode exactly when some
      task dominates the batch. */
  lemma BottleneckSignalMeans(rows: seq<Row>, mode: string)
    ensures BottleneckSignal(rows, mode) != [] <==> BottleneckMode(mode) && Dominated(rows)
  {
    var names := TaskNames(rows, false);
    var keys := Keys(names);
    KeysMembers(names);
    if keys == [] {
      forall t | t != "" ensures TaskCount(rows, t, false) == 0 {
        TaskNamesMember(rows, t, false);
      }
    } else {
      MostCommonIsMax(keys, multiset(names));
      var top := MostCommon(keys, multiset(names)).value;
      TaskNamesMember(rows, top.0, false);
      TaskNamesCount(rows, top.0, false);
      if Dominated(rows) {
        var t :| t != "" && TaskCount(rows, t, false) >= Max(2, 3 * |rows| / 5);
        TopTaskCount(rows, t);
      }
    }
  }

  /** No task is named by more rows than the counter's most common one. */
  lemma TopTaskCount(rows: seq<Row>, u: string)
    requires u != "" && TaskNames(rows, false) != []
    ensures TaskCount(rows, u, false) <= MostCommon(Keys(TaskNames(rows, false)), multiset(TaskNames(rows, false))).value.1
  {
    var names := TaskNames(rows, false);
    KeysMembers(names);
    assert names[0] in Keys(names);
    MostCommonIsMax(Keys(names), multiset(names));
    TaskNamesCount(rows, u, false);
    TaskNamesMember(rows, u, false);
  }

  /** The bottleneck the rule names is a task with the highest row count. */
  lemma BottleneckSignalTop(rows: seq<Row>, mode: string, s: Signal)
    requires s in BottleneckSignal(rows, mode)
    ensures s.Bottleneck? && s.task != "" && s.total == |rows|
    ensures s.count == TaskCount(rows, s.task, false)
    ensures forall u :: u != "" ==> TaskCount(rows, u, false) <= s.count
  {
    var names := TaskNames(rows, false);
    KeysMembers(names);
    MostCommonIsMax(Keys(names), multiset(names));
    TaskNamesMember(rows, s.task, false);
    TaskNamesCount(rows, s.task, false);
    forall u | u != "" ensures TaskCount(rows, u, false) <= s.count {
      TopTaskCount(rows, u);
    }
  }

  /** A bottleneck is reported exactly under a bottleneck mode when one task
      dominates a non-empty batch. */
  lemma BottleneckReported(rows: seq<Row>, mode: string)
    ensures (exists s :: s in Signals(rows, mode) && s.Bottleneck?) <==>
              rows != [] && BottleneckMode(mode) && Dominated(rows)
  {
    BottleneckSignalMeans(rows, mode);
    if BottleneckSignal(rows, mode) != [] {
      SignalsFrom(rows, mode, BottleneckSignal(rows, mode)[0]);
    }
    forall s | s in Signals(rows, mode) && s.Bottleneck? ensures rows != [] && s in BottleneckSignal(rows, mode) {
      SignalsFrom(rows, mode, s);
    }
  }

  /** The reported bottleneck is a task with the highest row count. */
  lemma BottleneckIsTopTask(rows: seq<Row>, mode: string, s: Signal)
    requires s in Signals(rows, mode) && s.Bottleneck?
    ensures s.task != ""
    ensures s.count == TaskCount(rows, s.task, false)
    ensures s.total == |rows|
  {
    SignalsFrom(rows, mode, s);
    BottleneckSignalTop(rows, mode, s);
  }

  /** No task is named by more rows than the reported bottleneck. */
  lemma BottleneckIsMax(rows: seq<Row>, mode: string, s: Signal, u: string)
    requires s in Signals(rows, mode) && s.Bottleneck? && u != ""
    ensures TaskCount(rows, u, false) <= s.count
  {
    SignalsFrom(rows, mode, s);
    BottleneckSignalTop(rows, mode, s);
  }

  /** No task is named by three failed rows. */
  ghost predicate NoCluster(rows: seq<Row>) {
    forall t :: t != "" ==> TaskCount(rows, t, true) < 3
  }

  /** No rule fires on the batch. */
  ghost predicate Quiet(rows: seq<Row>, mode: string) {
    NoCluster(rows)
    && 5 * NumRetried(rows) < |rows|
    && !(BottleneckMode(mode) && Dominated(rows))
    && NumDeferred(rows) < Max(1, 2 * |rows| / 5)
  }

  /** The failure rule finds nothing exactly when no task has three failed
      rows. */
  lemma FailureSignalsEmpty(rows: seq<Row>)
    ensures FailureSignals(rows) == [] <==> NoCluster(rows)
  {
    if FailureSignals(rows) != [] {
      FailureSignalsMembers(rows, FailureSignals(rows)[0]);
    }
    forall t | t != "" && TaskCount(rows, t, true) >= 3 ensures FailureSignals(rows) != [] {
      FailureSignalsMembers(rows, FailureCluster(t, TaskCount(rows, t, true)));
    }
  }

  /** A non-empty batch gets the summary report, and only it, exactly when no
      rule fires. */
  lemma SummaryWhenQuiet(rows: seq<Row>, mode: string)
    requires rows != []
    ensures Signals(rows, mode)[0].Summary? <==> Quiet(rows, mode)
    ensures Signals(rows, mode)[0].Summary? ==>
              Signals(rows, mode) == [Summary(|rows|, NumFailed(rows), NumRetried(rows))]
  {
    var found := Found(rows, mode);
    assert Signals(rows, mode)[0].Summary? <==> found == [];
    FailureSignalsEmpty(rows);
    BottleneckSignalMeans(rows, mode);
    assert found == [] <==> FailureSignals(rows) == [] && RetrySignal(rows) == []
                            && BottleneckSignal(rows, mode) == [] && DeferralSignal(rows) == [];
  }

  // ---------------------------------------------------------------- events

  datatype Severity = Info | Warning | Critical

  datatype EventType = PeriodicReport | AnomalyDetected | HitlRequest

  datatype RetryPolicy = RetryPolicy(maxRetries: nat, backoffSeconds: nat, onRetry: string)

  /** A callback event: its type, checkpoint id, severity, the skills it is
      addressed to, its retry policy and its correlation (run id, artifact). */
  datatype Event = Event(
    eventType: EventType,
    checkpointId: string,
    severity: Severity,
    targetSkills: seq<string>,
    retryPolicy: RetryPolicy,
    runId: string,
    artifactUri: string)

  const Governance := "mso-skill-governance"

  /** The checkpoint id is a three-letter prefix, the day stamp, and a suffix
      naming the rule. */
  function CheckpointPrefix(s: Signal): (p: string)
    ensures |p| == 3
  {
    match s
    case FailureCluster(_, _) => "AS-"
    case RetrySpike(_, _) => "AS-"
    case Bottleneck(_, _, _) => "AS-"
    case _ => "HC-"
  }

  function CheckpointSuffix(s: Signal): string {
    match s
    case NoRows => ""
    case FailureCluster(task, _) => "-" + task
    case RetrySpike(_, _) => "-retry"
    case Bottleneck(_, _, _) => "-bottleneck"
    case DeferralLoop(_, _) => "-manual"
    case Summary(_, _, _) => "-summary"
  }

  function CheckpointId(s: Signal, stamp: string): string {
    CheckpointPrefix(s) + stamp + CheckpointSuffix(s)
  }

  /** `emit_event` as each rule calls it (the message text and the wall-clock
      timestamp are not modelled). */
  function EmitEvent(s: Signal, stamp: string, runId: string, artifact: string): (e: Event)
    ensures e.checkpointId == CheckpointId(s, stamp)
    ensures e.runId == runId && e.artifactUri == artifact
    ensures e.severity == Info <==> s.NoRows? || s.Summary?
    ensures e.severity == Critical <==> s.DeferralLoop? || (s.RetrySpike? && 2 * s.retries >= s.total)
    ensures e.eventType == HitlRequest <==> s.DeferralLoop?
    ensures e.eventType == PeriodicReport <==> e.retryPolicy.maxRetries == 0
    ensures |e.targetSkills| == 2 && e.targetSkills[0] != e.targetSkills[1]
  {
    var id := CheckpointId(s, stamp);
    match s
    case NoRows =>
      Event(PeriodicReport, id, Info, [CcDefaults.AuditLog, Governance], RetryPolicy(0, 0, "drop"), runId, artifact)
    case FailureCluster(_, _) =>
      Event(AnomalyDetected, id, Warning, [CcDefaults.ExecutionDesign, CcDefaults.TaskContext],
            RetryPolicy(2, 10, "queue"), runId, artifact)
    case RetrySpike(k, n) =>
      Event(AnomalyDetected, id, if 2 * k < n then Warning else Critical,
            [CcDefaults.ExecutionDesign, CcDefaults.AgentCollaboration], RetryPolicy(3, 15, "queue"), runId, artifact)
    case Bottleneck(_, _, _) =>
      Event(AnomalyDetected, id, Warning, [CcDefaults.TopologyDesign, CcDefaults.ExecutionDesign],
            RetryPolicy(1, 10, "queue"), runId, artifact)
    case DeferralLoop(_, _) =>
      Event(HitlRequest, id, Critical, [Governance, CcDefaults.AgentCollaboration],
            RetryPolicy(5, 20, "queue"), runId, artifact)
    case Summary(_, _, _) =>
      Event(PeriodicReport, id, Info, [CcDefaults.AuditLog, Governance], RetryPolicy(0, 0, "drop"), runId, artifact)
  }

  function EmitAll(signals: seq<Signal>, stamp: string, runId: string, artifact: string): (r: seq<Event>)
    ensures |r| == |signals|
    ensures forall i :: 0 <= i < |r| ==> r[i] == EmitEvent(signals[i], stamp, runId, artifact)
  {
    seq(|signals|, i requires 0 <= i < |signals| => EmitEvent(signals[i], stamp, runId, artifact))
  }

  /** `build_events` of the guarded collector; `stamp` is the UTC day
      (`%Y%m%d`) the source reads from the clock. */
  function BuildEvents(rows: seq<Row>, runId: string, artifact: string, mode: string, stamp: string): (r: seq<Event>)
    ensures |r| >= 1
    ensures rows == [] ==> |r| == 1 && r[0].eventType == PeriodicReport && r[0].severity == Info
    ensures forall i :: 0 <= i < |r| ==> r[i].runId == runId && r[i].artifactUri == artifact
  {
    EmitAll(Signals(rows, mode), stamp, runId, artifact)
  }

  /** `build_events` of the older collector, which may raise. */
  function BuildEventsAsWritten(rows: seq<Row>, runId: string, artifact: string, mode: string, stamp: string): (r: Result<seq<Event>>)
    ensures r.Ok? ==> r.value == BuildEvents(rows, runId, artifact, mode, stamp)
  {
    var signals :- SignalsAsWritten(rows, mode);
    SignalsAsWrittenCrashes(rows, mode);
    Ok(EmitAll(signals, stamp, runId, artifact))
  }

  // ---------------------------------------------------------------- event lemmas

  /** A batch raises a critical event exactly when at least half of it are
      repeats or it shows a human-deferral loop. */
  lemma CriticalEvents(rows: seq<Row>, runId: string, artifact: string, mode: string, stamp: string)
    ensures (exists i :: 0 <= i < |BuildEvents(rows, runId, artifact, mode, stamp)|
                         && BuildEvents(rows, runId, artifact, mode, stamp)[i].severity == Critical)
            <==> rows != [] && (2 * NumRetried(rows) >= |rows| || NumDeferred(rows) >= Max(1, 2 * |rows| / 5))
  {
    var signals := Signals(rows, mode);
    var events := BuildEvents(rows, runId, artifact, mode, stamp);
    var k, d, n := NumRetried(rows), NumDeferred(rows), |rows|;
    RetrySpikeReported(rows, mode, k, n);
    DeferralReported(rows, mode, d, n);
    if rows != [] && 2 * k >= n {
      var i :| 0 <= i < |signals| && signals[i] == RetrySpike(k, n);
      assert events[i].severity == Critical;
    } else if rows != [] && d >= Max(1, 2 * n / 5) {
      var i :| 0 <= i < |signals| && signals[i] == DeferralLoop(d, n);
      assert events[i].severity == Critical;
    }
    forall i | 0 <= i < |events| && events[i].severity == Critical
      ensures rows != [] && (2 * k >= n || d >= Max(1, 2 * n / 5))
    {
      var s := signals[i];
      assert s in signals;
      if s.RetrySpike? {
        RetrySpikeReported(rows, mode, s.retries, s.total);
      } else {
        DeferralReported(rows, mode, s.deferred, s.total);
      }
    }
  }

  /** Which rule a signal comes from. */
  function Kind(s: Signal): nat {
    match s
    case NoRows => 0
    case FailureCluster(_, _) => 1
    case RetrySpike(_, _) => 2
    case Bottleneck(_, _, _) => 3
    case DeferralLoop(_, _) => 4
    case Summary(_, _, _) => 5
  }

  /** Two signals apart enough to get different checkpoint ids: clusters for
      different tasks, a cluster for a task not named "retry" or "bottleneck"
      and another rule, or two different rules. */
  predicate Apart(s1: Signal, s2: Signal) {
    if s1.FailureCluster? && s2.FailureCluster? then s1.task != s2.task
    else if s1.FailureCluster? then s1.task != "retry" && s1.task != "bottleneck"
    else if s2.FailureCluster? then s2.task != "retry" && s2.task != "bottleneck"
    else Kind(s1) != Kind(s2)
  }

  lemma ApartParts(s1: Signal, s2: Signal)
    requires Apart(s1, s2)
    ensures CheckpointPrefix(s1) != CheckpointPrefix(s2) || CheckpointSuffix(s1) != CheckpointSuffix(s2)
  {
    var x, y := CheckpointSuffix(s1), CheckpointSuffix(s2);
    if s1.FailureCluster? {
      assert x[1..] == s1.task;
    }
    if s2.FailureCluster? {
      assert y[1..] == s2.task;
    }
  }

  /** Signals that are apart get different checkpoint ids under any stamp. */
  lemma IdsDiffer(s1: Signal, s2: Signal, stamp: string)
    requires Apart(s1, s2)
    ensures CheckpointId(s1, stamp) != CheckpointId(s2, stamp)
  {
    ApartParts(s1, s2);
    var a, b := CheckpointId(s1, stamp), CheckpointId(s2, stamp);
    assert a[..3] == CheckpointPrefix(s1);
    assert b[..3] == CheckpointPrefix(s2);
    assert a[3 + |stamp|..] == CheckpointSuffix(s1);
    assert b[3 + |stamp|..] == CheckpointSuffix(s2);
  }

  /** Three repeated failures of a task named "retry" yield a failure
      cluster and a retry spike under one checkpoint id. */
  lemma RetryTaskSharesId(row: Row, stamp: string)
    requires row == Row("retry", "fail", "", "", 1)
    ensures FailureCluster("retry", 3) in Signals([row, row, row], "batch")
    ensures RetrySpike(3, 3) in Signals([row, row, row], "batch")
    ensures CheckpointId(FailureCluster("retry", 3), stamp) == CheckpointId(RetrySpike(3, 3), stamp)
  {
    var rows := [row, row, row];
    assert Failed(row) by {
      LoweredNoUpper("fail");
    }
    assert rows[1..] == [row, row] && rows[1..][1..] == [row] && [row][1..] == [];
    assert TaskCount([row], "retry", true) == 1;
    assert TaskCount([row, row], "retry", true) == 2;
    assert TaskCount(rows, "retry", true) == 3;
    assert NumRetried([row]) == 1;
    assert NumRetried([row, row]) == 2;
    assert NumRetried(rows) == 3;
    FailureClusterReported(rows, "batch", "retry", 3);
    RetrySpikeReported(rows, "batch", 3, 3);
    RetryIdClash(stamp);
  }

  lemma RetryIdClash(stamp: string)
    ensures CheckpointId(FailureCluster("retry", 3), stamp) == CheckpointId(RetrySpike(3, 3), stamp)
  {
  }

  /** The checkpoint ids of a list of signals are pairwise different. */
  ghost predicate DistinctIds(ss: seq<Signal>, stamp: string) {
    forall i, j :: 0 <= i < j < |ss| ==> CheckpointId(ss[i], stamp) != CheckpointId(ss[j], stamp)
  }

  lemma AppendDistinct(a: seq<Signal>, b: seq<Signal>, stamp: string)
    requires DistinctIds(a, stamp) && DistinctIds(b, stamp)
    requires forall x, y :: x in a && y in b ==> CheckpointId(x, stamp) != CheckpointId(y, stamp)
    ensures DistinctIds(a + b, stamp)
  {
    forall i, j | 0 <= i < j < |a + b| ensures CheckpointId((a + b)[i], stamp) != CheckpointId((a + b)[j], stamp) {
      if j < |a| {
        assert (a + b)[i] == a[i] && (a + b)[j] == a[j];
      } else if i >= |a| {
        assert (a + b)[i] == b[i - |a|] && (a + b)[j] == b[j - |a|];
      } else {
        assert (a + b)[i] in a && (a + b)[j] in b;
      }
    }
  }

  /** Clusters over distinct keys name distinct tasks, so their ids differ. */
  lemma {:induction false} ClustersDistinct(keys: seq<string>, counts: multiset<string>, stamp: string)
    requires forall i, j :: 0 <= i < j < |keys| ==> keys[i] != keys[j]
    ensures DistinctIds(Clusters(keys, counts), stamp)
  {
    if keys != [] {
      var rest := Clusters(keys[1..], counts);
      assert forall i, j :: 0 <= i < j < |keys[1..]| ==> keys[1..][i] == keys[i + 1] && keys[1..][j] == keys[j + 1];
      ClustersDistinct(keys[1..], counts, stamp);
      if counts[keys[0]] >= 3 {
        var head := FailureCluster(keys[0], counts[keys[0]]);
        forall y | y in rest ensures CheckpointId(head, stamp) != CheckpointId(y, stamp) {
          ClustersMembers(keys[1..], counts, y);
          var j :| 0 <= j < |keys[1..]| && keys[1..][j] == y.task;
          assert keys[j + 1] == y.task;
          IdsDiffer(head, y, stamp);
        }
        assert DistinctIds([head], stamp);
        AppendDistinct([head], rest, stamp);
      }
    }
  }

  /** A reported cluster is apart from every other rule's signal as long as no
      task named "retry" or "bottleneck" fails three times. */
  lemma ClusterApart(rows: seq<Row>, x: Signal, y: Signal)
    requires TaskCount(rows, "retry", true) < 3 && TaskCount(rows, "bottleneck", true) < 3
    requires x in FailureSignals(rows) && !y.FailureCluster?
    ensures Apart(x, y)
  {
    FailureSignalsMembers(rows, x);
  }

  /** Every event of a run carries its own checkpoint id, unless a task
      literally named "retry" or "bottleneck" fails three times. */
  lemma SignalIdsDistinct(rows: seq<Row>, mode: string, stamp: string)
    requires TaskCount(rows, "retry", true) < 3 && TaskCount(rows, "bottleneck", true) < 3
    ensures DistinctIds(Signals(rows, mode), stamp)
  {
    if rows != [] && Found(rows, mode) != [] {
      var f, r, b, d := FailureSignals(rows), RetrySignal(rows), BottleneckSignal(rows, mode), DeferralSignal(rows);
      var names := TaskNames(rows, true);
      KeysMembers(names);
      ClustersDistinct(Keys(names), multiset(names), stamp);
      assert DistinctIds(r, stamp) && DistinctIds(b, stamp) && DistinctIds(d, stamp);
      forall x, y | x in f && y in r ensures CheckpointId(x, stamp) != CheckpointId(y, stamp) {
        ClusterApart(rows, x, y);
        IdsDiffer(x, y, stamp);
      }
      AppendDistinct(f, r, stamp);
      forall x, y | x in f + r && y in b ensures CheckpointId(x, stamp) != CheckpointId(y, stamp) {
        if x in f {
          ClusterApart(rows, x, y);
        }
        IdsDiffer(x, y, stamp);
      }
      AppendDistinct(f + r, b, stamp);
      forall x, y | x in f + r + b && y in d ensures CheckpointId(x, stamp) != CheckpointId(y, stamp) {
        if x in f {
          ClusterApart(rows, x, y);
        }
        IdsDiffer(x, y, stamp);
      }
      AppendDistinct(f + r + b, d, stamp);
    }
  }

  /** The events of a run have pairwise different checkpoint ids, unless a
      task literally named "retry" or "bottleneck" fails three times. */
  lemma CheckpointIdsDistinct(rows: seq<Row>, runId: string, artifact: string, mode: string, stamp: string,
                              i: nat, j: nat)
    requires TaskCount(rows, "retry", true) < 3 && TaskCount(rows, "bottleneck", true) < 3
    requires i < j < |BuildEvents(rows, runId, artifact, mode, stamp)|
    ensures BuildEvents(rows, runId, artifact, mode, stamp)[i].checkpointId
            != BuildEvents(rows, runId, artifact, mode, stamp)[j].checkpointId
  {
    SignalIdsDistinct(rows, mode, stamp);
  }
}
