/** Two helpers of the runtime workspace that work on plain dicts: filling a
    settings dict from its defaults without overwriting anything, and recording
    that a peer skill is missing according to the configured policy. */
module WorkspaceSettings {
  import opened Results
  import opened Json
  import PyStr

  type Fields = seq<(string, Value)>

  // ------------------------------------------------------------------ deep merge

  /** `_deep_merge_missing(target, defaults)`: every key of `defaults` that
      `target` lacks is added at the end with the default's value, and where
      both sides hold a dict the merge goes on inside it. `parent` is a value
      holding every default, so the recursion into a nested dict descends. */
  function MergeMissing(target: Fields, defaults: Fields, parent: Value): (r: Fields)
    requires forall i :: 0 <= i < |defaults| ==> defaults[i].1 < parent
    ensures forall k :: HasField(r, k) <==> HasField(target, k) || HasField(defaults, k)
    ensures forall k :: HasField(target, k) && !Lookup(target, k).value.Object? ==>
      Lookup(r, k) == Lookup(target, k)
    ensures forall k :: HasField(target, k) && Lookup(target, k).value.Object? ==>
      Lookup(r, k).value.Object?
    decreases parent, |defaults|
  {
    if |defaults| == 0 then target
    else
      var k := defaults[0].0;
      var v := defaults[0].1;
      var t1 := MergeOne(target, k, v, parent);
      HasFieldTail(defaults, k);
      MergeStepKeys(defaults, k);
      MergeMissing(t1, defaults[1..], parent)
  }

  /** One key of the defaults merged into the target. */
  function MergeOne(target: Fields, k: string, v: Value, parent: Value): (r: Fields)
    requires v < parent
    ensures forall j :: HasField(r, j) <==> HasField(target, j) || j == k
    ensures !HasField(target, k) ==> r == target + [(k, v)]
    ensures forall j :: j != k ==> Lookup(r, j) == Lookup(target, j)
    ensures forall j :: HasField(target, j) && !Lookup(target, j).value.Object? ==>
      Lookup(r, j) == Lookup(target, j)
    ensures forall j :: HasField(target, j) && Lookup(target, j).value.Object? ==>
      Lookup(r, j).value.Object?
    decreases parent, 0
  {
    if !HasField(target, k) then
      LookupAppend(target, k, v);
      AppendKeys(target, k, v);
      target + [(k, v)]
    else
      match (Lookup(target, k).value, v)
      case (Object(tf), Object(df)) =>
        var merged := MergeMissing(tf, df, v);
        SetFieldKeys(target, k, Object(merged));
        SetField(target, k, Object(merged))
      case _ => target
  }

  /** The keys after appending a field. */
  lemma AppendKeys(fields: Fields, k: string, v: Value)
    ensures forall j :: HasField(fields + [(k, v)], j) <==> HasField(fields, j) || j == k
  {
    forall j | HasField(fields, j) ensures HasField(fields + [(k, v)], j) {
      var i :| 0 <= i < |fields| && fields[i].0 == j;
      assert (fields + [(k, v)])[i].0 == j;
    }
    assert (fields + [(k, v)])[|fields|].0 == k;
  }

  /** Setting a key the fields already hold keeps the set of keys. */
  lemma SetFieldKeys(fields: Fields, k: string, v: Value)
    requires HasField(fields, k)
    ensures forall j :: HasField(SetField(fields, k, v), j) <==> HasField(fields, j)
  {
    var r := SetField(fields, k, v);
    forall j ensures HasField(r, j) <==> HasField(fields, j) {
      assert Lookup(r, j).Some? <==> HasField(r, j);
      assert Lookup(fields, j).Some? <==> HasField(fields, j);
    }
  }

  /** The keys of the defaults are the first one's and the rest's. */
  lemma MergeStepKeys(defaults: Fields, k: string)
    requires |defaults| > 0 && defaults[0].0 == k
    ensures forall j :: HasField(defaults, j) <==> j == k || HasField(defaults[1..], j)
  {
    forall j ensures HasField(defaults, j) <==> j == k || HasField(defaults[1..], j) {
      HasFieldTail(defaults, j);
    }
  }

  function DeepMergeMissing(target: Fields, defaults: Fields): (r: Fields)
    ensures forall k :: HasField(r, k) <==> HasField(target, k) || HasField(defaults, k)
    ensures forall k :: HasField(target, k) && !Lookup(target, k).value.Object? ==>
      Lookup(r, k) == Lookup(target, k)
    ensures forall k :: HasField(target, k) && Lookup(target, k).value.Object? ==>
      Lookup(r, k).value.Object?
  {
    MergeMissing(target, defaults, Object(defaults))
  }

  /** The merge touches only the keys of the defaults. */
  lemma {:induction false} MergeKeepsOthers(target: Fields, defaults: Fields, parent: Value, k: string)
    requires forall i :: 0 <= i < |defaults| ==> defaults[i].1 < parent
    requires !HasField(defaults, k)
    ensures Lookup(MergeMissing(target, defaults, parent), k) == Lookup(target, k)
    decreases |defaults|
  {
    if |defaults| > 0 {
      var t1 := MergeOne(target, defaults[0].0, defaults[0].1, parent);
      HasFieldTail(defaults, k);
      MergeKeepsOthers(t1, defaults[1..], parent, k);
    }
  }

  /** With distinct keys in the defaults, a key the target lacks ends up
      with the default's value. */
  lemma {:induction false} MergeAddsMissing(target: Fields, defaults: Fields, parent: Value, k: string)
    requires forall i :: 0 <= i < |defaults| ==> defaults[i].1 < parent
    requires DistinctKeys(Keys(defaults))
    requires !HasField(target, k) && HasField(defaults, k)
    ensures Lookup(MergeMissing(target, defaults, parent), k) == Lookup(defaults, k)
    decreases |defaults|
  {
    var k0 := defaults[0].0;
    var t1 := MergeOne(target, k0, defaults[0].1, parent);
    if k0 == k {
      LookupAppend(target, k, defaults[0].1);
      FirstKeyNotInRest(defaults);
      MergeKeepsOthers(t1, defaults[1..], parent, k);
    } else {
      HasFieldTail(defaults, k);
      assert DistinctKeys(Keys(defaults[1..])) by {
        assert Keys(defaults[1..]) == Keys(defaults)[1..];
      }
      MergeAddsMissing(t1, defaults[1..], parent, k);
    }
  }

  /** With distinct keys, the first key does not come back. */
  lemma FirstKeyNotInRest(defaults: Fields)
    requires |defaults| > 0 && DistinctKeys(Keys(defaults))
    ensures !HasField(defaults[1..], defaults[0].0)
  {
    forall i | 0 <= i < |defaults[1..]| ensures defaults[1..][i].0 != defaults[0].0 {
      assert Keys(defaults)[0] != Keys(defaults)[i + 1];
    }
  }

  /** The keys of some fields, in order. */
  function Keys(fields: Fields): (ks: seq<string>)
    ensures |ks| == |fields| && forall i :: 0 <= i < |fields| ==> ks[i] == fields[i].0
  {
    seq(|fields|, i requires 0 <= i < |fields| => fields[i].0)
  }

  /** Defaults with distinct keys, none of them in the target, are appended
      as they are; in particular merging into `{}` copies the defaults. */
  lemma {:induction false} MergeDisjoint(target: Fields, defaults: Fields, parent: Value)
    requires forall i :: 0 <= i < |defaults| ==> defaults[i].1 < parent
    requires DistinctKeys(Keys(defaults))
    requires forall i :: 0 <= i < |defaults| ==> !HasField(target, defaults[i].0)
    ensures MergeMissing(target, defaults, parent) == target + defaults
    decreases |defaults|
  {
    if |defaults| > 0 {
      var t1 := target + [defaults[0]];
      forall i | 0 <= i < |defaults[1..]| ensures !HasField(t1, defaults[1..][i].0) {
        assert Keys(defaults)[0] != Keys(defaults)[i + 1];
        AppendKeys(target, defaults[0].0, defaults[0].1);
      }
      assert DistinctKeys(Keys(defaults[1..])) by {
        assert Keys(defaults[1..]) == Keys(defaults)[1..];
      }
      MergeDisjoint(t1, defaults[1..], parent);
      assert t1 + defaults[1..] == target + defaults;
    }
  }

  lemma MergeIntoEmpty(defaults: Fields)
    requires DistinctKeys(Keys(defaults))
    ensures DeepMergeMissing([], defaults) == defaults
  {
    MergeDisjoint([], defaults, Object(defaults));
  }

  /** Nothing is overwritten: when the target already holds every key of the
      defaults, none of them a dict, the merge leaves it as it was. */
  lemma {:induction false} MergeKeepsFlat(target: Fields, defaults: Fields, parent: Value)
    requires forall i :: 0 <= i < |defaults| ==> defaults[i].1 < parent
    requires forall i :: 0 <= i < |defaults| ==>
      HasField(target, defaults[i].0) && !Lookup(target, defaults[i].0).value.Object?
    ensures MergeMissing(target, defaults, parent) == target
    decreases |defaults|
  {
    if |defaults| > 0 {
      MergeKeepsFlat(target, defaults[1..], parent);
    }
  }

  /** `_deep_merge_missing` on the top-level dicts. */
  lemma DeepMergeAddsMissing(target: Fields, defaults: Fields, k: string)
    requires DistinctKeys(Keys(defaults))
    requires !HasField(target, k) && HasField(defaults, k)
    ensures Lookup(DeepMergeMissing(target, defaults), k) == Lookup(defaults, k)
  {
    MergeAddsMissing(target, defaults, Object(defaults), k);
  }

  // ------------------------------------------------------------------ missing peer policy

  const PeerPolicies: set<string> := {"warn", "warn_and_continue", "block", "silent"}
  const DefaultPeerPolicy := "warn_and_continue"
  /** The policies under which a missing peer asks for manual input. */
  const ManualInputPolicies: set<string> := {"warn", "warn_and_continue", "block"}

  /** `_normalize_on_peer_missing_policy`: the configured value as stripped
      lower-case text when that names a policy; `None` and anything else give
      the default. */
  function NormalizePeerPolicy(value: Value): (r: string)
    ensures r in PeerPolicies
    ensures value == Null ==> r == DefaultPeerPolicy
    ensures value != Null && PyStr.Lower(PyStr.Strip(ToStr(value))) in PeerPolicies ==>
      r == PyStr.Lower(PyStr.Strip(ToStr(value)))
    ensures value != Null && PyStr.Lower(PyStr.Strip(ToStr(value))) !in PeerPolicies ==>
      r == DefaultPeerPolicy
  {
    var normalized := if value == Null then DefaultPeerPolicy else PyStr.Lower(PyStr.Strip(ToStr(value)));
    if normalized in PeerPolicies then normalized else DefaultPeerPolicy
  }

  /** Lower-case text without surrounding blanks is its own stripped lower
      form. */
  lemma PlainLowerFixed(s: string)
    requires PlainName(s)
    ensures PyStr.Lower(PyStr.Strip(s)) == s
  {
    if |s| > 0 {
      PyStr.StripPlain(s);
    }
  }

  /** The characters of a policy name: lower-case letters and `_`. */
  predicate PlainName(s: string) {
    forall i :: 0 <= i < |s| ==> 'a' <= s[i] <= 'z' || s[i] == '_'
  }

  lemma PolicyNamesPlain(r: string)
    requires r in PeerPolicies
    ensures PlainName(r)
  {
  }

  /** A policy name written as a string normalises to itself. */
  lemma PolicyNormalizesToItself(r: string)
    requires r in PeerPolicies && PlainName(r)
    ensures NormalizePeerPolicy(Str(r)) == r
  {
    PlainLowerFixed(r);
  }

  /** Normalising is idempotent. */
  lemma NormalizePeerPolicyIdempotent(value: Value)
    ensures NormalizePeerPolicy(Str(NormalizePeerPolicy(value))) == NormalizePeerPolicy(value)
  {
    var r := NormalizePeerPolicy(value);
    PolicyNamesPlain(r);
    PolicyNormalizesToItself(r);
  }

  /** A warning or blocking policy asks for manual input. */
  predicate AsksManualInput(mode: string) {
    mode == "warn" || mode == "warn_and_continue" || mode == "block"
  }

  /** The outcome of `_append_peer_missing_event`. */
  datatype PeerMissing = PeerMissing(events: seq<Fields>, blocked: bool)

  /** The event `_append_peer_missing_event` records under the normalised
      policy `mode`: a copy of `base` recording the policy, asking for manual
      input under a warning or blocking policy unless `base` already says
      otherwise, and marked as blocked under `block`. */
  function PeerMissingEvent(base: Fields, mode: string): (e: Fields)
    ensures Lookup(e, "on_peer_missing_policy") == Some(Str(mode))
    ensures AsksManualInput(mode) ==>
      Lookup(e, "requires_manual_input") == Some(Lookup(base, "requires_manual_input").GetOr(Bool(true)))
    ensures !AsksManualInput(mode) ==> Lookup(e, "requires_manual_input") == Lookup(base, "requires_manual_input")
    ensures mode == "block" ==> Lookup(e, "blocked_by_policy") == Some(Bool(true))
    ensures mode != "block" ==> Lookup(e, "blocked_by_policy") == Lookup(base, "blocked_by_policy")
    ensures forall k :: k != "on_peer_missing_policy" && k != "requires_manual_input" && k != "blocked_by_policy" ==>
      Lookup(e, k) == Lookup(base, k)
  {
    var b1 := SetField(base, "on_peer_missing_policy", Str(mode));
    var b2 := if AsksManualInput(mode) then SetDefaultField(b1, "requires_manual_input", Bool(true)) else b1;
    if mode == "block" then SetField(b2, "blocked_by_policy", Bool(true)) else b2
  }

  /** `_append_peer_missing_event`: the event for the configured policy is
      appended after the existing ones, and the call blocks exactly under
      `block`. */
  function AppendPeerMissingEvent(events: seq<Fields>, base: Fields, policy: Fields): (r: PeerMissing)
    ensures |r.events| == |events| + 1 && r.events[..|events|] == events
    ensures r.events[|events|] ==
      PeerMissingEvent(base, NormalizePeerPolicy(Lookup(policy, "on_peer_missing").GetOr(Null)))
    ensures r.blocked <==> NormalizePeerPolicy(Lookup(policy, "on_peer_missing").GetOr(Null)) == "block"
  {
    var mode := NormalizePeerPolicy(Lookup(policy, "on_peer_missing").GetOr(Null));
    PeerMissing(events + [PeerMissingEvent(base, mode)], mode == "block")
  }

  /** Without a configured policy a missing peer warns, asks for manual
      input and does not block. */
  lemma UnconfiguredPeerWarns(events: seq<Fields>, base: Fields, policy: Fields)
    requires !HasField(policy, "on_peer_missing")
    ensures !AppendPeerMissingEvent(events, base, policy).blocked
    ensures Lookup(AppendPeerMissingEvent(events, base, policy).events[|events|], "on_peer_missing_policy")
      == Some(Str(DefaultPeerPolicy))
    ensures !HasField(base, "requires_manual_input") ==>
      Lookup(AppendPeerMissingEvent(events, base, policy).events[|events|], "requires_manual_input")
        == Some(Bool(true))
  {
  }
}
