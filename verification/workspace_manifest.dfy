/** The run manifest of the shared runtime workspace (`manifest.json` under a
    run root): how it is created or repaired, how a phase status moves the run
    status, and how a run is finalised. The manifest dict is a record of its
    known keys, each absent or present; keys it does not know are carried along
    untouched. The stored file is an input (the empty manifest when it is
    missing or unreadable) and the clock's ISO timestamp is a parameter. */
module WorkspaceManifest {
  import opened Results
  import opened Json
  import RunIdentity
  import opened WorkspacePhases

  type Fields = seq<(string, Value)>

  /** One key of the manifest dict: absent, or present with a value. */
  datatype Slot = Absent | Present(v: Value) {
    /** `d.setdefault(key, x)` */
    function Default(x: Value): (r: Slot)
      ensures r.Present? && (Present? ==> r == this)
    {
      if Absent? then Present(x) else this
    }

    function ToOption(): Option<Value> {
      if Present? then Some(v) else None
    }

    /** `d.get(key, x)` */
    function Or(x: Value): Value {
      if Present? then v else x
    }
  }

  datatype Manifest = Manifest(
    runId: Slot, skillKey: Slot, status: Slot, createdAt: Slot, updatedAt: Slot, completedAt: Slot,
    phases: Slot, observerLinks: Slot, parentRunId: Slot, tags: Slot, error: Slot, archivePath: Slot,
    others: Fields)

  /** `{}`: what loading gives for a missing, empty or unreadable file. */
  const NoManifest := Manifest(Absent, Absent, Absent, Absent, Absent, Absent, Absent, Absent, Absent,
                               Absent, Absent, Absent, [])

  /** The keys the ensure step always writes are all present. */
  predicate Ensured(m: Manifest) {
    m.runId.Present? && m.skillKey.Present? && m.status.Present? && m.createdAt.Present? &&
    m.updatedAt.Present? && m.completedAt.Present? && m.phases.Present? && m.observerLinks.Present? &&
    m.parentRunId.Present? && m.tags.Present? && m.error.Present?
  }

  // ------------------------------------------------------------------ phases

  /** `{"status": "pending"}` */
  const PendingSlot: Value := Object([("status", Str("pending"))])

  /** `_phase_status_template()`: every phase directory pending. */
  function PhaseTemplate(): (r: Fields)
    ensures |r| == |PhaseDirs| && forall i :: 0 <= i < |PhaseDirs| ==> r[i] == (PhaseDirs[i], PendingSlot)
  {
    seq(|PhaseDirs|, i requires 0 <= i < |PhaseDirs| => (PhaseDirs[i], PendingSlot))
  }

  /** The fields of a dict value, or none. */
  function FieldsOf(v: Option<Value>): Fields {
    if v.Some? && v.value.Object? then v.value.fields else []
  }

  /** What a repaired phase entry holds: the stored dict (or a fresh one) with
      a status, `pending` when it had none. */
  function RepairedSlot(stored: Option<Value>): (r: Value)
    ensures r.Object? && Lookup(r.fields, "status") == Some(Lookup(FieldsOf(stored), "status").GetOr(Str("pending")))
    ensures forall k :: k != "status" ==> Lookup(r.fields, k) == Lookup(FieldsOf(stored), k)
  {
    Object(SetDefaultField(FieldsOf(stored), "status", Str("pending")))
  }

  /** A repaired entry is repaired already. */
  lemma RepairedSlotStable(stored: Option<Value>)
    ensures RepairedSlot(Some(RepairedSlot(stored))) == RepairedSlot(stored)
  {
  }

  /** The phase loop of the existing-manifest branch over the directories
      `dirs`: each gets its repaired entry, everything else is left alone. */
  function RepairPhases(phases: Fields, dirs: seq<string>): (r: Fields)
    requires forall i, j :: 0 <= i < j < |dirs| ==> dirs[i] != dirs[j]
    ensures forall i :: 0 <= i < |dirs| ==> Lookup(r, dirs[i]) == Some(RepairedSlot(Lookup(phases, dirs[i])))
    ensures forall k :: k !in dirs ==> Lookup(r, k) == Lookup(phases, k)
    decreases |dirs|
  {
    if |dirs| == 0 then phases
    else
      var init := dirs[..|dirs| - 1];
      var d := dirs[|dirs| - 1];
      assert dirs == init + [d];
      var prev := RepairPhases(phases, init);
      SetField(prev, d, RepairedSlot(Lookup(prev, d)))
  }

  // ------------------------------------------------------------------ ensure

  /** What the run's paths and settings contribute: its id, the skill key of
      its paths, the skill-key overrides of the settings and the observation
      run root. */
  datatype RunPaths = RunPaths(runId: string, skillKey: string, skillKeyMap: seq<(string, string)>, observerLink: string)

  function OptStr(s: Option<string>): Value {
    if s.Some? then Str(s.value) else Null
  }

  /** The skill key an ensure call normalises: the argument unless it is
      missing or empty, else the one of the paths. */
  function ChosenSkillKey(p: RunPaths, skillKey: Option<string>): string {
    if skillKey.Some? && |skillKey.value| > 0 then skillKey.value else p.skillKey
  }

  /** The observer links with the run's link appended when missing. */
  function WithLink(stored: Slot, link: string): (r: seq<Value>)
    ensures Str(link) in r
    ensures stored.Present? && stored.v.List? ==> stored.v.items <= r
    ensures stored.Present? && stored.v.List? && Str(link) in stored.v.items ==> r == stored.v.items
  {
    var links := if stored.Present? && stored.v.List? then stored.v.items else [];
    if Str(link) in links then links else links + [Str(link)]
  }

  /** A present key keeps its value. */
  predicate Keeps(before: Slot, after: Slot) {
    before.Present? ==> after == before
  }

  /** Every phase directory has an entry, a dict with a status. */
  predicate PhasesComplete(phases: Slot) {
    phases.Present? && phases.v.Object? &&
    forall i :: 0 <= i < |PhaseDirs| ==> PhaseEntryHasStatus(Lookup(phases.v.fields, PhaseDirs[i]))
  }

  predicate PhaseEntryHasStatus(entry: Option<Value>) {
    entry.Some? && entry.value.Object? && HasField(entry.value.fields, "status")
  }

  /** In the template every phase is pending. */
  lemma TemplateLookup(i: nat)
    requires i < |PhaseDirs|
    ensures Lookup(PhaseTemplate(), PhaseDirs[i]) == Some(PendingSlot)
  {
    PhaseDirsDistinct();
    LookupFirst(PhaseTemplate(), i, PhaseDirs[i]);
  }

  /** The manifest of a run that has none yet. */
  function FreshManifest(p: RunPaths, key: string, tags: seq<string>, parentRunId: Option<string>, now: string): (r: Manifest)
    ensures Ensured(r) && PhasesComplete(r.phases)
    ensures r.runId == Present(Str(p.runId)) && r.skillKey == Present(Str(key))
    ensures r.status == Present(Str("created")) && r.completedAt == Present(Null) && r.error == Present(Null)
    ensures r.createdAt == r.updatedAt == Present(Str(now))
    ensures r.observerLinks == Present(List([Str(p.observerLink)]))
  {
    forall i | 0 <= i < |PhaseDirs|
      ensures PhaseEntryHasStatus(Lookup(PhaseTemplate(), PhaseDirs[i]))
    {
      TemplateLookup(i);
      assert HasField(PendingSlot.fields, "status") by {
        assert PendingSlot.fields[0].0 == "status";
      }
    }
    Manifest(Present(Str(p.runId)), Present(Str(key)), Present(Str("created")), Present(Str(now)),
             Present(Str(now)), Present(Null), Present(Object(PhaseTemplate())),
             Present(List([Str(p.observerLink)])), Present(OptStr(parentRunId)), Present(StrList(tags)),
             Present(Null), Absent, [])
  }

  /** The phase entries of an existing manifest after the repair loop. */
  function RepairedPhases(phases: Fields): (r: Fields)
    ensures PhasesComplete(Present(Object(r)))
    ensures forall i :: 0 <= i < |PhaseDirs| ==> Lookup(r, PhaseDirs[i]) == Some(RepairedSlot(Lookup(phases, PhaseDirs[i])))
  {
    PhaseDirsDistinct();
    var r := RepairPhases(phases, PhaseDirs);
    forall i | 0 <= i < |PhaseDirs| ensures PhaseEntryHasStatus(Lookup(r, PhaseDirs[i])) {
      RepairedHasStatus(Lookup(phases, PhaseDirs[i]));
    }
    r
  }

  lemma RepairedHasStatus(stored: Option<Value>)
    ensures PhaseEntryHasStatus(Some(RepairedSlot(stored)))
  {
  }

  /** The existing-manifest branch: defaults for the missing keys, a new
      `updated_at`, repaired phases and the observer link. */
  function RepairManifest(stored: Manifest, p: RunPaths, key: string, tags: seq<string>, parentRunId: Option<string>,
                          now: string): (r: Manifest)
    ensures Ensured(r) && PhasesComplete(r.phases) && r.updatedAt == Present(Str(now))
    ensures r.observerLinks.v.List? && Str(p.observerLink) in r.observerLinks.v.items
    ensures Keeps(stored.runId, r.runId) && Keeps(stored.skillKey, r.skillKey) &&
      Keeps(stored.status, r.status) && Keeps(stored.createdAt, r.createdAt) &&
      Keeps(stored.completedAt, r.completedAt) && Keeps(stored.parentRunId, r.parentRunId) &&
      Keeps(stored.tags, r.tags) && Keeps(stored.error, r.error)
    ensures r.archivePath == stored.archivePath && r.others == stored.others
  {
    var phases := RepairedPhases(FieldsOf(stored.phases.ToOption()));
    var links := WithLink(stored.observerLinks, p.observerLink);
    Manifest(stored.runId.Default(Str(p.runId)), stored.skillKey.Default(Str(key)),
             stored.status.Default(Str("created")), stored.createdAt.Default(Str(now)), Present(Str(now)),
             stored.completedAt.Default(Null), Present(Object(phases)), Present(List(links)),
             stored.parentRunId.Default(OptStr(parentRunId)), stored.tags.Default(StrList(tags)),
             stored.error.Default(Null), stored.archivePath, stored.others)
  }

  /** The ensure step once the skill key is normalised. */
  function EnsureWithKey(stored: Manifest, p: RunPaths, key: string, tags: seq<string>, parentRunId: Option<string>,
                         now: string): (r: Manifest)
    ensures Ensured(r) && PhasesComplete(r.phases) && r.updatedAt == Present(Str(now))
    ensures r.observerLinks.v.List? && Str(p.observerLink) in r.observerLinks.v.items
    ensures stored == NoManifest ==>
      (r.status == Present(Str("created")) && r.completedAt == Present(Null) &&
       r.error == Present(Null) && r.runId == Present(Str(p.runId)) && r.skillKey == Present(Str(key)))
    ensures stored != NoManifest ==>
      (Keeps(stored.runId, r.runId) && Keeps(stored.skillKey, r.skillKey) &&
       Keeps(stored.status, r.status) && Keeps(stored.createdAt, r.createdAt) &&
       Keeps(stored.completedAt, r.completedAt) && Keeps(stored.parentRunId, r.parentRunId) &&
       Keeps(stored.tags, r.tags) && Keeps(stored.error, r.error) &&
       r.archivePath == stored.archivePath && r.others == stored.others)
  {
    if stored == NoManifest then FreshManifest(p, key, tags, parentRunId, now)
    else RepairManifest(stored, p, key, tags, parentRunId, now)
  }

  /** `ensure_run_scaffold_and_manifest`, the manifest part. The skill key is
      normalised strictly with the settings' overrides on both branches, so an
      invalid key fails even when the manifest already holds one. */
  function EnsureManifest(stored: Manifest, p: RunPaths, skillKey: Option<string>, tags: Option<seq<string>>,
                          parentRunId: Option<string>, now: string): (r: Result<Manifest>)
    ensures r.Err? <==> RunIdentity.NormalizeSkillKey(ChosenSkillKey(p, skillKey), p.skillKeyMap, true).Err?
    ensures r.Ok? ==> r.value == EnsureWithKey(stored, p, RunIdentity.NormalizeSkillKey(ChosenSkillKey(p, skillKey),
      p.skillKeyMap, true).value, if tags.Some? then tags.value else [], parentRunId, now)
  {
    var key :- RunIdentity.NormalizeSkillKey(ChosenSkillKey(p, skillKey), p.skillKeyMap, true);
    Ok(EnsureWithKey(stored, p, key, if tags.Some? then tags.value else [], parentRunId, now))
  }

  // ------------------------------------------------------------------ phase updates

  const TerminalRunStatuses: set<string> := {"completed", "failed", "archived"}
  const ActivatingPhaseStatuses: set<string> := {"active", "completed", "skipped", "pending"}

  /** `str(manifest.get("status", "created"))` */
  function RunStatusText(m: Manifest): string {
    ToStr(m.status.Or(Str("created")))
  }

  /** The phase entry of `dir` is a dict whose status is `status`. */
  predicate PhaseStatusIs(phases: Slot, dir: string, status: string) {
    phases.Present? && phases.v.Object? && Lookup(phases.v.fields, dir).Some? &&
    Lookup(phases.v.fields, dir).value.Object? &&
    Lookup(Lookup(phases.v.fields, dir).value.fields, "status") == Some(Str(status))
  }

  /** Stores the phase's new status in its entry. */
  function SetPhaseStatus(m: Manifest, dir: string, status: string): (r: Manifest)
    ensures PhaseStatusIs(r.phases, dir, status)
    ensures forall k :: k != dir ==> Lookup(r.phases.v.fields, k) == Lookup(FieldsOf(m.phases.ToOption()), k)
    ensures r == m.(phases := r.phases)
  {
    var phases := FieldsOf(m.phases.ToOption());
    var entry := FieldsOf(Lookup(phases, dir));
    m.(phases := Present(Object(SetField(phases, dir, Object(SetField(entry, "status", Str(status)))))))
  }

  /** The run-level step of `update_manifest_phase` as the source writes it,
      once the phase has resolved to `dir`: a failed phase calls `setdefault`
      on `completed_at`, which the ensure step has always stored already. */
  function PhaseUpdateAsWritten(m: Manifest, dir: string, status: string, now: string): (r: Manifest)
    ensures m.completedAt.Present? ==> r.completedAt == m.completedAt
    ensures r.updatedAt == Present(Str(now))
  {
    var m1 := SetPhaseStatus(m, dir, status);
    var m2 :=
      if RunStatusText(m1) in TerminalRunStatuses then m1
      else if status == "failed" then m1.(status := Present(Str("failed")), completedAt := m1.completedAt.Default(Str(now)))
      else if status in ActivatingPhaseStatuses then m1.(status := Present(Str("active")))
      else m1;
    m2.(updatedAt := Present(Str(now)))
  }

  /** `update_manifest_phase` after the ensure step, as the source writes it. */
  function UpdateManifestPhaseAsWritten(m: Manifest, phase: string, status: string, now: string): (r: Result<Manifest>)
    ensures r.Err? <==> ResolvePhase(phase).Err?
    ensures r.Ok? ==> r.value == PhaseUpdateAsWritten(m, ResolvePhase(phase).value, status, now)
  {
    var dir :- ResolvePhase(phase);
    Ok(PhaseUpdateAsWritten(m, dir, status, now))
  }

  /** The completion time a failing or completing run keeps: a stored truthy
      one, else now (`manifest.get("completed_at") or now`). */
  function CompletedAt(m: Manifest, now: string): (r: Value)
    ensures m.completedAt.Present? && Truthy(m.completedAt.v) ==> r == m.completedAt.v
    ensures !(m.completedAt.Present? && Truthy(m.completedAt.v)) ==> r == Str(now)
  {
    if m.completedAt.Present? && Truthy(m.completedAt.v) then m.completedAt.v else Str(now)
  }

  /** The run-level step of `update_manifest_phase`, with a failed phase
      recording the completion time the way `finalize_manifest` does: the
      phase entry takes the new status, a terminal run keeps its status and
      completion time, a failed phase fails the run, an activating one makes
      it active, and nothing else of the manifest changes. */
  function PhaseUpdate(m: Manifest, dir: string, status: string, now: string): (r: Manifest)
    ensures r.updatedAt == Present(Str(now))
    ensures PhaseStatusIs(r.phases, dir, status)
    ensures RunStatusText(m) in TerminalRunStatuses ==>
      r.status == m.status && r.completedAt == m.completedAt
    ensures RunStatusText(m) !in TerminalRunStatuses && status == "failed" ==>
      r.status == Present(Str("failed")) && r.completedAt == Present(CompletedAt(m, now))
    ensures RunStatusText(m) !in TerminalRunStatuses && status in ActivatingPhaseStatuses ==>
      r.status == Present(Str("active")) && r.completedAt == m.completedAt
    ensures status != "failed" && status !in ActivatingPhaseStatuses ==>
      r.status == m.status && r.completedAt == m.completedAt
    ensures r.(phases := m.phases, status := m.status, completedAt := m.completedAt,
               updatedAt := m.updatedAt) == m
  {
    var m1 := SetPhaseStatus(m, dir, status);
    var m2 :=
      if RunStatusText(m1) in TerminalRunStatuses then m1
      else if status == "failed" then m1.(status := Present(Str("failed")), completedAt := Present(CompletedAt(m1, now)))
      else if status in ActivatingPhaseStatuses then m1.(status := Present(Str("active")))
      else m1;
    m2.(updatedAt := Present(Str(now)))
  }

  /** `update_manifest_phase` after the ensure step: an unknown phase is an
      error, a known one updates its directory's entry. */
  function UpdateManifestPhase(m: Manifest, phase: string, status: string, now: string): (r: Result<Manifest>)
    ensures r.Err? <==> ResolvePhase(phase).Err?
    ensures r.Ok? ==> ResolvePhase(phase).value in PhaseDirs
    ensures r.Ok? ==> r.value == PhaseUpdate(m, ResolvePhase(phase).value, status, now)
  {
    var dir :- ResolvePhase(phase);
    Ok(PhaseUpdate(m, dir, status, now))
  }

  /** The two versions differ only in the completion time of a run that a
      failed phase fails. */
  lemma UpdateVersionsAgreeOtherwise(m: Manifest, dir: string, status: string, now: string)
    requires status != "failed" || RunStatusText(m) in TerminalRunStatuses
    ensures PhaseUpdateAsWritten(m, dir, status, now) == PhaseUpdate(m, dir, status, now)
  {
  }

  /** On a failed phase of a running run, the version as written differs
      from the corrected one only in `completed_at`, where it keeps whatever
      was stored. */
  lemma AsWrittenFailedPhase(m: Manifest, dir: string, now: string)
    requires RunStatusText(m) !in TerminalRunStatuses
    ensures PhaseUpdateAsWritten(m, dir, "failed", now) ==
      PhaseUpdate(m, dir, "failed", now).(completedAt := m.completedAt.Default(Str(now)))
  {
    var m1 := SetPhaseStatus(m, dir, "failed");
    assert RunStatusText(m1) == RunStatusText(m);
  }

  /** A run the ensure step has just created is in status `created` with a
      null completion time. */
  lemma FreshRunHasNullCompletion(p: RunPaths, key: string, now: string)
    ensures RunStatusText(EnsureWithKey(NoManifest, p, key, [], None, now)) == "created"
    ensures EnsureWithKey(NoManifest, p, key, [], None, now).completedAt == Present(Null)
  {
  }

  /** As written, a phase failure of a fresh run leaves `completed_at` null:
      the ensure step stores the key with a null value, so `setdefault` keeps
      the null. The corrected update stores the time. */
  lemma FailedPhaseLeavesCompletedAtNull(p: RunPaths, key: string, dir: string, now: string)
    ensures PhaseUpdateAsWritten(EnsureWithKey(NoManifest, p, key, [], None, now), dir, "failed", now)
      .completedAt == Present(Null)
    ensures PhaseUpdate(EnsureWithKey(NoManifest, p, key, [], None, now), dir, "failed", now)
      .completedAt == Present(Str(now))
  {
    FreshRunHasNullCompletion(p, key, now);
    var m := EnsureWithKey(NoManifest, p, key, [], None, now);
    AsWrittenFailedPhase(m, dir, now);
  }

  // ------------------------------------------------------------------ finalise

  /** The items without repeats, each at its first occurrence
      (`list(dict.fromkeys(xs))`). */
  function Dedupe(xs: seq<Value>): (r: seq<Value>)
    ensures forall v :: v in r <==> v in xs
    ensures forall i, j :: 0 <= i < j < |r| ==> r[i] != r[j]
    ensures |r| <= |xs|
    decreases |xs|
  {
    if |xs| == 0 then []
    else
      var prev := xs[..|xs| - 1];
      var last := xs[|xs| - 1];
      assert xs == prev + [last];
      var d := Dedupe(prev);
      if last in d then d else d + [last]
  }

  /** A list without repeats is kept as it is. */
  lemma {:induction false} DedupeDistinct(xs: seq<Value>)
    requires forall i, j :: 0 <= i < j < |xs| ==> xs[i] != xs[j]
    ensures Dedupe(xs) == xs
    decreases |xs|
  {
    if |xs| > 0 {
      var prev := xs[..|xs| - 1];
      DedupeDistinct(prev);
      assert xs == prev + [xs[|xs| - 1]];
    }
  }

  /** First occurrence wins: deduplicating `a + b` starts with `a`
      deduplicated, so existing tags keep their order ahead of new ones. */
  lemma {:induction false} DedupePrefix(a: seq<Value>, b: seq<Value>)
    ensures Dedupe(a) <= Dedupe(a + b)
    decreases |b|
  {
    if |b| == 0 {
      assert a + b == a;
    } else {
      var b0 := b[..|b| - 1];
      DedupePrefix(a, b0);
      assert a + b == (a + b0) + [b[|b| - 1]];
      assert (a + b)[..|a + b| - 1] == a + b0;
    }
  }

  /** Deduplicating a list without repeats together with items it already
      holds gives the list back. */
  lemma {:induction false} DedupeAbsorbs(d: seq<Value>, extra: seq<Value>)
    requires forall i, j :: 0 <= i < j < |d| ==> d[i] != d[j]
    requires forall v :: v in extra ==> v in d
    ensures Dedupe(d + extra) == d
    decreases |extra|
  {
    if |extra| == 0 {
      assert d + extra == d;
      DedupeDistinct(d);
    } else {
      var e0 := extra[..|extra| - 1];
      DedupeAbsorbs(d, e0);
      assert d + extra == (d + e0) + [extra[|extra| - 1]];
      assert (d + extra)[..|d + extra| - 1] == d + e0;
    }
  }

  /** The error record of a failed run: from a dict, its message, phase and
      timestamp as text with defaults; otherwise the text of the error. */
  function ErrorRecord(error: Value, now: string): (r: Value)
    ensures r.Object? && |r.fields| == 3
    ensures r.fields[0].0 == "message" && r.fields[1].0 == "phase" && r.fields[2].0 == "timestamp"
    ensures !error.Object? ==> r.fields[1].1 == Str("unknown") && r.fields[2].1 == Str(now)
    ensures !error.Object? && !Truthy(error) ==> r.fields[0].1 == Str("unknown")
  {
    if error.Object? then
      Object([("message", Str(ToStr(GetOr(error, "message", Str("unknown"))))),
              ("phase", Str(ToStr(GetOr(error, "phase", Str("unknown"))))),
              ("timestamp", Str(ToStr(GetOr(error, "timestamp", Str(now)))))])
    else
      Object([("message", Str(if Truthy(error) then ToStr(error) else "unknown")),
              ("phase", Str("unknown")),
              ("timestamp", Str(now))])
  }

  /** `manifest.get("tags")` when it is a list, else nothing. */
  function ExistingTags(m: Manifest): seq<Value> {
    if m.tags.Present? && m.tags.v.List? then m.tags.v.items else []
  }

  /** The tags after finalising: unchanged when none are given, else the
      existing ones followed by the new ones, without repeats. */
  function MergedTags(m: Manifest, tags: Option<seq<string>>): (r: Slot)
    ensures tags.None? || |tags.value| == 0 ==> r == m.tags
    ensures tags.Some? && |tags.value| > 0 ==>
      (r.Present? && r.v.List? && Dedupe(ExistingTags(m)) <= r.v.items &&
       (forall v :: v in r.v.items <==> v in ExistingTags(m) || v in StrList(tags.value).items) &&
       (forall i, j :: 0 <= i < j < |r.v.items| ==> r.v.items[i] != r.v.items[j]))
  {
    if tags.Some? && |tags.value| > 0 then
      DedupePrefix(ExistingTags(m), StrList(tags.value).items);
      Present(List(Dedupe(ExistingTags(m) + StrList(tags.value).items)))
    else m.tags
  }

  /** `finalize_manifest` on the ensured manifest, without the index append
      and the observation sync. `error` is `Null` when no error was given. */
  function FinalizeEnsured(m: Manifest, finalStatus: string, error: Value, tags: Option<seq<string>>, now: string): (r: Manifest)
    requires finalStatus in TerminalRunStatuses
    ensures r.status == Present(Str(finalStatus)) && r.updatedAt == Present(Str(now))
    ensures finalStatus != "archived" ==> r.completedAt == Present(CompletedAt(m, now))
    ensures finalStatus == "archived" ==> r.completedAt == m.completedAt
    ensures r.error == Present(if finalStatus == "failed" then ErrorRecord(error, now) else Null)
    ensures r.tags == MergedTags(m, tags)
    ensures r.(status := m.status, updatedAt := m.updatedAt, completedAt := m.completedAt, tags := m.tags,
               error := m.error) == m
    ensures Ensured(m) ==> Ensured(r)
    ensures r.error.v != Null <==> finalStatus == "failed"
    ensures finalStatus != "archived" && |now| > 0 ==> Truthy(r.completedAt.v)
  {
    m.(status := Present(Str(finalStatus)),
       updatedAt := Present(Str(now)),
       completedAt := if finalStatus != "archived" then Present(CompletedAt(m, now)) else m.completedAt,
       tags := MergedTags(m, tags),
       error := Present(if finalStatus == "failed" then ErrorRecord(error, now) else Null))
  }

  /** `finalize_manifest`: an unknown final status fails before anything is
      read or written; otherwise the manifest is ensured and finalised. */
  function FinalizeManifest(stored: Manifest, p: RunPaths, finalStatus: string, error: Value,
                            tags: Option<seq<string>>, now: string): (r: Result<Manifest>)
    ensures finalStatus !in TerminalRunStatuses ==> r == Err("final_status must be completed|failed|archived")
    ensures r.Ok? ==> finalStatus in TerminalRunStatuses && Ensured(r.value) && r.value.status == Present(Str(finalStatus))
    ensures r.Ok? ==> (r.value.error.v != Null <==> finalStatus == "failed")
    ensures r.Ok? && finalStatus != "archived" && |now| > 0 ==> Truthy(r.value.completedAt.v)
    ensures finalStatus in TerminalRunStatuses ==>
      (r.Err? <==> RunIdentity.NormalizeSkillKey(ChosenSkillKey(p, None), p.skillKeyMap, true).Err?)
  {
    if finalStatus !in TerminalRunStatuses then Err("final_status must be completed|failed|archived")
    else
      var m :- EnsureManifest(stored, p, None, None, None, now);
      Ok(FinalizeEnsured(m, finalStatus, error, tags, now))
  }

  /** Finalising keeps a completion time already recorded. */
  lemma FinalizeKeepsCompletedAt(m: Manifest, finalStatus: string, error: Value, tags: Option<seq<string>>, now: string)
    requires finalStatus in TerminalRunStatuses
    requires m.completedAt.Present? && Truthy(m.completedAt.v)
    ensures FinalizeEnsured(m, finalStatus, error, tags, now).completedAt == m.completedAt
  {
  }

  /** Finalising twice with the same arguments gives what finalising once
      gives. */
  lemma {:induction false} FinalizeIdempotent(m: Manifest, finalStatus: string, error: Value, tags: Option<seq<string>>, now: string)
    requires finalStatus in TerminalRunStatuses
    ensures FinalizeEnsured(FinalizeEnsured(m, finalStatus, error, tags, now), finalStatus, error, tags, now) ==
      FinalizeEnsured(m, finalStatus, error, tags, now)
  {
    var once := FinalizeEnsured(m, finalStatus, error, tags, now);
    if tags.Some? && |tags.value| > 0 {
      var d := Dedupe(ExistingTags(m) + StrList(tags.value).items);
      assert ExistingTags(once) == d;
      DedupeAbsorbs(d, StrList(tags.value).items);
    }
  }
}
