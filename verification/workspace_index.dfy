/** The run index of the runtime workspace: one JSON object per line, each
    naming a finished run. A run is appended at most once. Reading the file,
    stripping its lines and parsing them as JSON are not modelled: the index
    is the sequence of its lines as the loader classifies them. */
module WorkspaceIndex {
  import opened Results
  import opened Json
  import PyStr
  import opened WorkspaceManifest

  /** A line of the index: blank, not JSON, or a parsed value. */
  datatype IndexLine = Blank | Unparsable | Parsed(v: Value)

  /** The run id a line records: the `run_id` of a parsed object when it is a
      string. */
  function LineRunId(line: IndexLine): Option<string> {
    if line.Parsed? && line.v.Object? then GetStr(line.v, "run_id") else None
  }

  /** A parsed line that is not an object makes `payload.get` raise. */
  predicate Breaks(line: IndexLine) {
    line.Parsed? && !line.v.Object?
  }

  /** The run ids already in the index; an error when a line breaks the
      reader. */
  function RunIds(lines: seq<IndexLine>): (r: Result<set<string>>)
    ensures r.Err? <==> exists i :: 0 <= i < |lines| && Breaks(lines[i])
    ensures r.Ok? ==> forall id :: id in r.value <==> exists i :: 0 <= i < |lines| && LineRunId(lines[i]) == Some(id)
    decreases |lines|
  {
    if |lines| == 0 then Ok({})
    else
      var prev := lines[..|lines| - 1];
      var last := lines[|lines| - 1];
      assert lines == prev + [last];
      var ids :- RunIds(prev);
      if Breaks(last) then Err("index line is not an object: no attribute 'get'")
      else
        var r := if LineRunId(last).Some? then ids + {LineRunId(last).value} else ids;
        assert forall i :: 0 <= i < |prev| ==> prev[i] == lines[i];
        Ok(r)
  }

  /** The id a manifest is indexed under: `str(manifest.get("run_id", "")).strip()`. */
  function IndexRunId(m: Manifest): string {
    PyStr.Strip(ToStr(m.runId.Or(Str(""))))
  }

  /** The record a manifest appends: its id, key, status and times as
      stored (null when missing), its tags when they are a list and its
      archive path when it is a string. */
  function IndexRecord(m: Manifest): (r: Value)
    ensures r.Object? && |r.fields| == 7
    ensures GetStr(r, "run_id") == Some(IndexRunId(m))
    ensures r.fields[5] == ("tags", if m.tags.Present? && m.tags.v.List? then m.tags.v else List([]))
    ensures r.fields[6] == ("archive_path", if m.archivePath.Present? && m.archivePath.v.Str? then m.archivePath.v else Null)
  {
    Object([
      ("run_id", Str(IndexRunId(m))),
      ("skill_key", m.skillKey.Or(Null)),
      ("status", m.status.Or(Null)),
      ("created_at", m.createdAt.Or(Null)),
      ("completed_at", m.completedAt.Or(Null)),
      ("tags", if m.tags.Present? && m.tags.v.List? then m.tags.v else List([])),
      ("archive_path", if m.archivePath.Present? && m.archivePath.v.Str? then m.archivePath.v else Null)])
  }

  /** Whether a record was appended, and the index afterwards. */
  datatype IndexUpdate = IndexUpdate(appended: bool, lines: seq<IndexLine>)

  /** `append_manifest_index`: a run whose id the index already records is
      not appended again; otherwise its record goes at the end. A line that
      parses to something other than an object makes the call fail. */
  function AppendManifestIndex(lines: seq<IndexLine>, m: Manifest): (r: Result<IndexUpdate>)
    ensures r.Err? <==> exists i :: 0 <= i < |lines| && Breaks(lines[i])
    ensures r.Ok? ==> (r.value.appended <==> forall i :: 0 <= i < |lines| ==> LineRunId(lines[i]) != Some(IndexRunId(m)))
    ensures r.Ok? && r.value.appended ==> r.value.lines == lines + [Parsed(IndexRecord(m))]
    ensures r.Ok? && !r.value.appended ==> r.value.lines == lines
    ensures r.Ok? ==> RunIds(r.value.lines).Ok? && IndexRunId(m) in RunIds(r.value.lines).value
  {
    var ids :- RunIds(lines);
    var id := IndexRunId(m);
    if id in ids then Ok(IndexUpdate(false, lines))
    else
      var after := lines + [Parsed(IndexRecord(m))];
      assert LineRunId(after[|lines|]) == Some(id);
      assert forall i :: 0 <= i < |lines| ==> after[i] == lines[i];
      Ok(IndexUpdate(true, after))
  }

  /** Appending the same run twice is appending it once. */
  lemma AppendIndexOnce(lines: seq<IndexLine>, m: Manifest)
    requires AppendManifestIndex(lines, m).Ok?
    ensures AppendManifestIndex(AppendManifestIndex(lines, m).value.lines, m) ==
      Ok(IndexUpdate(false, AppendManifestIndex(lines, m).value.lines))
  {
  }

  /** No run id is recorded on two lines. */
  predicate DistinctRunIds(lines: seq<IndexLine>) {
    forall i, j :: 0 <= i < j < |lines| && LineRunId(lines[i]).Some? ==> LineRunId(lines[i]) != LineRunId(lines[j])
  }

  /** Appending keeps the run ids of the index distinct. */
  lemma AppendIndexKeepsDistinct(lines: seq<IndexLine>, m: Manifest)
    requires DistinctRunIds(lines) && AppendManifestIndex(lines, m).Ok?
    ensures DistinctRunIds(AppendManifestIndex(lines, m).value.lines)
  {
    var r := AppendManifestIndex(lines, m).value;
    if r.appended {
      var after := r.lines;
      forall i, j | 0 <= i < j < |after| && LineRunId(after[i]).Some?
        ensures LineRunId(after[i]) != LineRunId(after[j])
      {
        if j == |lines| {
          assert LineRunId(after[j]) == Some(IndexRunId(m));
          assert LineRunId(lines[i]) != Some(IndexRunId(m));
        } else {
          assert after[i] == lines[i] && after[j] == lines[j];
        }
      }
    }
  }
}
