/** The phase directories of a run and the two-digit codes that name them. */
module WorkspacePhases {
  import opened Results

  /** The phase directories, in order of their two-digit codes. */
  const PhaseDirs: seq<string> := ["00_collect", "10_topology", "20_mental-model", "30_execution",
    "40_collaboration", "50_audit", "60_observability", "70_governance", "80_delivery", "90_meta"]

  const PhaseToDir: map<string, string> := map[
    "00" := "00_collect", "10" := "10_topology", "20" := "20_mental-model", "30" := "30_execution",
    "40" := "40_collaboration", "50" := "50_audit", "60" := "60_observability", "70" := "70_governance",
    "80" := "80_delivery", "90" := "90_meta"]

  /** Every code names a phase directory. */
  lemma PhaseTableValues()
    ensures forall c :: c in PhaseToDir ==> PhaseToDir[c] in PhaseDirs
  {
  }

  /** Every code has two characters. */
  lemma PhaseTableCodes()
    ensures forall c :: c in PhaseToDir ==> |c| == 2
  {
  }

  /** Every phase directory begins with its code. */
  lemma PhaseTablePrefixes()
    ensures forall c :: c in PhaseToDir ==> |PhaseToDir[c]| >= 2 && PhaseToDir[c][..2] == c
  {
  }

  /** The phase directories are told apart by their first character, and are
      all longer than a code. */
  lemma PhaseDirsDistinct()
    ensures forall i :: 0 <= i < |PhaseDirs| ==> |PhaseDirs[i]| > 2
    ensures forall i, j :: 0 <= i < j < |PhaseDirs| ==> PhaseDirs[i] != PhaseDirs[j]
  {
    assert forall i :: 0 <= i < |PhaseDirs| ==> |PhaseDirs[i]| > 2 && PhaseDirs[i][0] == "0123456789"[i];
  }

  /** A phase is named by its code or by its directory; anything else is an
      unknown phase. */
  function ResolvePhase(phase: string): (r: Result<string>)
    ensures r.Ok? ==> r.value in PhaseDirs
    ensures r.Err? <==> phase !in PhaseToDir && phase !in PhaseDirs
    ensures phase in PhaseToDir ==> r == Ok(PhaseToDir[phase])
    ensures phase in PhaseDirs ==> r == Ok(phase)
  {
    PhaseTableCodes();
    PhaseTableValues();
    PhaseDirsDistinct();
    if phase in PhaseToDir then Ok(PhaseToDir[phase])
    else if phase in PhaseDirs then Ok(phase)
    else Err("unknown phase: " + phase)
  }

  /** A code and the directory it names resolve to the same phase, which
      begins with the code. */
  lemma CodeAndDirAgree(code: string)
    requires code in PhaseToDir
    ensures ResolvePhase(PhaseToDir[code]) == ResolvePhase(code)
    ensures ResolvePhase(code).value[..2] == code
  {
    PhaseTableValues();
    PhaseTablePrefixes();
  }
}
