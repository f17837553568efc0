/** Run identity in the shared runtime workspace: case slugs, skill keys and
    run ids of the form `YYYYMMDD-<skill key>-<case slug>`. The date part is an
    input: it is the clock's day written with eight digits. */
module RunIdentity {
  import opened Results
  import PyStr

  // ------------------------------------------------------------------ case slugs

  predicate SlugChar(c: char) {
    'a' <= c <= 'z' || '0' <= c <= '9' || c == '-'
  }

  predicate AllSlugChars(s: string) {
    forall i :: 0 <= i < |s| ==> SlugChar(s[i])
  }

  /** No two adjacent dashes. */
  predicate NoDoubleDash(s: string) {
    forall i :: 0 <= i < |s| - 1 ==> !(s[i] == '-' && s[i + 1] == '-')
  }

  /** `re.sub(r"[^a-z0-9-]", "-", s)` */
  function ReplaceInvalid(s: string): (r: string)
    ensures |r| == |s| && AllSlugChars(r)
    ensures AllSlugChars(s) ==> r == s
  {
    seq(|s|, i requires 0 <= i < |s| => if SlugChar(s[i]) then s[i] else '-')
  }

  /** `re.sub(r"-{2,}", "-", s)`: every run of dashes becomes one dash. */
  function CollapseDashes(s: string): (r: string)
    ensures |r| <= |s| && (|s| > 0 ==> |r| > 0 && r[0] == s[0])
    ensures NoDoubleDash(r)
    ensures forall i :: 0 <= i < |r| ==> r[i] in s
    ensures NoDoubleDash(s) ==> r == s
    decreases |s|
  {
    if |s| < 2 then s
    else if s[0] == '-' && s[1] == '-' then
      var r := CollapseDashes(s[1..]);
      assert forall i :: 0 <= i < |r| ==> r[i] in s by {
        assert forall c :: c in s[1..] ==> c in s;
      }
      r
    else
      var rest := CollapseDashes(s[1..]);
      var r := [s[0]] + rest;
      assert forall i :: 0 <= i < |r| ==> r[i] in s by {
        assert forall c :: c in s[1..] ==> c in s;
      }
      assert NoDoubleDash(s) ==> NoDoubleDash(s[1..]) by {
        assert forall i :: 0 <= i < |s| - 2 ==> s[1..][i] == s[i + 1];
      }
      r
  }

  const DefaultSlug := "default-run"
  const MaxSlugLength := 40

  /** What every sanitised slug looks like: slug characters, no double dash,
      and not starting with a dash. */
  predicate SlugShape(s: string) {
    |s| > 0 && AllSlugChars(s) && NoDoubleDash(s) && s[0] != '-'
  }

  /** A slug the sanitiser leaves alone apart from its length. */
  predicate CleanSlug(s: string) {
    SlugShape(s) && s[|s| - 1] != '-'
  }

  lemma DefaultSlugClean()
    ensures CleanSlug(DefaultSlug)
  {
    assert DefaultSlug == ['d', 'e', 'f', 'a', 'u', 'l', 't', '-', 'r', 'u', 'n'];
  }

  /** `raw[:40]` of a slug-shaped string. */
  function CutSlug(s: string): (r: string)
    requires SlugShape(s)
    ensures 1 <= |r| <= MaxSlugLength && SlugShape(r)
    ensures |r| <= |s| && r == s[..|r|] && (|s| <= MaxSlugLength ==> r == s)
  {
    var r := PyStr.Prefix(s, MaxSlugLength);
    assert forall i :: 0 <= i < |r| ==> r[i] == s[i];
    r
  }

  /** `sanitize_case_slug`. `None` stands for a missing slug. */
  function SanitizeCaseSlug(caseSlug: Option<string>): (r: string)
    ensures 1 <= |r| <= MaxSlugLength && SlugShape(r)
  {
    var stripped := StrippedSlug(PyStr.Lower(PyStr.Strip(caseSlug.GetOr(""))));
    DefaultSlugClean();
    CutSlug(if |stripped| == 0 then DefaultSlug else stripped)
  }

  /** The middle stages: invalid characters to dashes, runs collapsed, and the
      dashes at both ends stripped. */
  function StrippedSlug(raw: string): (r: string)
    ensures AllSlugChars(r) && NoDoubleDash(r)
    ensures |r| > 0 ==> CleanSlug(r)
  {
    var c := CollapseDashes(ReplaceInvalid(raw));
    var r := PyStr.StripWith(c, {'-'});
    PyStr.StripWithIsSlice(c, {'-'});
    var a := PyStr.StripStart(c, {'-'});
    assert forall i :: 0 <= i < |r| ==> r[i] == c[a + i];
    r
  }

  /** On a slug-shaped string, stripping and lower-casing change nothing and
      the middle stages only strip the dashes at the ends, so a clean slug
      comes through unchanged. */
  lemma SlugPipelineOnShape(s: string)
    requires SlugShape(s)
    ensures StrippedSlug(PyStr.Lower(PyStr.Strip(s))) == PyStr.StripWith(s, {'-'})
    ensures CleanSlug(s) ==> StrippedSlug(PyStr.Lower(PyStr.Strip(s))) == s
  {
    assert !PyStr.IsSpace(s[0]) && !PyStr.IsSpace(s[|s| - 1]);
    PyStr.StripPlain(s);
    assert PyStr.Lower(s) == s;
    if CleanSlug(s) {
      PyStr.StripWithFixed(s, {'-'});
    }
  }

  /** A clean slug only gets cut to its first 40 characters. */
  lemma SanitizeClean(s: string)
    requires CleanSlug(s)
    ensures SanitizeCaseSlug(Some(s)) == PyStr.Prefix(s, MaxSlugLength)
  {
    SlugPipelineOnShape(s);
  }

  /** The sanitiser is idempotent exactly on the slugs it returns that do not
      end with a dash; cutting at 40 characters can leave one. */
  lemma SanitizeIdempotentIff(s: Option<string>)
    ensures SanitizeCaseSlug(Some(SanitizeCaseSlug(s))) == SanitizeCaseSlug(s) <==>
      SanitizeCaseSlug(s)[|SanitizeCaseSlug(s)| - 1] != '-'
  {
    var r := SanitizeCaseSlug(s);
    if r[|r| - 1] != '-' {
      SanitizeClean(r);
    } else {
      SlugPipelineOnShape(r);
      var t := PyStr.StripWith(r, {'-'});
      PyStr.StripWithIsSlice(r, {'-'});
      SameLengthSlice(r, t, PyStr.StripStart(r, {'-'}));
      assert |t| < |r|;
      assert |SanitizeCaseSlug(Some(r))| <= |t|;
    }
  }

  lemma SameLengthSlice(r: string, t: string, a: nat)
    ensures a + |t| <= |r| && t == r[a..a + |t|] && |t| == |r| ==> t == r
  {
  }

  /** A 41-character slug whose 40th character is a dash. */
  const SlugWitness := PyStr.Repeat('a', 39) + "-b"

  /** `sanitize_case_slug` is not idempotent. */
  lemma SanitizeNotIdempotent()
    ensures SanitizeCaseSlug(Some(SanitizeCaseSlug(Some(SlugWitness)))) != SanitizeCaseSlug(Some(SlugWitness))
  {
    var w := SlugWitness;
    assert |w| == 41 && w[39] == '-' && w[40] == 'b';
    assert forall i :: 0 <= i < 39 ==> w[i] == 'a';
    assert CleanSlug(w);
    SanitizeClean(w);
    SanitizeIdempotentIff(Some(w));
  }

  // ------------------------------------------------------------------ skill keys

  const SkillKeyEnum: set<string> := {"msogov", "msowd", "msomm", "msoed", "msotcm", "msoac", "msoal", "msoobs"}

  const DefaultSkillKeyMap: map<string, string> := map[
    "mso-skill-governance" := "msogov", "mso-workflow-topology-design" := "msowd",
    "mso-mental-model-design" := "msomm", "mso-execution-design" := "msoed",
    "mso-task-context-management" := "msotcm", "mso-agent-collaboration" := "msoac",
    "mso-agent-audit-log" := "msoal", "mso-observability" := "msoobs",
    "msogov" := "msogov", "msowd" := "msowd", "msomm" := "msomm", "msoed" := "msoed",
    "msotcm" := "msotcm", "msoac" := "msoac", "msoal" := "msoal", "msoobs" := "msoobs"]

  /** The default map with the caller's overrides applied in order. */
  function SkillKeyMapping(overrides: seq<(string, string)>): (m: map<string, string>)
    ensures forall k :: k in DefaultSkillKeyMap ==> k in m
    ensures forall i :: 0 <= i < |overrides| ==> overrides[i].0 in m
    decreases |overrides|
  {
    if |overrides| == 0 then DefaultSkillKeyMap
    else
      var last := overrides[|overrides| - 1];
      SkillKeyMapping(overrides[..|overrides| - 1])[last.0 := last.1]
  }

  /** `normalize_skill_key`: the stripped key mapped through the table; a value
      outside the enum is an error when strict and `msowd` otherwise. */
  function NormalizeSkillKey(key: string, overrides: seq<(string, string)>, strict: bool): (r: Result<string>)
    ensures r.Ok? ==> r.value in SkillKeyEnum
    ensures !strict ==> r.Ok?
    ensures r.Err? <==> strict && MappedKey(key, overrides) !in SkillKeyEnum
    ensures r.Ok? && MappedKey(key, overrides) in SkillKeyEnum ==> r.value == MappedKey(key, overrides)
  {
    var n := MappedKey(key, overrides);
    if n !in SkillKeyEnum then
      if strict then Err("invalid skill_key: " + key) else Ok("msowd")
    else Ok(n)
  }

  function MappedKey(key: string, overrides: seq<(string, string)>): string {
    var m := SkillKeyMapping(overrides);
    var k := PyStr.Strip(key);
    if k in m then m[k] else k
  }

  /** Every enum member maps to itself in the default table. */
  lemma EnumMapsToItself(k: string)
    requires k in SkillKeyEnum
    ensures k in DefaultSkillKeyMap && DefaultSkillKeyMap[k] == k
  {
  }

  /** Every value of the default table is an enum member. */
  lemma DefaultValuesInEnum(name: string)
    requires name in DefaultSkillKeyMap
    ensures DefaultSkillKeyMap[name] in SkillKeyEnum
  {
  }

  predicate LetterEnds(s: string) {
    |s| > 0 && 'a' <= s[0] <= 'z' && 'a' <= s[|s| - 1] <= 'z'
  }

  /** The default table's names begin and end with a letter, so stripping
      leaves them alone. */
  lemma DefaultNamesPlain(name: string)
    requires name in DefaultSkillKeyMap
    ensures PyStr.Strip(name) == name
  {
    assert LetterEnds(name) by {
      if name in SkillKeyEnum {
      } else if name == "mso-skill-governance" {
      } else if name == "mso-workflow-topology-design" {
      } else if name == "mso-mental-model-design" {
      } else if name == "mso-execution-design" {
      } else if name == "mso-task-context-management" {
      } else if name == "mso-agent-collaboration" {
      } else if name == "mso-agent-audit-log" {
      } else {
        assert name == "mso-observability";
      }
    }
    LetterEndsPlain(name);
  }

  lemma LetterEndsPlain(s: string)
    requires LetterEnds(s)
    ensures PyStr.Strip(s) == s
  {
    PyStr.StripPlain(s);
  }

  /** Without overrides every skill directory name and every enum member
      normalises to its enum member, strict or not. */
  lemma DefaultNamesNormalise(name: string, strict: bool)
    requires name in DefaultSkillKeyMap
    ensures NormalizeSkillKey(name, [], strict) == Ok(DefaultSkillKeyMap[name])
  {
    DefaultNamesPlain(name);
    DefaultValuesInEnum(name);
  }

  /** Normalising a normalised key changes nothing, whatever overrides
      produced it. */
  lemma NormalizeIdempotent(key: string, overrides: seq<(string, string)>, strict: bool, strict2: bool)
    requires NormalizeSkillKey(key, overrides, strict).Ok?
    ensures NormalizeSkillKey(NormalizeSkillKey(key, overrides, strict).value, [], strict2) ==
      NormalizeSkillKey(key, overrides, strict)
  {
    var k := NormalizeSkillKey(key, overrides, strict).value;
    EnumMapsToItself(k);
    DefaultNamesNormalise(k, strict2);
  }

  // ------------------------------------------------------------------ run ids

  predicate AllLowerLetters(s: string) {
    forall i :: 0 <= i < |s| ==> 'a' <= s[i] <= 'z'
  }

  /** The three groups of `^(\d{8})-([a-z]+)-([a-z0-9-]{1,40})$`. Since the
      key has no dash, it ends at the first dash after the date. */
  datatype RunIdParts = RunIdParts(date: string, key: string, slug: string)

  function MatchRunId(c: string): (r: Option<RunIdParts>)
    ensures r.Some? ==> c == r.value.date + "-" + r.value.key + "-" + r.value.slug
    ensures r.Some? ==> |r.value.date| == 8 && PyStr.AllDigits(r.value.date)
    ensures r.Some? ==> |r.value.key| > 0 && AllLowerLetters(r.value.key)
    ensures r.Some? ==> 1 <= |r.value.slug| <= MaxSlugLength && AllSlugChars(r.value.slug)
  {
    if |c| < 9 || !PyStr.AllDigits(c[..8]) || c[8] != '-' then None
    else
      var rest := c[9..];
      match PyStr.IndexOf(rest, '-')
      case None => None
      case Some(k) =>
        var key := rest[..k];
        var slug := rest[k + 1..];
        if |key| == 0 || !AllLowerLetters(key) || |slug| < 1 || |slug| > MaxSlugLength || !AllSlugChars(slug) then None
        else
          assert c == c[..8] + "-" + key + "-" + slug;
          Some(RunIdParts(c[..8], key, slug))
  }

  /** `validate_run_id`: the stripped id when it matches the pattern and its
      key is in the enum. */
  function ValidateRunId(runId: string): (r: Result<string>)
    ensures r.Ok? ==> r.value == PyStr.Strip(runId)
    ensures r.Ok? <==> MatchRunId(PyStr.Strip(runId)).Some? && MatchRunId(PyStr.Strip(runId)).value.key in SkillKeyEnum
  {
    var c := PyStr.Strip(runId);
    match MatchRunId(c)
    case None => Err("run_id must match YYYYMMDD-<skill-key>-<case-slug> for example 20260217-msowd-sample-run")
    case Some(p) => if p.key !in SkillKeyEnum then Err("invalid skill_key in run_id: " + p.key) else Ok(c)
  }

  /** `generate_run_id`, with the strict default map. `day` is the eight-digit
      date the clock gives. */
  function GenerateRunId(skillKey: string, caseSlug: string, day: string): (r: Result<string>)
    requires |day| == 8 && PyStr.AllDigits(day)
    ensures r.Err? <==> NormalizeSkillKey(skillKey, [], true).Err?
    ensures r.Ok? ==> r.value == day + "-" + NormalizeSkillKey(skillKey, [], true).value + "-" + SanitizeCaseSlug(Some(caseSlug))
  {
    var key :- NormalizeSkillKey(skillKey, [], true);
    Ok(day + "-" + key + "-" + SanitizeCaseSlug(Some(caseSlug)))
  }

  /** Every enum member is lower-case letters only. */
  lemma EnumKeysAreLetters(k: string)
    requires k in SkillKeyEnum
    ensures |k| > 0 && AllLowerLetters(k)
  {
  }

  /** The pattern matches a date, a key and a slug of the right shapes and
      gives them back as its groups. */
  lemma MatchRunIdOfParts(date: string, key: string, slug: string)
    requires |date| == 8 && PyStr.AllDigits(date)
    requires |key| > 0 && AllLowerLetters(key)
    requires 1 <= |slug| <= MaxSlugLength && AllSlugChars(slug)
    ensures MatchRunId(date + "-" + key + "-" + slug) == Some(RunIdParts(date, key, slug))
  {
    var id := date + "-" + key + "-" + slug;
    var rest := id[9..];
    assert id[..8] == date && id[8] == '-';
    assert rest == key + "-" + slug;
    assert rest[..|key|] == key && rest[|key|] == '-' && rest[|key| + 1..] == slug;
    assert PyStr.IndexOf(rest, '-') == Some(|key|);
  }

  /** A run id starts with a digit and ends with a slug character, so
      stripping it changes nothing. */
  lemma RunIdPlain(date: string, key: string, slug: string)
    requires |date| == 8 && PyStr.AllDigits(date)
    requires 1 <= |slug| && AllSlugChars(slug)
    ensures PyStr.Strip(date + "-" + key + "-" + slug) == date + "-" + key + "-" + slug
  {
    var id := date + "-" + key + "-" + slug;
    assert id[0] == date[0] && id[|id| - 1] == slug[|slug| - 1];
    PyStr.StripPlain(id);
  }

  /** Round trip: a generated run id validates unchanged. */
  lemma GeneratedRunIdValidates(skillKey: string, caseSlug: string, day: string)
    requires |day| == 8 && PyStr.AllDigits(day)
    requires GenerateRunId(skillKey, caseSlug, day).Ok?
    ensures ValidateRunId(GenerateRunId(skillKey, caseSlug, day).value) == GenerateRunId(skillKey, caseSlug, day)
  {
    var key := NormalizeSkillKey(skillKey, [], true).value;
    var slug := SanitizeCaseSlug(Some(caseSlug));
    EnumKeysAreLetters(key);
    RunIdPlain(day, key, slug);
    MatchRunIdOfParts(day, key, slug);
  }

  /** A validated run id validates to itself. */
  lemma ValidateRunIdIdempotent(runId: string)
    requires ValidateRunId(runId).Ok?
    ensures ValidateRunId(ValidateRunId(runId).value) == ValidateRunId(runId)
  {
    PyStr.StripIdempotent(runId);
  }
}
