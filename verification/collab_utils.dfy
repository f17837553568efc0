/** The helpers of the collaborator command line: task specifications, task
    files, context text and prompt merging, resume ids, and the process exit
    code. File and stdin reads are inputs: a task file is its parsed JSON value,
    a context file its text, a progress file its lines already parsed. */
module CollabUtils {
  import opened Results
  import opened Json
  import PyStr
  import Dicts

  datatype TaskRequest = TaskRequest(id: string, provider: string, prompt: string,
                                     contextDir: Option<string>, contextFile: Option<string>, timeout: int)

  /** A finished task; execution time and timestamp are left out. */
  datatype TaskResult = TaskResult(id: string, provider: string, success: bool, returncode: Option<int>,
                                   timedOut: bool, cancelled: bool, output: string, error: string)

  const DefaultTimeout := 300

  // ------------------------------------------------------------------ task specifications

  /** `parse_task_spec`: `provider:prompt[:id]`, cut at the first two colons and
      stripped. Without an id the id is `<provider>_<hash(prompt) % 10000>`,
      with `promptHash` standing for Python's `hash`. */
  function ParseTaskSpec(spec: string, allowed: seq<string>, promptHash: int): (r: Result<TaskRequest>)
    ensures r.Err? <==> ':' !in spec || PyStr.Strip(PyStr.SplitN(spec, ':', 2)[0]) !in allowed
    ensures r.Ok? ==> r.value.provider in allowed && r.value.timeout == DefaultTimeout
    ensures r.Ok? ==> r.value.contextDir.None? && r.value.contextFile.None?
  {
    var parts := PyStr.SplitN(spec, ':', 2);
    if |parts| < 2 then
      PyStr.SplitNoSepIff(spec, ':', 2);
      Err("Invalid task spec: " + spec + ". Format: provider:prompt[:id]")
    else
      PyStr.SplitNoSepIff(spec, ':', 2);
      var provider := PyStr.Strip(parts[0]);
      var prompt := PyStr.Strip(parts[1]);
      var id := if |parts| > 2 then PyStr.Strip(parts[2]) else provider + "_" + PyStr.IntToString(promptHash % 10000);
      if provider !in allowed then Err("Unknown provider: " + provider)
      else Ok(TaskRequest(id, provider, prompt, None, None, DefaultTimeout))
  }

  /** A piece that survives stripping unchanged and holds no colon. */
  predicate PlainField(s: string) {
    ':' !in s && (|s| > 0 ==> !PyStr.IsSpace(s[0]) && !PyStr.IsSpace(s[|s| - 1]))
  }

  /** Writing a request as `provider:prompt:id` and parsing it back gives the
      same provider, prompt and id; the id may itself contain colons. */
  lemma TaskSpecRoundTrip(provider: string, prompt: string, id: string, allowed: seq<string>, promptHash: int)
    requires provider in allowed && PlainField(provider) && PlainField(prompt)
    requires |id| > 0 ==> !PyStr.IsSpace(id[0]) && !PyStr.IsSpace(id[|id| - 1])
    ensures ParseTaskSpec(provider + ":" + prompt + ":" + id, allowed, promptHash)
      == Ok(TaskRequest(id, provider, prompt, None, None, DefaultTimeout))
  {
    SpecParts(provider, prompt, id);
    PyStr.StripPlain(provider);
    PyStr.StripPlain(prompt);
    PyStr.StripPlain(id);
  }

  /** `provider:prompt:id` splits back into its three parts. */
  lemma SpecParts(provider: string, prompt: string, id: string)
    requires ':' !in provider && ':' !in prompt
    ensures ':' in provider + ":" + prompt + ":" + id
    ensures PyStr.SplitN(provider + ":" + prompt + ":" + id, ':', 2) == [provider, prompt, id]
  {
    var s := provider + ":" + prompt + ":" + id;
    assert s == provider + [':'] + (prompt + [':'] + id);
    assert s[|provider|] == ':';
    PyStr.SplitTwiceAt(provider, prompt, ':', id);
  }

  // ------------------------------------------------------------------ task files

  /** `read_task_file` after parsing: a list is the task list itself, an object
      gives its `tasks` entry (an empty list when missing); any other document
      has no `.get` and raises. */
  function TaskFileEntries(doc: Value): (r: Result<Value>)
    ensures doc.List? ==> r == Ok(doc)
    ensures doc.Object? ==> r.Ok? && (Has(doc, "tasks") ==> Some(r.value) == Get(doc, "tasks"))
    ensures doc.Object? && !Has(doc, "tasks") ==> r == Ok(List([]))
    ensures r.Err? <==> !doc.List? && !doc.Object?
  {
    if doc.List? then Ok(doc)
    else if doc.Object? then Ok(GetOr(doc, "tasks", List([])))
    else Err("'" + TypeName(doc) + "' object has no attribute 'get'")
  }

  function TypeName(v: Value): string {
    match v
    case Null => "NoneType"
    case Bool(_) => "bool"
    case Int(_) => "int"
    case Str(_) => "str"
    case List(_) => "list"
    case Object(_) => "dict"
  }

  // ------------------------------------------------------------------ context

  /** `load_context_text` once the file is read: no path gives no text; a
      non-negative limit shorter than the text cuts it to that many characters. */
  function ContextText(path: string, text: string, maxChars: Option<int>): (r: string)
    ensures |path| == 0 ==> r == ""
    ensures |path| > 0 ==> |r| <= |text| && r == text[..|r|]
    ensures |path| > 0 && maxChars.Some? && maxChars.value >= 0 ==>
      |r| == if |text| > maxChars.value then maxChars.value else |text|
    ensures |path| > 0 && (maxChars.None? || maxChars.value < 0) ==> r == text
  {
    if |path| == 0 then ""
    else if maxChars.Some? && maxChars.value >= 0 && |text| > maxChars.value then text[..maxChars.value]
    else text
  }

  /** The rule between context and prompt in the default template. */
  const Rule := "\n\n---\n\n"

  /** `DEFAULT_CONTEXT_TEMPLATE`, `"{context}\n\n---\n\n{prompt}"`. */
  const DefaultContextTemplate := "{context}" + Rule + "{prompt}"

  /** A template as `str.format` reads it: literal characters and the two
      replacement fields `merge_prompt` passes. */
  datatype Piece = Lit(c: char) | ContextField | PromptField

  /** The template text of a piece: a literal brace is written doubled. */
  function UnparsePiece(p: Piece): string {
    match p
    case Lit(c) => if c == '{' then "{{" else if c == '}' then "}}" else [c]
    case ContextField => "{context}"
    case PromptField => "{prompt}"
  }

  /** The template text of a piece sequence. */
  function Unparse(ps: seq<Piece>): string
    decreases |ps|
  {
    if |ps| == 0 then "" else UnparsePiece(ps[0]) + Unparse(ps[1..])
  }

  function Cons(p: Piece, r: Result<seq<Piece>>): Result<seq<Piece>> {
    if r.Ok? then Ok([p] + r.value) else r
  }

  lemma UnparseCons(p: Piece, ps: seq<Piece>)
    ensures Unparse([p] + ps) == UnparsePiece(p) + Unparse(ps)
  {
    assert ([p] + ps)[1..] == ps;
  }

  /** Reading one piece and then the rest of a template gives back its text,
      and never fails on brace-free text. */
  lemma ConsText(p: Piece, t: string, n: nat, rest: Result<seq<Piece>>)
    requires 0 < n <= |t| && t[..n] == UnparsePiece(p)
    requires rest.Ok? ==> Unparse(rest.value) == t[n..]
    requires '{' !in t[n..] && '}' !in t[n..] ==> rest.Ok?
    ensures Cons(p, rest).Ok? ==> Unparse(Cons(p, rest).value) == t
    ensures '{' !in t && '}' !in t ==> Cons(p, rest).Ok?
  {
    if rest.Ok? {
      UnparseCons(p, rest.value);
      assert t == t[..n] + t[n..];
    }
    if '{' !in t && '}' !in t {
      assert forall i :: 0 <= i < |t[n..]| ==> t[n..][i] == t[n + i];
    }
  }

  /** The template starts with an escaped brace or one of the two fields. */
  predicate Opens(t: string) {
    PyStr.StartsWith(t, "{{") || PyStr.StartsWith(t, "}}")
      || PyStr.StartsWith(t, "{context}") || PyStr.StartsWith(t, "{prompt}")
  }

  /** The piece at the front of a template and the length of its text:
      `{{` and `}}` are literal braces and `{context}` and `{prompt}` are
      fields; any other brace starts no piece. */
  function Front(t: string): (r: Option<(Piece, nat)>)
    requires |t| > 0
    ensures r.Some? ==> 0 < r.value.1 <= |t| && t[..r.value.1] == UnparsePiece(r.value.0)
    ensures r.None? <==> (t[0] == '{' || t[0] == '}') && !Opens(t)
  {
    if PyStr.StartsWith(t, "{{") then Some((Lit('{'), 2))
    else if PyStr.StartsWith(t, "}}") then Some((Lit('}'), 2))
    else if PyStr.StartsWith(t, "{context}") then Some((ContextField, 9))
    else if PyStr.StartsWith(t, "{prompt}") then Some((PromptField, 8))
    else if t[0] == '{' || t[0] == '}' then None
    else Some((Lit(t[0]), 1))
  }

  /** How `template.format(context=…, prompt=…)` reads the template. A lone
      `}` raises ValueError; any other `{` opens a field that is unclosed
      (ValueError) or names another key or position (KeyError, IndexError). */
  function ParseTemplate(t: string): (r: Result<seq<Piece>>)
    ensures r.Ok? ==> Unparse(r.value) == t
    ensures '{' !in t && '}' !in t ==> r.Ok?
    decreases |t|
  {
    if |t| == 0 then Ok([])
    else
      match Front(t)
      case None =>
        if t[0] == '}' then Err("Single '}' encountered in format string")
        else Err("replacement field other than {context} or {prompt}")
      case Some((p, n)) =>
        var rest := ParseTemplate(t[n..]);
        ConsText(p, t, n, rest);
        Cons(p, rest)
  }

  /** The text of a parsed template with its fields filled in. */
  function Render(ps: seq<Piece>, context: string, prompt: string): string
    decreases |ps|
  {
    if |ps| == 0 then ""
    else
      (match ps[0]
       case Lit(c) => [c]
       case ContextField => context
       case PromptField => prompt)
      + Render(ps[1..], context, prompt)
  }

  /** `template.format(context=context, prompt=prompt)` */
  function Format(template: string, context: string, prompt: string): Result<string> {
    match ParseTemplate(template)
    case Ok(ps) => Ok(Render(ps, context, prompt))
    case Err(e) => Err(e)
  }

  /** The template was not used: it lacks one of the two field texts. */
  predicate UsesDefault(template: string) {
    !PyStr.Contains(template, "{context}") || !PyStr.Contains(template, "{prompt}")
  }

  /** `merge_prompt`: a blank context leaves the prompt alone; a template
      missing either field text is replaced by the default one; the rest is
      `str.format`, which raises on a malformed template. */
  function MergePrompt(prompt: string, context: string, template: string): (r: Result<string>)
    ensures PyStr.IsBlank(context) ==> r == Ok(prompt)
    ensures r.Err? <==> !PyStr.IsBlank(context) && !UsesDefault(template) && ParseTemplate(template).Err?
  {
    if |PyStr.Strip(context)| == 0 then Ok(prompt)
    else if UsesDefault(template) then
      FormatDefault(context, prompt);
      Format(DefaultContextTemplate, context, prompt)
    else Format(template, context, prompt)
  }

  /** Parsing is the inverse of writing a template: every piece sequence
      reads back from its text. */
  lemma {:induction false} ParseUnparse(ps: seq<Piece>)
    ensures ParseTemplate(Unparse(ps)) == Ok(ps)
    decreases |ps|
  {
    if |ps| > 0 {
      var rest := Unparse(ps[1..]);
      ParseUnparse(ps[1..]);
      ParsePiece(ps[0], rest);
      assert ps == [ps[0]] + ps[1..];
    }
  }

  /** One piece at the front of a template is read back as that piece. */
  lemma ParsePiece(p: Piece, rest: string)
    ensures ParseTemplate(UnparsePiece(p) + rest) == Cons(p, ParseTemplate(rest))
  {
    match p
    case Lit(c) =>
      if c == '{' {
        ParseOpenBrace(rest);
      } else if c == '}' {
        ParseCloseBrace(rest);
      } else {
        ParsePlain(c, rest);
      }
    case ContextField => ParseContextField(rest);
    case PromptField => ParsePromptField(rest);
  }

  lemma ParseOpenBrace(rest: string)
    ensures ParseTemplate("{{" + rest) == Cons(Lit('{'), ParseTemplate(rest))
  {
    var t := "{{" + rest;
    assert t[..2] == "{{" && t[2..] == rest;
  }

  lemma ParseCloseBrace(rest: string)
    ensures ParseTemplate("}}" + rest) == Cons(Lit('}'), ParseTemplate(rest))
  {
    var t := "}}" + rest;
    assert t[..2] == "}}" && t[2..] == rest;
    assert !PyStr.StartsWith(t, "{{") by { assert t[0] == '}'; }
  }

  lemma ParsePlain(c: char, rest: string)
    requires c != '{' && c != '}'
    ensures ParseTemplate([c] + rest) == Cons(Lit(c), ParseTemplate(rest))
  {
    var t := [c] + rest;
    assert t[0] == c && t[1..] == rest;
    assert !PyStr.StartsWith(t, "{{") && !PyStr.StartsWith(t, "}}")
        && !PyStr.StartsWith(t, "{context}") && !PyStr.StartsWith(t, "{prompt}") by {
      assert "{{"[0] == '{' && "}}"[0] == '}' && "{context}"[0] == '{' && "{prompt}"[0] == '{';
    }
  }

  lemma ParseContextField(rest: string)
    ensures ParseTemplate("{context}" + rest) == Cons(ContextField, ParseTemplate(rest))
  {
    var t := "{context}" + rest;
    assert t[..9] == "{context}" && t[9..] == rest;
    assert !PyStr.StartsWith(t, "{{") && !PyStr.StartsWith(t, "}}") by {
      assert t[0] == '{' && t[1] == 'c';
    }
  }

  lemma ParsePromptField(rest: string)
    ensures ParseTemplate("{prompt}" + rest) == Cons(PromptField, ParseTemplate(rest))
  {
    var t := "{prompt}" + rest;
    assert t[..8] == "{prompt}" && t[8..] == rest;
    assert !PyStr.StartsWith(t, "{{") && !PyStr.StartsWith(t, "}}")
        && !PyStr.StartsWith(t, "{context}") by {
      assert t[0] == '{' && t[1] == 'p' && "{context}"[1] == 'c';
    }
  }

  /** Brace-free text as literal pieces. */
  function Lits(s: string): (ps: seq<Piece>)
    ensures |ps| == |s| && forall i :: 0 <= i < |s| ==> ps[i] == Lit(s[i])
    decreases |s|
  {
    if |s| == 0 then [] else [Lit(s[0])] + Lits(s[1..])
  }

  lemma {:induction false} UnparseAppend(a: seq<Piece>, b: seq<Piece>)
    ensures Unparse(a + b) == Unparse(a) + Unparse(b)
    decreases |a|
  {
    if |a| > 0 {
      assert (a + b)[1..] == a[1..] + b;
      UnparseAppend(a[1..], b);
    } else {
      assert a + b == b;
    }
  }

  lemma {:induction false} RenderAppend(a: seq<Piece>, b: seq<Piece>, context: string, prompt: string)
    ensures Render(a + b, context, prompt) == Render(a, context, prompt) + Render(b, context, prompt)
    decreases |a|
  {
    if |a| > 0 {
      assert (a + b)[1..] == a[1..] + b;
      assert (a + b)[0] == a[0];
      RenderAppend(a[1..], b, context, prompt);
    } else {
      assert a + b == b;
    }
  }

  /** Brace-free text is written and rendered as itself. */
  lemma {:induction false} LitsText(s: string, context: string, prompt: string)
    requires '{' !in s && '}' !in s
    ensures Unparse(Lits(s)) == s && Render(Lits(s), context, prompt) == s
    decreases |s|
  {
    if |s| > 0 {
      assert Lits(s)[1..] == Lits(s[1..]);
      assert '{' !in s[1..] && '}' !in s[1..];
      LitsText(s[1..], context, prompt);
      assert [s[0]] + s[1..] == s;
    }
  }

  /** The default template read as pieces: the context field, a brace-free
      rule, then the prompt field. */
  function DefaultPieces(): seq<Piece> {
    [ContextField] + Lits(Rule) + [PromptField]
  }

  lemma DefaultText()
    ensures Unparse(DefaultPieces()) == DefaultContextTemplate
  {
    LitsText(Rule, "", "");
    UnparseAppend([ContextField] + Lits(Rule), [PromptField]);
    UnparseAppend([ContextField], Lits(Rule));
    assert Unparse([PromptField]) == "{prompt}";
    assert Unparse([ContextField]) == "{context}";
  }

  lemma DefaultRender(context: string, prompt: string)
    ensures Render(DefaultPieces(), context, prompt) == context + Rule + prompt
  {
    LitsText(Rule, context, prompt);
    RenderAppend([ContextField] + Lits(Rule), [PromptField], context, prompt);
    RenderAppend([ContextField], Lits(Rule), context, prompt);
    assert Render([PromptField], context, prompt) == prompt;
    assert Render([ContextField], context, prompt) == context;
  }

  /** With the default template the context comes first, then a rule, then the prompt. */
  lemma FormatDefault(context: string, prompt: string)
    ensures Format(DefaultContextTemplate, context, prompt) == Ok(context + Rule + prompt)
  {
    DefaultText();
    ParseUnparse(DefaultPieces());
    DefaultRender(context, prompt);
  }

  /** A template with a real prompt field renders text containing the prompt. */
  lemma {:induction false} RenderContainsPrompt(ps: seq<Piece>, context: string, prompt: string)
    requires PromptField in ps
    ensures PyStr.Contains(Render(ps, context, prompt), prompt)
    decreases |ps|
  {
    var r := Render(ps, context, prompt);
    if ps[0] == PromptField {
      assert r[..|prompt|] == prompt;
      PyStr.ContainsAt(r, prompt, 0);
    } else {
      assert PromptField in ps[1..];
      RenderContainsPrompt(ps[1..], context, prompt);
      var head := match ps[0] case Lit(c) => [c] case ContextField => context case PromptField => prompt;
      assert r == head + Render(ps[1..], context, prompt);
      PyStr.ContainsAfter(head, Render(ps[1..], context, prompt), prompt);
    }
  }

  /** The template has an unescaped `{prompt}` field. */
  predicate HasPromptField(template: string) {
    ParseTemplate(template).Ok? && PromptField in ParseTemplate(template).value
  }

  /** The merged prompt contains the prompt whenever the context is blank, the
      default template is used, or the template has a real `{prompt}` field. */
  lemma MergeKeepsPrompt(prompt: string, context: string, template: string)
    requires PyStr.IsBlank(context) || UsesDefault(template) || HasPromptField(template)
    ensures MergePrompt(prompt, context, template).Ok?
    ensures PyStr.Contains(MergePrompt(prompt, context, template).value, prompt)
  {
    if |PyStr.Strip(context)| == 0 {
      PyStr.ContainsAt(prompt, prompt, 0);
    } else if UsesDefault(template) {
      FormatDefault(context, prompt);
      var r := context + Rule + prompt;
      assert r[|r| - |prompt|..] == prompt;
      PyStr.ContainsAt(r, prompt, |r| - |prompt|);
    } else {
      RenderContainsPrompt(ParseTemplate(template).value, context, prompt);
    }
  }

  /** `"{context}{{prompt}}"` */
  const EscapedTemplate := "{context}" + "{{" + "prompt" + "}}"

  /** The pieces of a template holding a context field and then a word in
      escaped braces. */
  function EscapedPieces(word: string): seq<Piece> {
    [ContextField, Lit('{')] + Lits(word) + [Lit('}')]
  }

  lemma EscapedText(word: string)
    requires '{' !in word && '}' !in word
    ensures Unparse(EscapedPieces(word)) == "{context}" + "{{" + word + "}}"
  {
    LitsText(word, "", "");
    UnparseAppend([ContextField, Lit('{')] + Lits(word), [Lit('}')]);
    UnparseAppend([ContextField, Lit('{')], Lits(word));
    assert Unparse([Lit('}')]) == "}}";
    UnparseCons(ContextField, [Lit('{')]);
    assert Unparse([Lit('{')]) == "{{";
  }

  lemma EscapedRender(word: string, context: string, prompt: string)
    requires '{' !in word && '}' !in word
    ensures Render(EscapedPieces(word), context, prompt) == context + "{" + word + "}"
  {
    LitsText(word, context, prompt);
    RenderAppend([ContextField, Lit('{')] + Lits(word), [Lit('}')], context, prompt);
    RenderAppend([ContextField, Lit('{')], Lits(word), context, prompt);
    assert Render([Lit('}')], context, prompt) == "}";
    assert [ContextField, Lit('{')][1..] == [Lit('{')];
    assert Render([Lit('{')], context, prompt) == "{";
  }

  lemma EscapedHasBothTexts()
    ensures !UsesDefault(EscapedTemplate)
  {
    var t := EscapedTemplate;
    assert t[0..9] == "{context}";
    PyStr.ContainsAt(t, "{context}", 0);
    assert t[10..18] == "{prompt}";
    PyStr.ContainsAt(t, "{prompt}", 10);
  }

  /** Text without the character does not contain it. */
  lemma {:induction false} NotContainsChar(s: string, c: char)
    requires c !in s
    ensures !PyStr.Contains(s, [c])
    decreases |s|
  {
    if |s| > 0 {
      assert s[..1][0] == s[0];
      assert c !in s[1..];
      NotContainsChar(s[1..], c);
    }
  }

  /** An escaped field is no field: a template whose `{prompt}` text only
      appears inside `{{prompt}}` is used as it is, and the merged text holds
      the literal word in braces instead of the prompt. */
  lemma EscapedPromptIsDropped(prompt: string, context: string)
    requires !PyStr.IsBlank(context)
    ensures !UsesDefault(EscapedTemplate)
    ensures MergePrompt(prompt, context, EscapedTemplate) == Ok(context + "{" + "prompt" + "}")
  {
    EscapedHasBothTexts();
    EscapedText("prompt");
    ParseUnparse(EscapedPieces("prompt"));
    EscapedRender("prompt", context, prompt);
  }

  /** So the prompt itself can be lost from the merged text. */
  lemma EscapedPromptLost()
    ensures MergePrompt("P", "C", EscapedTemplate).Ok?
    ensures !PyStr.Contains(MergePrompt("P", "C", EscapedTemplate).value, "P")
  {
    PyStr.StripPlain("C");
    EscapedPromptIsDropped("P", "C");
    NotContainsChar("C" + "{" + "prompt" + "}", 'P');
  }

  // ------------------------------------------------------------------ resume ids

  /** One line of a progress file, already parsed: blank, not JSON, or a JSON value. */
  datatype ProgressLine = BlankLine | BadLine | Parsed(value: Value)

  /** A progress line `load_resume_ids` raises on: a JSON value other than an
      object has no `.get`, and a truthy list or dict id cannot be a key. */
  predicate Unreadable(line: ProgressLine) {
    line.Parsed? && (!line.value.Object? || (ProgressId(line.value).Some? && !Hashable(ProgressId(line.value).value)))
  }

  /** `load_resume_ids` over the parsed lines: the last success flag of every
      truthy id, keeping only successes when `resumeFailed`. */
  function ResumeIds(lines: seq<ProgressLine>, resumeFailed: bool): (r: Result<Dicts.Dict<Value, bool>>)
    ensures r.Err? <==> exists i :: 0 <= i < |lines| && Unreadable(lines[i])
    ensures r.Ok? ==> forall k :: k in r.value.keys ==> Dicts.Get(SeenIds(lines).value, k).Some?
    ensures r.Ok? && resumeFailed ==> forall k :: k in r.value.keys ==> r.value.entries[k]
    ensures r.Ok? && !resumeFailed ==> r.value == SeenIds(lines).value
  {
    match SeenIds(lines)
    case Err(e) => Err(e)
    case Ok(seen) => if resumeFailed then Ok(OnlySucceeded(seen)) else Ok(seen)
  }

  /** The id a progress object records, when it is truthy. */
  function ProgressId(obj: Value): Option<Value> {
    var id := GetOrNull(obj, "id");
    if Truthy(id) then Some(id) else None
  }

  /** The `seen` mapping of `load_resume_ids`, line by line. */
  function SeenIds(lines: seq<ProgressLine>): (r: Result<Dicts.Dict<Value, bool>>)
    ensures r.Err? <==> exists i :: 0 <= i < |lines| && Unreadable(lines[i])
    ensures r.Ok? ==> forall k :: k in r.value.keys ==> Hashable(k)
    ensures r.Ok? ==> forall k :: k in r.value.keys <==>
      exists i :: 0 <= i < |lines| && lines[i].Parsed? && ProgressId(lines[i].value) == Some(k)
    decreases |lines|
  {
    if |lines| == 0 then Ok(Dicts.Empty())
    else
      var prev := lines[..|lines| - 1];
      var last := lines[|lines| - 1];
      assert forall i :: 0 <= i < |lines| - 1 ==> lines[i] == prev[i];
      match SeenIds(prev)
      case Err(e) => Err(e)
      case Ok(seen) =>
        if !last.Parsed? then Ok(seen)
        else if !last.value.Object? then Err("progress line is not an object")
        else
          match ProgressId(last.value)
          case None => Ok(seen)
          case Some(id) =>
            if !Hashable(id) then Err("unhashable type: '" + TypeName(id) + "'")
            else Ok(Dicts.Put(seen, id, Truthy(GetOrNull(last.value, "success"))))
  }

  /** The line is a progress object recording `id`. */
  predicate Records(line: ProgressLine, id: Value) {
    line.Parsed? && ProgressId(line.value) == Some(id)
  }

  /** What one more line does to the entry of `id`: a line recording it sets
      its flag, any other line leaves it alone. */
  lemma SeenStep(lines: seq<ProgressLine>, id: Value)
    requires |lines| > 0 && SeenIds(lines).Ok?
    ensures SeenIds(lines[..|lines| - 1]).Ok?
    ensures Dicts.Get(SeenIds(lines).value, id) ==
      if Records(lines[|lines| - 1], id) then Some(Truthy(GetOrNull(lines[|lines| - 1].value, "success")))
      else Dicts.Get(SeenIds(lines[..|lines| - 1]).value, id)
  {
  }

  /** The last line recording an id decides whether it counts as succeeded. */
  lemma {:induction false} SeenLastWins(lines: seq<ProgressLine>, i: nat, id: Value)
    requires i < |lines| && Records(lines[i], id)
    requires forall j :: i < j < |lines| ==> !Records(lines[j], id)
    requires SeenIds(lines).Ok?
    ensures Dicts.Get(SeenIds(lines).value, id) == Some(Truthy(GetOrNull(lines[i].value, "success")))
    decreases |lines|
  {
    var prev := lines[..|lines| - 1];
    SeenStep(lines, id);
    if i < |lines| - 1 {
      assert forall j :: i < j < |prev| ==> prev[j] == lines[j];
      assert prev[i] == lines[i];
      SeenLastWins(prev, i, id);
    }
  }

  /** `{k: v for k, v in seen.items() if v is True}`, keeping the order. */
  function OnlySucceeded(d: Dicts.Dict<Value, bool>): (r: Dicts.Dict<Value, bool>)
    ensures forall k :: k in r.keys <==> k in d.keys && d.entries[k]
    ensures forall k :: k in r.keys ==> r.entries[k]
    decreases |d.keys|
  {
    if |d.keys| == 0 then Dicts.Empty()
    else
      var k := d.keys[|d.keys| - 1];
      var rest := Dicts.DropLast(d);
      var r := OnlySucceeded(rest);
      if d.entries[k] then Dicts.Put(r, k, true) else r
  }

  // ------------------------------------------------------------------ exit code

  /** `exit_code_for_results`: zero when failures are tolerated or all succeeded. */
  function ExitCodeForResults(results: seq<TaskResult>, noFail: bool): (r: int)
    ensures r == 0 || r == 1
    ensures r == 0 <==> noFail || forall i :: 0 <= i < |results| ==> results[i].success
  {
    if noFail then 0
    else if forall i :: 0 <= i < |results| ==> results[i].success then 0
    else 1
  }
}
