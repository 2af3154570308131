/** Generation of one multiple-choice question with the Phi-3 model
    (api/services/mcq_generator.py): the prompt, the extraction of the JSON
    object from the model's answer, and the checks and rewriting applied to
    the parsed object. The model and `json.loads` are parameters. */
module McqGenerator {
  import opened Strings
  import opened Values

  // ---------------------------------------------------------------------
  // clean_json_output
  // ---------------------------------------------------------------------

  /** Is there a `{` followed, somewhere later, by a `}`? This is when the
      pattern `\{.*\}` (with `re.DOTALL`) matches. */
  predicate HasBraces(text: string) {
    exists i, j :: 0 <= i < j < |text| && text[i] == '{' && text[j] == '}'
  }

  /** `clean_json_output(text)` of lines 37-45: the span from the first `{`
      through the last `}` when the pattern matches, the text unchanged
      otherwise. The leftmost match of the greedy pattern starts at the
      first `{` (if any `{` has a `}` after it, the first one does) and
      extends to the last `}`. */
  function CleanJsonOutput(text: string): (r: string)
    ensures |r| <= |text|
  {
    var first := IndexOf(text, '{');
    var last := LastIndexOf(text, '}');
    if 0 <= first < last then text[first..last + 1] else text
  }

  /** With a `{` before a `}`, the result is the span from the first `{`
      (`IndexOf`) through the last `}` (`LastIndexOf`), both included. */
  lemma CleanJsonOutputSpan(text: string)
    requires HasBraces(text)
    ensures 0 <= IndexOf(text, '{') < LastIndexOf(text, '}')
    ensures CleanJsonOutput(text) == text[IndexOf(text, '{')..LastIndexOf(text, '}') + 1]
  {
    var i, j :| 0 <= i < j < |text| && text[i] == '{' && text[j] == '}';
    IndexOfAtMost(text, '{', i);
    LastIndexOfAtLeast(text, '}', j);
    CleanJsonOutputCut(text);
  }

  lemma CleanJsonOutputCut(text: string)
    requires 0 <= IndexOf(text, '{') < LastIndexOf(text, '}')
    ensures CleanJsonOutput(text) == text[IndexOf(text, '{')..LastIndexOf(text, '}') + 1]
  {
  }

  /** Without a `{` before a `}`, the text comes back unchanged. */
  lemma CleanJsonOutputNoMatch(text: string)
    requires !HasBraces(text)
    ensures CleanJsonOutput(text) == text
  {
    var first := IndexOf(text, '{');
    var last := LastIndexOf(text, '}');
    if 0 <= first < last {
      assert false;
    }
  }

  /** The result is always a contiguous piece of the input. */
  lemma CleanJsonOutputIsSubstring(text: string)
    ensures exists a, b :: 0 <= a <= b <= |text| && CleanJsonOutput(text) == text[a..b]
  {
    var first := IndexOf(text, '{');
    var last := LastIndexOf(text, '}');
    if 0 <= first < last {
      assert CleanJsonOutput(text) == text[first..last + 1];
    } else {
      assert CleanJsonOutput(text) == text[0..|text|];
    }
  }

  /** A text that opens with `{` and closes with `}` is already clean. */
  lemma CleanJsonOutputOfSpan(r: string)
    requires |r| >= 2 && r[0] == '{' && r[|r| - 1] == '}'
    ensures CleanJsonOutput(r) == r
  {
    IndexOfFirst(r, '{');
    LastIndexOfFinal(r, '}');
    assert r[0..|r|] == r;
  }

  /** Cleaning twice is cleaning once. */
  lemma CleanJsonOutputIdempotent(text: string)
    ensures CleanJsonOutput(CleanJsonOutput(text)) == CleanJsonOutput(text)
  {
    var first := IndexOf(text, '{');
    var last := LastIndexOf(text, '}');
    if 0 <= first < last {
      CleanJsonOutputCut(text);
      var r := text[first..last + 1];
      assert r[0] == text[first] && r[|r| - 1] == text[last];
      CleanJsonOutputOfSpan(r);
    }
  }

  // ---------------------------------------------------------------------
  // build_prompt
  // ---------------------------------------------------------------------

  /** The first tag of the template. */
  const SystemTag: string := "<|system|>"

  /** The last tag of the template. */
  const AssistantTag: string := "<|assistant|>"

  /** The template of lines 51-77 from the system tag up to the lecture
      chunk. */
  const PromptBody: string := SystemTag + Instructions

  /** The lines of the template between the system tag and the chunk. */
  const Instructions: string :=
    "\n"
    + "You are an AI model that generates strictly valid JSON outputs for multiple-choice questions.\n"
    + "Never include explanations or any text outside the JSON object.\n"
    + "<|end|>\n"
    + "\n"
    + "<|user|>\n"
    + "Generate one multiple-choice question (MCQ) from the given lecture text chunk.\n"
    + "\n"
    + "Your output must be valid JSON with the following fields:\n"
    + "- question\n"
    + "- options (exactly 4 strings)\n"
    + "- correct (index 0-3)\n"
    + "- difficulty (Easy, Medium, Hard)\n"
    + "- time_secs (integer)\n"
    + "\n"
    + "The MCQ must match the requested difficulty.\n"
    + "Provide only the JSON object.\n"
    + "\n"
    + "Lecture Chunk:\n"

  /** The template between the chunk and the difficulty. */
  const PromptMiddle: string := "\n\nDifficulty: "

  /** The template after the difficulty, up to the assistant tag. */
  const TailBody: string := "\n<|end|>\n\n" + AssistantTag

  /** The template filled in with the chunk and the difficulty, without
      its opening and closing line breaks. */
  function FilledTemplate(lectureChunk: string, difficulty: string): string {
    PromptBody + lectureChunk + PromptMiddle + difficulty + TailBody
  }

  /** `build_prompt(lecture_chunk, difficulty)`: the template, which opens
      and closes with a line break, filled in and stripped. */
  function BuildPrompt(lectureChunk: string, difficulty: string): string {
    Strip("\n" + FilledTemplate(lectureChunk, difficulty) + "\n")
  }

  /** Where each of five concatenated pieces sits in the whole. */
  lemma ConcatPieces(a: string, b: string, c: string, d: string, e: string)
    ensures var x := a + b + c + d + e;
      && x[..|a|] == a
      && x[|a|..|a| + |b|] == b
      && x[|a| + |b| + |c|..|a| + |b| + |c| + |d|] == d
      && x[|x| - |e|..] == e
  {
  }

  /** The filled template starts with the system tag. */
  lemma FilledTemplateStarts(lectureChunk: string, difficulty: string)
    ensures StartsWith(FilledTemplate(lectureChunk, difficulty), SystemTag)
  {
    var x := FilledTemplate(lectureChunk, difficulty);
    ConcatPieces(PromptBody, lectureChunk, PromptMiddle, difficulty, TailBody);
    assert x[..|SystemTag|] == x[..|PromptBody|][..|SystemTag|];
  }

  /** The filled template ends with the assistant tag. */
  lemma FilledTemplateEnds(lectureChunk: string, difficulty: string)
    ensures var x := FilledTemplate(lectureChunk, difficulty);
      |x| >= |AssistantTag| && x[|x| - |AssistantTag|..] == AssistantTag
  {
    var x := FilledTemplate(lectureChunk, difficulty);
    var p := PromptBody + lectureChunk + PromptMiddle + difficulty + "\n<|end|>\n\n";
    assert x == p + AssistantTag;
    SuffixOfConcat(p, AssistantTag);
  }

  lemma SuffixOfConcat(p: string, e: string)
    ensures (p + e)[|p + e| - |e|..] == e
  {
  }

  /** The filled template holds the chunk verbatim right after
      "Lecture Chunk:" and the difficulty right after "Difficulty: ". */
  lemma FilledTemplateHolds(lectureChunk: string, difficulty: string)
    ensures var x := FilledTemplate(lectureChunk, difficulty);
      var c := |PromptBody| + |lectureChunk|;
      && x[|PromptBody|..c] == lectureChunk
      && x[c + |PromptMiddle|..c + |PromptMiddle| + |difficulty|] == difficulty
  {
    ConcatPieces(PromptBody, lectureChunk, PromptMiddle, difficulty, TailBody);
  }

  /** The strip removes exactly the template's leading and trailing line
      break, whatever the chunk and the difficulty, so the prompt is the
      filled template itself. */
  lemma BuildPromptShape(lectureChunk: string, difficulty: string)
    ensures BuildPrompt(lectureChunk, difficulty) == FilledTemplate(lectureChunk, difficulty)
  {
    var x := FilledTemplate(lectureChunk, difficulty);
    FilledTemplateStarts(lectureChunk, difficulty);
    FilledTemplateEnds(lectureChunk, difficulty);
    assert x[0] == SystemTag[0];
    assert x[|x| - 1] == AssistantTag[|AssistantTag| - 1];
    StripWrapped(x);
  }

  // ---------------------------------------------------------------------
  // generate_mcq_phi3
  // ---------------------------------------------------------------------

  /** `chr(65 + idx)` for an index 0-3: the option letter. */
  function Letter(idx: int): (c: char)
    requires 0 <= idx <= 3
    ensures 'A' <= c <= 'D'
  {
    (65 + idx) as char
  }

  /** The option letters name the four indices one-to-one. */
  lemma LetterInjective(i: int, j: int)
    requires 0 <= i <= 3 && 0 <= j <= 3
    ensures Letter(i) == Letter(j) <==> i == j
  {
  }

  /** `isinstance(idx, int) and 0 <= idx <= 3`, with a JSON boolean counting
      as the integer 0 or 1. */
  function AsIndex(j: Json): Option<int> {
    match j
    case JInt(i) => if 0 <= i <= 3 then Some(i) else None
    case JBool(b) => Some(if b then 1 else 0)
    case _ => None
  }

  /** The options list of four becomes the mapping from letter to option. */
  function OptionsByLetter(opts: seq<Json>): Json
    requires |opts| == 4
  {
    JObject(map["A" := opts[0], "B" := opts[1], "C" := opts[2], "D" := opts[3]])
  }

  /** Does the parsed value pass the check of line 102: a dictionary with an
      `"options"` list of exactly four entries? Any other JSON value is
      rejected, either by the check or by the `TypeError` that `in` or the
      subscript raises on it, which line 122 turns into `None`. */
  predicate Acceptable(data: Json) {
    data.JObject? && "options" in data.fields && data.fields["options"].JArray?
    && |data.fields["options"].items| == 4
  }

  /** Lines 101-125 after `json.loads`: an acceptable object gets its
      `correct` index rewritten to a letter and its options list rewritten
      to a mapping from letter to option; anything else gives `None`. */
  function NormaliseMcq(data: Json): (r: Option<Dict>)
    ensures r.Some? <==> Acceptable(data)
  {
    if !Acceptable(data) then None
    else
      var d := data.fields;
      var withCorrect :=
        if "correct" in d && AsIndex(d["correct"]).Some?
        then d["correct" := JString([Letter(AsIndex(d["correct"]).value)])]
        else d;
      Some(withCorrect["options" := OptionsByLetter(d["options"].items)])
  }

  /** An accepted question has its four options under the letters A-D, in
      order. */
  lemma NormaliseOptions(data: Json)
    requires Acceptable(data)
    ensures var r := NormaliseMcq(data).value;
      var opts := data.fields["options"].items;
      && "options" in r
      && r["options"] == JObject(map["A" := opts[0], "B" := opts[1], "C" := opts[2], "D" := opts[3]])
  {
  }

  /** An integer `correct` from 0 to 3 (or a boolean) becomes its letter;
      any other `correct` is kept as it is, and a missing one stays missing. */
  lemma NormaliseCorrect(data: Json)
    requires Acceptable(data)
    ensures var d := data.fields; var r := NormaliseMcq(data).value;
      && ("correct" in r <==> "correct" in d)
      && ("correct" in d && d["correct"].JInt? && 0 <= d["correct"].i <= 3 ==>
            r["correct"] == JString([(65 + d["correct"].i) as char]))
      && ("correct" in d && d["correct"] == JBool(true) ==> r["correct"] == JString("B"))
      && ("correct" in d && d["correct"] == JBool(false) ==> r["correct"] == JString("A"))
      && ("correct" in d && !d["correct"].JBool? && !(d["correct"].JInt? && 0 <= d["correct"].i <= 3) ==>
            r["correct"] == d["correct"])
  {
  }

  /** Every other key, `question`, `difficulty` and `time_secs` included, is
      passed through untouched, and no key is added or required. */
  lemma NormalisePassThrough(data: Json)
    requires Acceptable(data)
    ensures var d := data.fields; var r := NormaliseMcq(data).value;
      && r.Keys == d.Keys
      && forall k :: k in d && k != "options" && k != "correct" ==> r[k] == d[k]
  {
  }

  /** Lines 94-125 of `generate_mcq_phi3`: the model's answer stripped,
      its JSON object cut out and decoded by `parse` (`None` for a decode
      error), then checked and normalised. */
  function ReadAnswer(answer: string, parse: string -> Option<Json>): (r: Option<Dict>)
    ensures r.Some? ==> "options" in r.value && r.value["options"].JObject?
  {
    match parse(CleanJsonOutput(Strip(answer)))
    case None => None
    case Some(data) => NormaliseMcq(data)
  }

  /** A question comes back exactly when the JSON cut out of the stripped
      answer decodes to an acceptable object, and it is that object
      normalised. */
  lemma ReadAnswerAccepts(answer: string, parse: string -> Option<Json>)
    ensures var parsed := parse(CleanJsonOutput(Strip(answer)));
      && (ReadAnswer(answer, parse).Some? <==> parsed.Some? && Acceptable(parsed.value))
      && (parsed.Some? && Acceptable(parsed.value) ==> ReadAnswer(answer, parse) == NormaliseMcq(parsed.value))
  {
  }

  /** `generate_mcq_phi3(context_chunk, difficulty)` of lines 79-125. The
      loaded model is `model`, from the prompt to the text of its first
      choice. */
  function GenerateMcqPhi3(contextChunk: string, difficulty: string,
                           model: string -> string, parse: string -> Option<Json>): Option<Dict>
  {
    ReadAnswer(model(BuildPrompt(contextChunk, difficulty)), parse)
  }
}
