/** Quiz generation (api/services/quiz_generation_service.py): the preview
    loop that gathers library questions and generated ones, the
    finalisation that stores a quiz, its questions and new library
    entries, and their composition. The language model, the JSON decoder,
    the embedding model and the float arithmetic of the search are
    oracles. */
module QuizGenerationService {
  import opened Strings
  import opened Values
  import opened Database
  import SearchService
  import McqGenerator

  /** An exception leaving the service. */
  datatype Failure =
    | Http(error: HttpError)                           // an `HTTPException`
    | KeyError(key: string)                            // a missing dictionary key
    | TypeError                                        // a value of the wrong type subscripted or summed
    | SearchFailed(reason: SearchService.SearchError)  // numpy raising inside the search

  /** The oracles behind one request: the sentence embedding of the query,
      the float arithmetic of the similarity, the Phi-3 model's answer on
      its n-th call to the prompt `build_prompt` makes from a chunk and a
      difficulty, and the JSON decoder. */
  datatype Oracles = Oracles(
    embed: string -> Option<Bytes>,
    ops: SearchService.FloatOps,
    answer: (nat, string, string) -> string,
    parse: string -> Option<Json>)

  /** The `call`-th call of `generate_mcq_phi3(chunk_text, level)`. */
  function Generate(o: Oracles, call: nat, chunkText: string, level: string): Option<Dict> {
    McqGenerator.ReadAnswer(o.answer(call, chunkText, level), o.parse)
  }

  /** The question generator as the loop sees it: from the call number, the
      chunk text and the level to the question, if any. */
  type Generator = (nat, string, string) -> Option<Dict>

  /** The generator of a request's oracles. */
  function GeneratorOf(o: Oracles): (gen: Generator)
    ensures forall call, chunkText, level :: gen(call, chunkText, level) == Generate(o, call, chunkText, level)
  {
    (call: nat, chunkText: string, level: string) => Generate(o, call, chunkText, level)
  }

  /** A call of the generator is `generate_mcq_phi3` on the chunk and the
      level, whatever the model answers to the prompt. */
  lemma GenerateIsGenerateMcqPhi3(o: Oracles, call: nat, chunkText: string, level: string,
                                  llm: string -> string)
    requires llm(McqGenerator.BuildPrompt(chunkText, level)) == o.answer(call, chunkText, level)
    ensures Generate(o, call, chunkText, level) == McqGenerator.GenerateMcqPhi3(chunkText, level, llm, o.parse)
  {
  }

  // ---------------------------------------------------------------------
  // Python equality on JSON values
  // ---------------------------------------------------------------------

  /** The number a JSON scalar stands for in Python (`True == 1 == 1.0`). */
  function NumericValue(j: Json): Option<real> {
    match j
    case JBool(b) => Some(if b then 1.0 else 0.0)
    case JInt(i) => Some(i as real)
    case JFloat(f) => Some(f)
    case _ => None
  }

  /** `a == b` in Python: numbers compare by value across `bool`, `int`
      and `float`; everything else structurally. */
  predicate PyEq(a: Json, b: Json) {
    if NumericValue(a).Some? && NumericValue(b).Some?
    then NumericValue(a).value == NumericValue(b).value
    else a == b
  }

  // ---------------------------------------------------------------------
  // The parts of generate_questions_preview
  // ---------------------------------------------------------------------

  /** Lines 64-70: the per-level targets, in the dictionary's order. A
      missing `difficulty_dict` and an empty one are both falsy. */
  function Targets(difficultyDict: seq<(string, int)>, difficulty: string, numQuestions: int): seq<(string, int)> {
    if difficultyDict != [] then difficultyDict else [(difficulty, numQuestions)]
  }

  /** Does the question's own `difficulty` field equal the level
      (`q.get('difficulty') == diff_level`)? */
  predicate HasLevel(q: Dict, level: string) {
    "difficulty" in q && q["difficulty"] == JString(level)
  }

  /** Line 105: how many accumulated questions carry the level. */
  function CountLevel(qs: seq<Dict>, level: string): (n: nat)
    ensures n <= |qs|
    ensures n == 0 <==> forall i :: 0 <= i < |qs| ==> !HasLevel(qs[i], level)
  {
    if qs == [] then 0
    else CountLevel(qs[..|qs| - 1], level) + (if HasLevel(qs[|qs| - 1], level) then 1 else 0)
  }

  /** Lines 78-89: a selected library row as a question dictionary; a falsy
      `time_secs` becomes 60. */
  function LibraryQuestion(e: LibraryEntry): (q: Dict)
    ensures q.Keys == {"question", "options", "correct", "difficulty", "time_secs"}
    ensures q["question"] == e.questionText && q["difficulty"] == e.difficulty
    ensures JsonTruthy(q["time_secs"])
  {
    map[
      "question" := e.questionText,
      "options" := JObject(map["A" := e.optionA, "B" := e.optionB, "C" := e.optionC, "D" := e.optionD]),
      "correct" := e.correctOption,
      "difficulty" := e.difficulty,
      "time_secs" := if JsonTruthy(e.timeSecs) then e.timeSecs else JInt(60)]
  }

  /** Lines 75-90: the library rows whose id was selected, in table order,
      each once, as question dictionaries. No selection gives none. */
  function SeedQuestions(library: seq<LibraryEntry>, selectedIds: seq<int>): (qs: seq<Dict>)
    ensures |qs| <= |library|
    ensures forall q :: q in qs <==> exists e :: e in library && e.id in selectedIds && q == LibraryQuestion(e)
  {
    if library == [] then []
    else
      var init := SeedQuestions(library[..|library| - 1], selectedIds);
      var e := library[|library| - 1];
      assert forall x :: x in library <==> x in library[..|library| - 1] || x == e;
      if e.id in selectedIds then init + [LibraryQuestion(e)] else init
  }

  /** Does no accumulated question have the same text as `mcq`? Every
      accumulated one (and `mcq`, when there is one before it) must carry a
      `question` key for the comparison to be made. */
  predicate NoSameQuestion(qs: seq<Dict>, mcq: Dict) {
    forall i :: 0 <= i < |qs| ==>
      "question" in qs[i] && "question" in mcq && !PyEq(qs[i]["question"], mcq["question"])
  }

  /** Line 124, `any(q['question'] == mcq['question'] for q in
      generated_questions)`: scans in order, raising `KeyError` at the first
      comparison that lacks a key, and stops at the first equal text. */
  function AnySameQuestion(qs: seq<Dict>, mcq: Dict): (r: Result<bool, Failure>)
    ensures r == Ok(false) <==> NoSameQuestion(qs, mcq)
    ensures r == Ok(true) ==> "question" in mcq && exists i :: 0 <= i < |qs| && "question" in qs[i] && PyEq(qs[i]["question"], mcq["question"])
    ensures r.Err? ==> r.error == KeyError("question")
  {
    if qs == [] then Ok(false)
    else if "question" !in qs[0] || "question" !in mcq then Err(KeyError("question"))
    else if PyEq(qs[0]["question"], mcq["question"]) then Ok(true)
    else
      assert forall i :: 1 <= i < |qs| ==> qs[i] == qs[1..][i - 1];
      AnySameQuestion(qs[1..], mcq)
  }

  // ---------------------------------------------------------------------
  // The generation loop as a reference definition
  // ---------------------------------------------------------------------

  /** Where a generated question came from: the generator call that
      produced it, the position of the chunk it was given and the level it
      was asked for. */
  datatype Origin = Origin(call: nat, chunk: nat, level: string)

  /** The loop's state: the accumulated questions, the chunk cursor
      (`chunk_index`), the number of generator calls made so far, and the
      origin of each generated question. */
  datatype Progress = Progress(questions: seq<Dict>, chunkIndex: nat, calls: nat, origins: seq<Origin>)

  /** One pass of the loop body (lines 116-131): ask the generator about the
      chunk under the cursor; keep the answer when it is a question whose
      text is new, and then advance the cursor. The flag says whether it was
      kept. A returned dictionary is never empty (it has `options`), so
      `if mcq:` tests only for `None`. */
  function Attempt(p: Progress, top: seq<ChunkRow>, level: string, gen: Generator): (r: Result<(Progress, bool), Failure>)
    requires top != []
    ensures r.Ok? ==> r.value.0.calls == p.calls + 1
    ensures r.Ok? && !r.value.1 ==> r.value.0 == p.(calls := p.calls + 1)
    ensures r.Ok? && r.value.1 ==>
      && r.value.0.chunkIndex == p.chunkIndex + 1
      && |r.value.0.questions| == |p.questions| + 1 && r.value.0.questions[..|p.questions|] == p.questions
      && r.value.0.origins == p.origins + [Origin(p.calls, p.chunkIndex % |top|, level)]
      && NoSameQuestion(p.questions, r.value.0.questions[|p.questions|])
      && gen(p.calls, top[p.chunkIndex % |top|].text, level) == Some(r.value.0.questions[|p.questions|])
  {
    var pos := p.chunkIndex % |top|;
    var tried := p.(calls := p.calls + 1);
    match gen(p.calls, top[pos].text, level)
    case None => Ok((tried, false))
    case Some(mcq) =>
      match AnySameQuestion(p.questions, mcq)
      case Err(e) => Err(e)
      case Ok(dup) =>
        if dup then Ok((tried, false))
        else Ok((Progress(p.questions + [mcq], p.chunkIndex + 1, p.calls + 1,
                          p.origins + [Origin(p.calls, pos, level)]), true))
  }

  /** The `while` loop of lines 114-131 from `made` questions and `retries`
      failures onward, for one level needing `needed` questions. */
  function FillLevel(p: Progress, top: seq<ChunkRow>, level: string, needed: int, made: nat, retries: nat,
                     gen: Generator): Result<Progress, Failure>
    requires top != []
    decreases (needed - made) + (3 * needed - retries)
  {
    if made < needed && retries < 3 * needed then
      match Attempt(p, top, level, gen)
      case Err(e) => Err(e)
      case Ok((next, kept)) =>
        if kept then FillLevel(next, top, level, needed, made + 1, retries, gen)
        else FillLevel(next, top, level, needed, made, retries + 1, gen)
    else Ok(p)
  }

  /** The body of the `for` loop of line 96 for one level: the shortfall
      against the questions already accumulated, then the retry loop. */
  function LevelRound(p: Progress, top: seq<ChunkRow>, level: string, count: int, gen: Generator): Result<Progress, Failure>
    requires top != []
  {
    var needed := count - CountLevel(p.questions, level);
    if needed <= 0 then Ok(p) else FillLevel(p, top, level, needed, 0, 0, gen)
  }

  /** The `for` loop of line 96 over the remaining targets. */
  function FillAll(p: Progress, top: seq<ChunkRow>, targets: seq<(string, int)>, gen: Generator): Result<Progress, Failure>
    requires top != []
    decreases |targets|
  {
    if targets == [] then Ok(p)
    else match LevelRound(p, top, targets[0].0, targets[0].1, gen)
      case Err(e) => Err(e)
      case Ok(next) => FillAll(next, top, targets[1..], gen)
  }

  // ---------------------------------------------------------------------
  // What the loop guarantees
  // ---------------------------------------------------------------------

  /** `q` continues `p`: the questions and origins so far are kept as a
      prefix and no call is taken back. */
  predicate Extends(p: Progress, q: Progress) {
    && |p.questions| <= |q.questions| && q.questions[..|p.questions|] == p.questions
    && |p.origins| <= |q.origins| && q.origins[..|p.origins|] == p.origins
    && p.calls <= q.calls
  }

  /** The quota of one level's loop, entered with `made` questions and
      `retries` failures: when it runs, it adds at most `needed - made`
      questions and makes fewer calls than the two allowances together;
      when it does not run, it adds nothing and makes no call. */
  predicate WithinQuota(p: Progress, q: Progress, needed: int, made: nat, retries: nat) {
    if made < needed && retries < 3 * needed
    then |q.questions| - |p.questions| <= needed - made
         && q.calls - p.calls < (needed - made) + (3 * needed - retries)
    else |q.questions| == |p.questions| && q.calls == p.calls
  }

  /** Continuing a continuation continues the start. */
  lemma ExtendsTrans(p: Progress, q: Progress, r: Progress)
    requires Extends(p, q) && Extends(q, r)
    ensures Extends(p, r)
  {
    assert r.questions[..|p.questions|] == r.questions[..|q.questions|][..|p.questions|];
    assert r.origins[..|p.origins|] == r.origins[..|q.origins|][..|p.origins|];
  }

  /** One turn of the loop, unfolded. */
  lemma FillLevelStep(p: Progress, top: seq<ChunkRow>, level: string, needed: int, made: nat, retries: nat,
                      gen: Generator)
    requires top != [] && made < needed && retries < 3 * needed
    requires Attempt(p, top, level, gen).Ok?
    ensures Attempt(p, top, level, gen).value.1 ==>
      FillLevel(p, top, level, needed, made, retries, gen)
        == FillLevel(Attempt(p, top, level, gen).value.0, top, level, needed, made + 1, retries, gen)
    ensures !Attempt(p, top, level, gen).value.1 ==>
      FillLevel(p, top, level, needed, made, retries, gen)
        == FillLevel(Attempt(p, top, level, gen).value.0, top, level, needed, made, retries + 1, gen)
  {
  }

  /** The loop keeps what it has. */
  lemma {:induction false} FillLevelExtends(p: Progress, top: seq<ChunkRow>, level: string, needed: int,
                                            made: nat, retries: nat, gen: Generator)
    requires top != []
    requires FillLevel(p, top, level, needed, made, retries, gen).Ok?
    ensures Extends(p, FillLevel(p, top, level, needed, made, retries, gen).value)
    decreases (needed - made) + (3 * needed - retries)
  {
    var r := FillLevel(p, top, level, needed, made, retries, gen);
    if made < needed && retries < 3 * needed {
      var next := Attempt(p, top, level, gen).value.0;
      assert Extends(p, next);
      FillLevelStep(p, top, level, needed, made, retries, gen);
      if Attempt(p, top, level, gen).value.1 {
        FillLevelExtends(next, top, level, needed, made + 1, retries, gen);
        assert Extends(next, r.value);
      } else {
        FillLevelExtends(next, top, level, needed, made, retries + 1, gen);
        assert Extends(next, r.value);
      }
      ExtendsTrans(p, next, r.value);
    }
  }

  /** The loop stays within its quota. */
  lemma {:induction false} FillLevelBounds(p: Progress, top: seq<ChunkRow>, level: string, needed: int,
                                           made: nat, retries: nat, gen: Generator)
    requires top != []
    requires FillLevel(p, top, level, needed, made, retries, gen).Ok?
    ensures WithinQuota(p, FillLevel(p, top, level, needed, made, retries, gen).value, needed, made, retries)
    decreases (needed - made) + (3 * needed - retries)
  {
    var r := FillLevel(p, top, level, needed, made, retries, gen).value;
    if made < needed && retries < 3 * needed {
      var next := Attempt(p, top, level, gen).value.0;
      assert next.calls == p.calls + 1;
      FillLevelStep(p, top, level, needed, made, retries, gen);
      if Attempt(p, top, level, gen).value.1 {
        assert |next.questions| == |p.questions| + 1;
        FillLevelBounds(next, top, level, needed, made + 1, retries, gen);
      } else {
        assert |next.questions| == |p.questions|;
        FillLevelBounds(next, top, level, needed, made, retries + 1, gen);
      }
    }
  }

  /** Per level (lines 105-131): a level already met by the accumulated
      questions, library ones and ones generated for earlier levels
      included, makes no generator call; otherwise at most `needed`
      questions are added with fewer than `4 * needed` calls. */
  lemma LevelRoundQuota(p: Progress, top: seq<ChunkRow>, level: string, count: int, gen: Generator)
    requires top != []
    ensures var needed := count - CountLevel(p.questions, level);
      && (needed <= 0 ==> LevelRound(p, top, level, count, gen) == Ok(p))
      && (needed > 0 && LevelRound(p, top, level, count, gen).Ok? ==>
            var q := LevelRound(p, top, level, count, gen).value;
            && |p.questions| <= |q.questions| && q.questions[..|p.questions|] == p.questions
            && |q.questions| - |p.questions| <= needed
            && q.calls - p.calls < 4 * needed)
  {
    var needed := count - CountLevel(p.questions, level);
    if needed > 0 && LevelRound(p, top, level, count, gen).Ok? {
      FillLevelBounds(p, top, level, needed, 0, 0, gen);
      FillLevelExtends(p, top, level, needed, 0, 0, gen);
    }
  }

  /** Generated question number `n` (counting from the first one after the
      library questions) was produced by the generator on the chunk at
      position `n % |top|` for the level and call its origin names. */
  predicate Produced(gen: Generator, top: seq<ChunkRow>, origin: Origin, n: nat, q: Dict) {
    && |top| > 0 && origin.chunk == n % |top|
    && gen(origin.call, top[origin.chunk].text, origin.level) == Some(q)
  }

  /** Origins in generation order: the calls that produced them increase. */
  predicate CallsIncrease(origins: seq<Origin>) {
    forall n :: 0 <= n < |origins| - 1 ==> origins[n].call < origins[n + 1].call
  }

  /** Every generated question after `seedLen` library questions has the
      origin recorded at its place. */
  predicate AllProduced(questions: seq<Dict>, origins: seq<Origin>, seedLen: nat, top: seq<ChunkRow>, gen: Generator) {
    |questions| == seedLen + |origins|
    && forall n :: 0 <= n < |origins| ==> Produced(gen, top, origins[n], n, questions[seedLen + n])
  }

  /** No question after the first `seedLen` repeats the text of one before
      it. */
  predicate AllNew(qs: seq<Dict>, seedLen: nat) {
    forall k :: seedLen <= k < |qs| ==> NoSameQuestion(qs[..k], qs[k])
  }

  /** The last recorded call comes before call number `calls`. */
  predicate CallsBelow(origins: seq<Origin>, calls: nat) {
    |origins| > 0 ==> origins[|origins| - 1].call < calls
  }

  /** What the loop keeps true of its state after `seedLen` library
      questions: every generated question has an origin, its chunk is the
      cursor's position at the time, the cursor counts the generated
      questions, calls come in order, and no generated question repeats the
      text of one before it. */
  predicate Consistent(p: Progress, seedLen: nat, top: seq<ChunkRow>, gen: Generator) {
    && p.chunkIndex == |p.origins|
    && AllProduced(p.questions, p.origins, seedLen, top, gen)
    && CallsIncrease(p.origins)
    && CallsBelow(p.origins, p.calls)
    && AllNew(p.questions, seedLen)
  }

  /** Appending a question whose text differs from all before it keeps
      every text after the library questions new. */
  lemma AppendKeepsNew(qs: seq<Dict>, mcq: Dict, seedLen: nat)
    requires AllNew(qs, seedLen) && NoSameQuestion(qs, mcq)
    ensures AllNew(qs + [mcq], seedLen)
  {
    var all := qs + [mcq];
    forall k | seedLen <= k < |all|
      ensures NoSameQuestion(all[..k], all[k])
    {
      if k < |qs| {
        assert all[..k] == qs[..k] && all[k] == qs[k];
      } else {
        assert all[..k] == qs && all[k] == mcq;
      }
    }
  }

  /** Appending a question together with its origin keeps every origin
      right. */
  lemma AppendKeepsProduced(qs: seq<Dict>, os: seq<Origin>, seedLen: nat, top: seq<ChunkRow>, gen: Generator,
                            mcq: Dict, origin: Origin)
    requires AllProduced(qs, os, seedLen, top, gen)
    requires Produced(gen, top, origin, |os|, mcq)
    ensures AllProduced(qs + [mcq], os + [origin], seedLen, top, gen)
  {
    var qs' := qs + [mcq];
    var os' := os + [origin];
    forall n | 0 <= n < |os'|
      ensures Produced(gen, top, os'[n], n, qs'[seedLen + n])
    {
      if n < |os| {
        assert os'[n] == os[n] && qs'[seedLen + n] == qs[seedLen + n];
      } else {
        assert os'[n] == origin && qs'[seedLen + n] == mcq;
      }
    }
  }

  /** Appending an origin whose call is the next one keeps calls in
      order. */
  lemma AppendKeepsOrder(os: seq<Origin>, calls: nat, origin: Origin)
    requires CallsIncrease(os) && CallsBelow(os, calls) && origin.call == calls
    ensures CallsIncrease(os + [origin]) && CallsBelow(os + [origin], calls + 1)
  {
    var os' := os + [origin];
    forall n | 0 <= n < |os'| - 1
      ensures os'[n].call < os'[n + 1].call
    {
      if n + 1 < |os| {
        assert os'[n] == os[n] && os'[n + 1] == os[n + 1];
      }
    }
  }

  /** One pass of the loop body keeps the state consistent. */
  lemma AttemptKeeps(p: Progress, seedLen: nat, top: seq<ChunkRow>, level: string, gen: Generator)
    requires top != [] && Consistent(p, seedLen, top, gen)
    requires Attempt(p, top, level, gen).Ok?
    ensures Consistent(Attempt(p, top, level, gen).value.0, seedLen, top, gen)
  {
    var next := Attempt(p, top, level, gen).value.0;
    if Attempt(p, top, level, gen).value.1 {
      var mcq := next.questions[|p.questions|];
      var origin := Origin(p.calls, p.chunkIndex % |top|, level);
      assert next.questions == p.questions + [mcq];
      assert next.origins == p.origins + [origin];
      AppendKeepsNew(p.questions, mcq, seedLen);
      assert Produced(gen, top, origin, |p.origins|, mcq);
      AppendKeepsProduced(p.questions, p.origins, seedLen, top, gen, mcq, origin);
      AppendKeepsOrder(p.origins, p.calls, origin);
    } else {
      assert next.questions == p.questions && next.origins == p.origins;
      assert CallsBelow(next.origins, next.calls);
    }
  }

  /** The loop of one level keeps the state consistent. */
  lemma {:induction false} FillLevelKeeps(p: Progress, seedLen: nat, top: seq<ChunkRow>, level: string,
                                          needed: int, made: nat, retries: nat, gen: Generator)
    requires top != [] && Consistent(p, seedLen, top, gen)
    requires FillLevel(p, top, level, needed, made, retries, gen).Ok?
    ensures Consistent(FillLevel(p, top, level, needed, made, retries, gen).value, seedLen, top, gen)
    decreases (needed - made) + (3 * needed - retries)
  {
    if made < needed && retries < 3 * needed {
      var next := Attempt(p, top, level, gen).value.0;
      AttemptKeeps(p, seedLen, top, level, gen);
      FillLevelStep(p, top, level, needed, made, retries, gen);
      if Attempt(p, top, level, gen).value.1 {
        FillLevelKeeps(next, seedLen, top, level, needed, made + 1, retries, gen);
      } else {
        FillLevelKeeps(next, seedLen, top, level, needed, made, retries + 1, gen);
      }
    }
  }

  /** The loop over all levels keeps the state consistent. */
  lemma {:induction false} FillAllKeeps(p: Progress, seedLen: nat, top: seq<ChunkRow>,
                                        targets: seq<(string, int)>, gen: Generator)
    requires top != [] && Consistent(p, seedLen, top, gen)
    requires FillAll(p, top, targets, gen).Ok?
    ensures Consistent(FillAll(p, top, targets, gen).value, seedLen, top, gen)
    decreases |targets|
  {
    if targets != [] {
      var (level, count) := targets[0];
      var needed := count - CountLevel(p.questions, level);
      if needed > 0 {
        FillLevelKeeps(p, seedLen, top, level, needed, 0, 0, gen);
      }
      FillAllKeeps(LevelRound(p, top, level, count, gen).value, seedLen, top, targets[1..], gen);
    }
  }

  /** The loop over all levels keeps what it has. */
  lemma {:induction false} FillAllExtends(p: Progress, top: seq<ChunkRow>, targets: seq<(string, int)>, gen: Generator)
    requires top != []
    requires FillAll(p, top, targets, gen).Ok?
    ensures Extends(p, FillAll(p, top, targets, gen).value)
    decreases |targets|
  {
    if targets != [] {
      var (level, count) := targets[0];
      var needed := count - CountLevel(p.questions, level);
      var next := LevelRound(p, top, level, count, gen).value;
      if needed > 0 {
        FillLevelExtends(p, top, level, needed, 0, 0, gen);
      } else {
        assert next == p;
      }
      FillAllExtends(next, top, targets[1..], gen);
      ExtendsTrans(p, next, FillAll(p, top, targets, gen).value);
    }
  }

  /** What a preview request carries. An absent `difficulty_dict` is the
      empty sequence, like an empty one. */
  datatype PreviewRequest = PreviewRequest(
    lectureNoteId: int,
    topic: string,
    difficulty: string,
    numQuestions: int,
    difficultyDict: seq<(string, int)>,
    selectedLibraryIds: seq<int>)

  /** The number of chunks the preview asks the search for (line 56). */
  const TopK := 5

  /** `generate_questions_preview` (lines 40-136) on the tables it reads. */
  function Preview(notes: set<int>, chunks: seq<ChunkRow>, library: seq<LibraryEntry>,
                   req: PreviewRequest, o: Oracles): Result<seq<Dict>, Failure>
  {
    if req.lectureNoteId !in notes then Err(Http(HttpError(404, "Lecture note not found")))
    else match SearchService.Search(chunks, req.lectureNoteId, o.embed(req.topic), TopK, o.ops)
      case Err(e) => Err(SearchFailed(e))
      case Ok(top) =>
        if top == [] then Err(Http(HttpError(400, "Not enough context found in lecture notes.")))
        else
          var seed := SeedQuestions(library, req.selectedLibraryIds);
          var targets := Targets(req.difficultyDict, req.difficulty, req.numQuestions);
          match FillAll(Progress(seed, 0, 0, []), top, targets, GeneratorOf(o))
          case Err(e) => Err(e)
          case Ok(p) =>
            if p.questions == [] then Err(Http(HttpError(500, "Failed to generate any questions.")))
            else Ok(p.questions)
  }

  /** The loop of one level raises nothing but the `KeyError` of line 124. */
  lemma {:induction false} FillLevelRaises(p: Progress, top: seq<ChunkRow>, level: string, needed: int,
                                           made: nat, retries: nat, gen: Generator)
    requires top != []
    requires FillLevel(p, top, level, needed, made, retries, gen).Err?
    ensures FillLevel(p, top, level, needed, made, retries, gen).error == KeyError("question")
    decreases (needed - made) + (3 * needed - retries)
  {
    if Attempt(p, top, level, gen).Ok? {
      var next := Attempt(p, top, level, gen).value.0;
      FillLevelStep(p, top, level, needed, made, retries, gen);
      if Attempt(p, top, level, gen).value.1 {
        FillLevelRaises(next, top, level, needed, made + 1, retries, gen);
      } else {
        FillLevelRaises(next, top, level, needed, made, retries + 1, gen);
      }
    }
  }

  /** Nor does the loop over all levels. */
  lemma {:induction false} FillAllRaises(p: Progress, top: seq<ChunkRow>, targets: seq<(string, int)>, gen: Generator)
    requires top != []
    requires FillAll(p, top, targets, gen).Err?
    ensures FillAll(p, top, targets, gen).error == KeyError("question")
    decreases |targets|
  {
    var (level, count) := targets[0];
    var needed := count - CountLevel(p.questions, level);
    if LevelRound(p, top, level, count, gen).Ok? {
      FillAllRaises(LevelRound(p, top, level, count, gen).value, top, targets[1..], gen);
    } else {
      FillLevelRaises(p, top, level, needed, 0, 0, gen);
    }
  }

  /** The shape of a preview: the selected library questions come first,
      at least one question is returned, no question after the library ones
      repeats the text of an earlier one, and the generated ones have
      origins, in increasing call order, naming the chunk of `top` at the
      cursor's position (which advances over all levels). */
  ghost predicate PreviewShape(qs: seq<Dict>, seed: seq<Dict>, top: seq<ChunkRow>, gen: Generator) {
    && qs != [] && top != []
    && |seed| <= |qs| && qs[..|seed|] == seed
    && AllNew(qs, |seed|)
    && exists os :: AllProduced(qs, os, |seed|, top, gen) && CallsIncrease(os)
  }

  /** What a successful preview returns (lines 51-136). */
  lemma PreviewResult(notes: set<int>, chunks: seq<ChunkRow>, library: seq<LibraryEntry>,
                      req: PreviewRequest, o: Oracles)
    requires Preview(notes, chunks, library, req, o).Ok?
    ensures req.lectureNoteId in notes
    ensures SearchService.Search(chunks, req.lectureNoteId, o.embed(req.topic), TopK, o.ops).Ok?
    ensures PreviewShape(Preview(notes, chunks, library, req, o).value,
                         SeedQuestions(library, req.selectedLibraryIds),
                         SearchService.Search(chunks, req.lectureNoteId, o.embed(req.topic), TopK, o.ops).value,
                         GeneratorOf(o))
  {
    var top := SearchService.Search(chunks, req.lectureNoteId, o.embed(req.topic), TopK, o.ops).value;
    var seed := SeedQuestions(library, req.selectedLibraryIds);
    var targets := Targets(req.difficultyDict, req.difficulty, req.numQuestions);
    var gen := GeneratorOf(o);
    var start := Progress(seed, 0, 0, []);
    assert Consistent(start, |seed|, top, gen);
    var p := FillAll(start, top, targets, gen).value;
    FillAllKeeps(start, |seed|, top, targets, gen);
    FillAllExtends(start, top, targets, gen);
    assert AllProduced(p.questions, p.origins, |seed|, top, gen) && CallsIncrease(p.origins);
  }

  /** How a preview fails: 404 exactly when the note is missing; otherwise
      a failing search, 400 for no context, the `KeyError` of line 124, or
      500 when nothing was gathered. */
  lemma PreviewFailure(notes: set<int>, chunks: seq<ChunkRow>, library: seq<LibraryEntry>,
                       req: PreviewRequest, o: Oracles)
    ensures Preview(notes, chunks, library, req, o) == Err(Http(HttpError(404, "Lecture note not found")))
            <==> req.lectureNoteId !in notes
    ensures Preview(notes, chunks, library, req, o).Err? ==>
      || Preview(notes, chunks, library, req, o).error.SearchFailed?
      || Preview(notes, chunks, library, req, o).error in
           {Http(HttpError(404, "Lecture note not found")),
            Http(HttpError(400, "Not enough context found in lecture notes.")),
            Http(HttpError(500, "Failed to generate any questions.")),
            KeyError("question")}
  {
    if req.lectureNoteId in notes {
      var found := SearchService.Search(chunks, req.lectureNoteId, o.embed(req.topic), TopK, o.ops);
      if found.Ok? && found.value != [] {
        var seed := SeedQuestions(library, req.selectedLibraryIds);
        var targets := Targets(req.difficultyDict, req.difficulty, req.numQuestions);
        if FillAll(Progress(seed, 0, 0, []), found.value, targets, GeneratorOf(o)).Err? {
          FillAllRaises(Progress(seed, 0, 0, []), found.value, targets, GeneratorOf(o));
        }
      }
    }
  }

  /** Lines 75-90: the selected library rows, in table order, as question
      dictionaries. */
  method SelectLibraryQuestions(library: seq<LibraryEntry>, selectedIds: seq<int>) returns (qs: seq<Dict>)
    ensures qs == SeedQuestions(library, selectedIds)
  {
    qs := [];
    var i := 0;
    while i < |library|
      invariant 0 <= i <= |library|
      invariant qs == SeedQuestions(library[..i], selectedIds)
    {
      assert library[..i + 1][..i] == library[..i];
      if library[i].id in selectedIds {
        qs := qs + [LibraryQuestion(library[i])];
      }
      i := i + 1;
    }
    assert library[..i] == library;
  }

  /** Lines 111-131: the retry loop of one level needing `needed > 0`
      questions, from the accumulated questions, the chunk cursor and the
      number of model calls so far; it answers the new values of the three,
      or the exception raised. The origins of the generated questions are
      ghost bookkeeping. */
  method FillLevelLoop(questions: seq<Dict>, chunkIndex: nat, calls: nat, ghost origins: seq<Origin>,
                       top: seq<ChunkRow>, level: string, needed: int, gen: Generator)
    returns (r: Result<(seq<Dict>, nat, nat), Failure>, ghost origins': seq<Origin>)
    requires top != []
    ensures r.Err? ==> FillLevel(Progress(questions, chunkIndex, calls, origins), top, level, needed, 0, 0, gen) == Err(r.error)
    ensures r.Ok? ==> FillLevel(Progress(questions, chunkIndex, calls, origins), top, level, needed, 0, 0, gen)
                      == Ok(Progress(r.value.0, r.value.1, r.value.2, origins'))
  {
    ghost var start := Progress(questions, chunkIndex, calls, origins);
    var qs: seq<Dict>, cursor: nat, n: nat := questions, chunkIndex, calls;
    origins' := origins;
    var made: nat := 0;
    var retries: nat := 0;
    while made < needed && retries < 3 * needed
      invariant FillLevel(Progress(qs, cursor, n, origins'), top, level, needed, made, retries, gen)
             == FillLevel(start, top, level, needed, 0, 0, gen)
      decreases (needed - made) + (3 * needed - retries)
    {
      ghost var cur := Progress(qs, cursor, n, origins');
      var step;
      step, origins' := TryOnce(qs, cursor, n, origins', top, level, gen);
      if step.Err? {
        return Err(step.error), origins';
      }
      FillLevelStep(cur, top, level, needed, made, retries, gen);
      qs, cursor, n := step.value.0, step.value.1, step.value.2;
      if step.value.3 {
        made := made + 1;
      } else {
        retries := retries + 1;
      }
    }
    return Ok((qs, cursor, n)), origins';
  }

  /** One pass of the loop of lines 111-131: ask the model for a question
      on the chunk at the cursor and keep it when its text is new. The
      flag says whether it was kept. */
  method TryOnce(qs: seq<Dict>, cursor: nat, n: nat, ghost origins: seq<Origin>,
                 top: seq<ChunkRow>, level: string, gen: Generator)
    returns (r: Result<(seq<Dict>, nat, nat, bool), Failure>, ghost origins': seq<Origin>)
    requires top != []
    ensures r.Err? ==> Attempt(Progress(qs, cursor, n, origins), top, level, gen) == Err(r.error)
    ensures r.Ok? ==> Attempt(Progress(qs, cursor, n, origins), top, level, gen)
                      == Ok((Progress(r.value.0, r.value.1, r.value.2, origins'), r.value.3))
  {
    origins' := origins;
    var mcq := gen(n, top[cursor % |top|].text, level);
    if mcq.None? {
      return Ok((qs, cursor, n + 1, false)), origins';
    }
    var dup := AnySameQuestion(qs, mcq.value);
    if dup.Err? {
      return Err(dup.error), origins';
    }
    if dup.value {
      return Ok((qs, cursor, n + 1, false)), origins';
    }
    origins' := origins + [Origin(n, cursor % |top|, level)];
    return Ok((qs + [mcq.value], cursor + 1, n + 1, true)), origins';
  }

  /** `generate_questions_preview` (lines 40-136). `calls` numbers the
      calls of the model, which the generator oracle is indexed by. */
  method GenerateQuestionsPreview(db: Db, req: PreviewRequest, o: Oracles) returns (r: Result<seq<Dict>, Failure>)
    ensures r == Preview(db.notes, db.chunks, db.library, req, o)
  {
    if req.lectureNoteId !in db.notes {
      return Err(Http(HttpError(404, "Lecture note not found")));
    }
    var found := SearchService.SearchLectureChunks(db, req.lectureNoteId, req.topic, TopK, o.embed, o.ops);
    if found.Err? {
      return Err(SearchFailed(found.error));
    }
    var top := found.value;
    if top == [] {
      return Err(Http(HttpError(400, "Not enough context found in lecture notes.")));
    }
    var targets := Targets(req.difficultyDict, req.difficulty, req.numQuestions);
    var questions := SelectLibraryQuestions(db.library, req.selectedLibraryIds);
    var gen := GeneratorOf(o);
    var chunkIndex: nat := 0;
    var calls: nat := 0;
    ghost var origins: seq<Origin> := [];
    ghost var start := Progress(questions, 0, 0, []);
    var t := 0;
    while t < |targets|
      invariant 0 <= t <= |targets|
      invariant FillAll(Progress(questions, chunkIndex, calls, origins), top, targets[t..], gen)
             == FillAll(start, top, targets, gen)
    {
      var level := targets[t].0;
      var needed := targets[t].1 - CountLevel(questions, level);
      assert targets[t..][1..] == targets[t + 1..];
      if needed > 0 {
        var round;
        round, origins := FillLevelLoop(questions, chunkIndex, calls, origins, top, level, needed, gen);
        if round.Err? {
          return Err(round.error);
        }
        questions, chunkIndex, calls := round.value.0, round.value.1, round.value.2;
      }
      t := t + 1;
    }
    if questions == [] {
      return Err(Http(HttpError(500, "Failed to generate any questions.")));
    }
    return Ok(questions);
  }

  // ---------------------------------------------------------------------
  // finalize_quiz
  // ---------------------------------------------------------------------

  function Upper(c: char): char {
    if 'a' <= c <= 'z' then (c as int - 32) as char else c
  }

  function Lower(c: char): char {
    if 'A' <= c <= 'Z' then (c as int + 32) as char else c
  }

  /** Line 152, `str.capitalize()` on ASCII letters: the first character
      upper-cased, the others lower-cased. */
  function Capitalize(s: string): (r: string)
    ensures |r| == |s|
  {
    if s == [] then [] else [Upper(s[0])] + seq(|s| - 1, i requires 0 <= i < |s| - 1 => Lower(s[i + 1]))
  }

  /** No lower-case letter first and no upper-case letter after it. */
  predicate IsCapitalized(s: string) {
    && (s != [] ==> !('a' <= s[0] <= 'z'))
    && forall i :: 1 <= i < |s| ==> !('A' <= s[i] <= 'Z')
  }

  /** `capitalize` changes only the case of letters, produces a capitalized
      string, and leaves exactly the capitalized strings alone. */
  lemma CapitalizeShape(s: string)
    ensures IsCapitalized(Capitalize(s))
    ensures forall i :: 0 <= i < |s| ==> Lower(Capitalize(s)[i]) == Lower(s[i])
    ensures Capitalize(s) == s <==> IsCapitalized(s)
  {
    var r := Capitalize(s);
    if IsCapitalized(s) {
      forall i | 0 <= i < |s| ensures r[i] == s[i] {
        if i > 0 {
          assert r[i] == Lower(s[i]);
        }
      }
    }
  }

  /** `q.get('time_secs', 60)` as the number `sum` adds (lines 161 and
      182), or `None` for a value it cannot add, such as an explicit
      `None`. */
  function TimeOf(q: Dict): Option<real> {
    NumericValue(Get(q, "time_secs", JInt(60)))
  }

  /** `sum(q.get('time_secs', 60) for q in questions)`, raising `TypeError`
      at the first value that is not a number. */
  function SumTimes(qs: seq<Dict>): (r: Result<real, Failure>)
    ensures r.Err? <==> exists i :: 0 <= i < |qs| && TimeOf(qs[i]).None?
    ensures r.Err? ==> r.error == TypeError
  {
    if qs == [] then Ok(0.0)
    else
      var init := qs[..|qs| - 1];
      assert forall i :: 0 <= i < |init| ==> init[i] == qs[i];
      match SumTimes(init)
      case Err(e) => Err(e)
      case Ok(total) =>
        match TimeOf(qs[|qs| - 1])
        case None => Err(TypeError)
        case Some(t) => Ok(total + t)
  }

  /** Line 161: the total time floor-divided by 60. */
  function TotalTimeMins(qs: seq<Dict>): Result<int, Failure> {
    match SumTimes(qs)
    case Err(e) => Err(e)
    case Ok(total) => Ok((total / 60.0).Floor)
  }

  /** Questions with no `time_secs` key count 60 seconds each, one minute. */
  lemma {:induction false} SumTimesDefault(qs: seq<Dict>)
    requires forall i :: 0 <= i < |qs| ==> "time_secs" !in qs[i]
    ensures SumTimes(qs) == Ok(60.0 * |qs| as real)
  {
    if qs != [] {
      SumTimesDefault(qs[..|qs| - 1]);
    }
  }

  lemma TotalTimeDefault(qs: seq<Dict>)
    requires forall i :: 0 <= i < |qs| ==> "time_secs" !in qs[i]
    ensures TotalTimeMins(qs) == Ok(|qs|)
  {
    SumTimesDefault(qs);
    assert 60.0 * |qs| as real / 60.0 == |qs| as real;
  }

  /** The seconds of questions whose times are all whole numbers (or
      absent). */
  function WholeSeconds(qs: seq<Dict>): int
    requires forall i :: 0 <= i < |qs| ==> Get(qs[i], "time_secs", JInt(60)).JInt?
  {
    if qs == [] then 0
    else WholeSeconds(qs[..|qs| - 1]) + Get(qs[|qs| - 1], "time_secs", JInt(60)).i
  }

  lemma {:induction false} SumTimesWhole(qs: seq<Dict>)
    requires forall i :: 0 <= i < |qs| ==> Get(qs[i], "time_secs", JInt(60)).JInt?
    ensures SumTimes(qs) == Ok(WholeSeconds(qs) as real)
  {
    if qs != [] {
      SumTimesWhole(qs[..|qs| - 1]);
    }
  }

  /** For whole seconds the total is the integer floor division of the
      integer sum, as Python's `//` on `int` computes it. */
  lemma TotalTimeWhole(qs: seq<Dict>)
    requires forall i :: 0 <= i < |qs| ==> Get(qs[i], "time_secs", JInt(60)).JInt?
    ensures TotalTimeMins(qs) == Ok(WholeSeconds(qs) / 60)
  {
    SumTimesWhole(qs);
    var x := WholeSeconds(qs);
    assert TotalTimeMins(qs) == Ok((x as real / 60.0).Floor);
    FloorOfSixtieth(x);
  }

  lemma FloorOfSixtieth(x: int)
    ensures (x as real / 60.0).Floor == x / 60
  {
    var q, m := x / 60, x % 60;
    assert x as real / 60.0 == q as real + m as real / 60.0;
  }

  /** The option keys, in the order lines 176-179 read them. */
  const OptionKeys: seq<string> := ["A", "B", "C", "D"]

  /** `mcq['options']['A']` … `['D']`: `KeyError` for a missing key,
      `TypeError` when `options` is not a dictionary. */
  function OptionsOf(q: Dict): (r: Result<seq<Json>, Failure>)
    ensures r.Ok? <==> "options" in q && q["options"].JObject? && forall k :: k in OptionKeys ==> k in q["options"].fields
    ensures r.Ok? ==> |r.value| == 4 && forall i :: 0 <= i < 4 ==> r.value[i] == q["options"].fields[OptionKeys[i]]
    ensures r.Err? ==> r.error == TypeError || r.error == KeyError("options") || (r.error.KeyError? && r.error.key in OptionKeys)
  {
    if "options" !in q then Err(KeyError("options"))
    else match q["options"]
      case JObject(fields) =>
        if "A" !in fields then Err(KeyError("A"))
        else if "B" !in fields then Err(KeyError("B"))
        else if "C" !in fields then Err(KeyError("C"))
        else if "D" !in fields then Err(KeyError("D"))
        else Ok([fields["A"], fields["B"], fields["C"], fields["D"]])
      case _ => Err(TypeError)
  }

  /** Lines 172-184: the `QuizQuestion` row of question number `idx`
      (from 0) with the options read from it. */
  function QuestionRow(quizId: int, idx: nat, q: Dict, opts: seq<Json>): QuizQuestionRow
    requires |opts| == 4
  {
    QuizQuestionRow(quizId, idx + 1, Get(q, "question", JNull), opts[0], opts[1], opts[2], opts[3],
                    Get(q, "correct", JNull), Get(q, "difficulty", JNull), Get(q, "time_secs", JInt(60)), 1)
  }

  /** The pending work of the transaction that saves the questions: the
      quiz-question rows added so far, the library as the session sees it
      (autoflush makes the entries added earlier in the loop visible to the
      lookup of line 188), and the next library id. */
  datatype Saving = Saving(rows: seq<QuizQuestionRow>, library: seq<LibraryEntry>, nextLibraryId: int)

  /** One pass of the loop of lines 171-206 for question number `idx`: add
      its row, then look up its text among the note's library entries and
      add a good entry when there is none. */
  function SaveOne(s: Saving, noteId: int, quizId: int, idx: nat, q: Dict): Result<Saving, Failure> {
    match OptionsOf(q)
    case Err(e) => Err(e)
    case Ok(opts) =>
      var rows := s.rows + [QuestionRow(quizId, idx, q, opts)];
      if "question" !in q then Err(KeyError("question"))
      else if FindEntry(s.library, noteId, q["question"]) >= 0 then Ok(s.(rows := rows))
      else if "correct" !in q then Err(KeyError("correct"))
      else if "difficulty" !in q then Err(KeyError("difficulty"))
      else
        var entry := LibraryEntry(s.nextLibraryId, noteId, q["question"], opts[0], opts[1], opts[2], opts[3],
                                  q["correct"], q["difficulty"], Get(q, "time_secs", JInt(60)), GoodQuestion);
        Ok(Saving(rows, s.library + [entry], s.nextLibraryId + 1))
  }

  /** The loop of lines 171-206 from question number `i` onward. */
  function SaveFrom(s: Saving, noteId: int, quizId: int, qs: seq<Dict>, i: nat): Result<Saving, Failure>
    requires i <= |qs|
    decreases |qs| - i
  {
    if i == |qs| then Ok(s)
    else match SaveOne(s, noteId, quizId, i, qs[i])
      case Err(e) => Err(e)
      case Ok(next) => SaveFrom(next, noteId, quizId, qs, i + 1)
  }

  /** `t` continues `s`: rows and library entries are only ever added. */
  predicate SavingExtends(s: Saving, t: Saving) {
    && |s.rows| <= |t.rows| && t.rows[..|s.rows|] == s.rows
    && |s.library| <= |t.library| && t.library[..|s.library|] == s.library
  }

  /** The row saved for question number `j` carries the quiz, the position
      `j + 1`, one mark, and the question's own fields, `time_secs`
      defaulting to 60. */
  predicate RowFor(row: QuizQuestionRow, quizId: int, j: nat, q: Dict) {
    && row.quizId == quizId && row.qOrder == j + 1 && row.marks == 1
    && row.questionText == Get(q, "question", JNull)
    && OptionsOf(q) == Ok([row.optionA, row.optionB, row.optionC, row.optionD])
    && row.correctOption == Get(q, "correct", JNull)
    && row.difficulty == Get(q, "difficulty", JNull)
    && row.timeSecs == Get(q, "time_secs", JInt(60))
  }

  /** The library entries from position `start` on are good entries of the
      note, numbered on from `firstId`, each the first entry with its text. */
  predicate NewEntriesGood(lib: seq<LibraryEntry>, start: nat, noteId: int, firstId: int) {
    start <= |lib|
    && forall k :: start <= k < |lib| ==>
         && lib[k].quality == GoodQuestion && lib[k].lectureNoteId == noteId
         && lib[k].id == firstId + (k - start)
         && FindEntry(lib, noteId, lib[k].questionText) == k
  }

  /** Every question from number `i` on has a text, and the note has a
      library entry with that text. */
  predicate Covered(lib: seq<LibraryEntry>, noteId: int, qs: seq<Dict>, i: nat) {
    forall j :: i <= j < |qs| ==> "question" in qs[j] && FindEntry(lib, noteId, qs[j]["question"]) >= 0
  }

  lemma SavingExtendsTrans(s: Saving, t: Saving, u: Saving)
    requires SavingExtends(s, t) && SavingExtends(t, u)
    ensures SavingExtends(s, u)
  {
    assert u.rows[..|s.rows|] == u.rows[..|t.rows|][..|s.rows|];
    assert u.library[..|s.library|] == u.library[..|t.library|][..|s.library|];
  }

  /** One pass adds the question's row and, when the note has no entry
      with its text, one good entry for it. */
  lemma SaveOneEffect(s: Saving, noteId: int, quizId: int, idx: nat, q: Dict)
    requires SaveOne(s, noteId, quizId, idx, q).Ok?
    ensures var t := SaveOne(s, noteId, quizId, idx, q).value;
      && |t.rows| == |s.rows| + 1 && t.rows[..|s.rows|] == s.rows && RowFor(t.rows[|s.rows|], quizId, idx, q)
      && "question" in q
      && (FindEntry(s.library, noteId, q["question"]) >= 0 ==>
            t.library == s.library && t.nextLibraryId == s.nextLibraryId)
      && (FindEntry(s.library, noteId, q["question"]) == -1 ==>
            && t.library[..|s.library|] == s.library && |t.library| == |s.library| + 1
            && t.library[|s.library|].id == s.nextLibraryId && t.nextLibraryId == s.nextLibraryId + 1
            && t.library[|s.library|].quality == GoodQuestion
            && Matches(t.library[|s.library|], noteId, q["question"]))
  {
  }

  /** The loop only adds rows and entries. */
  lemma {:induction false} SaveFromExtends(s: Saving, noteId: int, quizId: int, qs: seq<Dict>, i: nat)
    requires i <= |qs| && SaveFrom(s, noteId, quizId, qs, i).Ok?
    ensures SavingExtends(s, SaveFrom(s, noteId, quizId, qs, i).value)
    decreases |qs| - i
  {
    if i < |qs| {
      var next := SaveOne(s, noteId, quizId, i, qs[i]).value;
      SaveOneEffect(s, noteId, quizId, i, qs[i]);
      SaveFromExtends(next, noteId, quizId, qs, i + 1);
      SavingExtendsTrans(s, next, SaveFrom(s, noteId, quizId, qs, i).value);
    }
  }

  /** From position `base` on, `rows` holds the rows of questions number
      `i` onward, in order. */
  predicate RowsFor(rows: seq<QuizQuestionRow>, base: nat, quizId: int, qs: seq<Dict>, i: nat) {
    && i <= |qs| && base + (|qs| - i) == |rows|
    && forall j :: i <= j < |qs| ==> RowFor(rows[base + (j - i)], quizId, j, qs[j])
  }

  lemma RowsForStep(rows: seq<QuizQuestionRow>, base: nat, quizId: int, qs: seq<Dict>, i: nat)
    requires i < |qs| && RowsFor(rows, base + 1, quizId, qs, i + 1) && RowFor(rows[base], quizId, i, qs[i])
    ensures RowsFor(rows, base, quizId, qs, i)
  {
    forall j | i < j < |qs| ensures RowFor(rows[base + (j - i)], quizId, j, qs[j]) {
      assert base + (j - i) == (base + 1) + (j - (i + 1));
    }
  }

  /** Lines 171-185: one row per question from number `i` on, in order,
      after the rows there were. */
  lemma {:induction false} SaveFromRows(s: Saving, noteId: int, quizId: int, qs: seq<Dict>, i: nat)
    requires i <= |qs| && SaveFrom(s, noteId, quizId, qs, i).Ok?
    ensures RowsFor(SaveFrom(s, noteId, quizId, qs, i).value.rows, |s.rows|, quizId, qs, i)
    decreases |qs| - i
  {
    if i < |qs| {
      var next := SaveOne(s, noteId, quizId, i, qs[i]).value;
      var t := SaveFrom(next, noteId, quizId, qs, i + 1).value;
      SaveOneEffect(s, noteId, quizId, i, qs[i]);
      SaveFromRows(next, noteId, quizId, qs, i + 1);
      SaveFromExtends(next, noteId, quizId, qs, i + 1);
      assert t.rows[|s.rows|] == t.rows[..|next.rows|][|s.rows|];
      RowsForStep(t.rows, |s.rows|, quizId, qs, i);
    } else {
      assert SaveFrom(s, noteId, quizId, qs, i).value == s;
    }
  }

  /** Lines 187-206: the entries added are good entries of the note,
      numbered on from the next id, each the first with its text: an
      existing entry, poor or good, is never duplicated. */
  lemma {:induction false} SaveFromLibrary(s: Saving, noteId: int, quizId: int, qs: seq<Dict>, i: nat,
                                           start: nat, firstId: int)
    requires i <= |qs| && SaveFrom(s, noteId, quizId, qs, i).Ok?
    requires NewEntriesGood(s.library, start, noteId, firstId)
    requires s.nextLibraryId == firstId + (|s.library| - start)
    ensures NewEntriesGood(SaveFrom(s, noteId, quizId, qs, i).value.library, start, noteId, firstId)
    ensures SaveFrom(s, noteId, quizId, qs, i).value.nextLibraryId
            == firstId + (|SaveFrom(s, noteId, quizId, qs, i).value.library| - start)
    decreases |qs| - i
  {
    if i < |qs| {
      var next := SaveOne(s, noteId, quizId, i, qs[i]).value;
      SaveOneEffect(s, noteId, quizId, i, qs[i]);
      if FindEntry(s.library, noteId, qs[i]["question"]) == -1 {
        var e := next.library[|s.library|];
        assert next.library == s.library + [e];
        forall k | start <= k < |next.library|
          ensures && next.library[k].quality == GoodQuestion && next.library[k].lectureNoteId == noteId
                  && next.library[k].id == firstId + (k - start)
                  && FindEntry(next.library, noteId, next.library[k].questionText) == k
        {
          if k < |s.library| {
            assert next.library[k] == s.library[k];
            FindEntryExtend(s.library, [e], noteId, s.library[k].questionText);
          } else {
            FindEntryAppend(s.library, e, noteId, qs[i]["question"]);
          }
        }
        assert NewEntriesGood(next.library, start, noteId, firstId);
      }
      SaveFromLibrary(next, noteId, quizId, qs, i + 1, start, firstId);
    }
  }

  lemma CoveredStep(lib: seq<LibraryEntry>, noteId: int, qs: seq<Dict>, i: nat)
    requires i < |qs| && Covered(lib, noteId, qs, i + 1)
    requires "question" in qs[i] && FindEntry(lib, noteId, qs[i]["question"]) >= 0
    ensures Covered(lib, noteId, qs, i)
  {
  }

  /** One pass leaves an entry for the question's text. */
  lemma SaveOneCovers(s: Saving, noteId: int, quizId: int, idx: nat, q: Dict)
    requires SaveOne(s, noteId, quizId, idx, q).Ok?
    ensures "question" in q && FindEntry(SaveOne(s, noteId, quizId, idx, q).value.library, noteId, q["question"]) >= 0
  {
    var next := SaveOne(s, noteId, quizId, idx, q).value;
    SaveOneEffect(s, noteId, quizId, idx, q);
    if FindEntry(s.library, noteId, q["question"]) == -1 {
      FindEntryAppend(s.library, next.library[|s.library|], noteId, q["question"]);
      assert next.library == s.library + [next.library[|s.library|]];
    }
  }

  /** After the loop every question's text has an entry for the note. */
  lemma {:induction false} SaveFromCovers(s: Saving, noteId: int, quizId: int, qs: seq<Dict>, i: nat)
    requires i <= |qs| && SaveFrom(s, noteId, quizId, qs, i).Ok?
    ensures Covered(SaveFrom(s, noteId, quizId, qs, i).value.library, noteId, qs, i)
    decreases |qs| - i
  {
    if i < |qs| {
      var next := SaveOne(s, noteId, quizId, i, qs[i]).value;
      var t := SaveFrom(next, noteId, quizId, qs, i + 1).value;
      SaveOneCovers(s, noteId, quizId, i, qs[i]);
      SaveFromCovers(next, noteId, quizId, qs, i + 1);
      SaveFromExtends(next, noteId, quizId, qs, i + 1);
      assert t.library == next.library + t.library[|next.library|..];
      FindEntryExtend(next.library, t.library[|next.library|..], noteId, qs[i]["question"]);
      CoveredStep(t.library, noteId, qs, i);
    }
  }

  /** When every text already has an entry, the loop adds none, and it
      succeeds exactly when every question's options can be read. */
  lemma {:induction false} SaveFromCovered(s: Saving, noteId: int, quizId: int, qs: seq<Dict>, i: nat)
    requires i <= |qs| && Covered(s.library, noteId, qs, i)
    ensures SaveFrom(s, noteId, quizId, qs, i).Ok? <==> forall j :: i <= j < |qs| ==> OptionsOf(qs[j]).Ok?
    ensures SaveFrom(s, noteId, quizId, qs, i).Ok? ==>
      && SaveFrom(s, noteId, quizId, qs, i).value.library == s.library
      && SaveFrom(s, noteId, quizId, qs, i).value.nextLibraryId == s.nextLibraryId
    decreases |qs| - i
  {
    if i < |qs| && OptionsOf(qs[i]).Ok? {
      var next := SaveOne(s, noteId, quizId, i, qs[i]).value;
      assert next.library == s.library && next.nextLibraryId == s.nextLibraryId;
      SaveFromCovered(next, noteId, quizId, qs, i + 1);
    }
  }

  /** A question the loop can always save: readable options and the keys
      lines 190-202 subscript. */
  predicate WellFormed(q: Dict) {
    OptionsOf(q).Ok? && "question" in q && "correct" in q && "difficulty" in q
  }

  /** The loop fails only on a question that is not well formed, and then
      with `KeyError` or `TypeError`. */
  lemma {:induction false} SaveFromFailure(s: Saving, noteId: int, quizId: int, qs: seq<Dict>, i: nat)
    requires i <= |qs|
    ensures (forall j :: i <= j < |qs| ==> WellFormed(qs[j])) ==> SaveFrom(s, noteId, quizId, qs, i).Ok?
    ensures SaveFrom(s, noteId, quizId, qs, i).Err? ==>
      SaveFrom(s, noteId, quizId, qs, i).error.KeyError? || SaveFrom(s, noteId, quizId, qs, i).error == TypeError
    decreases |qs| - i
  {
    if i < |qs| && SaveOne(s, noteId, quizId, i, qs[i]).Ok? {
      SaveFromFailure(SaveOne(s, noteId, quizId, i, qs[i]).value, noteId, quizId, qs, i + 1);
    }
  }

  /** The tables `finalize_quiz` writes, with the next auto-increment ids. */
  datatype Tables = Tables(
    quizzes: seq<QuizRow>,
    quizQuestions: seq<QuizQuestionRow>,
    library: seq<LibraryEntry>,
    nextQuizId: int,
    nextLibraryId: int)

  function Written(db: Db): Tables
    reads db
  {
    Tables(db.quizzes, db.quizQuestions, db.library, db.nextQuizId, db.nextLibraryId)
  }

  /** Primary keys increase along each table and stay below the next id. */
  ghost predicate TablesValid(t: Tables) {
    KeysValid(t.library, t.nextLibraryId, t.quizzes, t.nextQuizId)
  }

  /** What `finalize_quiz` returns (lines 210-215). */
  datatype FinalizeReport = FinalizeReport(quizId: int, questionsSaved: int, topic: string, difficulty: string)

  /** `finalize_quiz` (lines 138-215) on the tables. The quiz row is
      committed on its own (lines 166-168); the rows and library entries
      of the loop are committed at line 208, so an exception inside the
      loop leaves the quiz without them once the session is rolled back. */
  function Finalize(t: Tables, notes: set<int>, noteId: int, topic: string, difficulty: string, qs: seq<Dict>)
    : (Result<FinalizeReport, Failure>, Tables)
  {
    if noteId !in notes then (Err(Http(HttpError(404, "Lecture note not found during finalization"))), t)
    else match TotalTimeMins(qs)
      case Err(e) => (Err(e), t)
      case Ok(mins) =>
        var diffTitle := Capitalize(difficulty);
        var quiz := QuizRow(t.nextQuizId, noteId, "Quiz: " + topic, |qs|, diffTitle, mins, |qs|);
        var committed := t.(quizzes := t.quizzes + [quiz], nextQuizId := t.nextQuizId + 1);
        match SaveFrom(Saving(t.quizQuestions, t.library, t.nextLibraryId), noteId, quiz.id, qs, 0)
        case Err(e) => (Err(e), committed)
        case Ok(saved) =>
          (Ok(FinalizeReport(quiz.id, |qs|, topic, diffTitle)),
           committed.(quizQuestions := saved.rows, library := saved.library, nextLibraryId := saved.nextLibraryId))
  }

  /** One pass of the loop of lines 171-206 on the rows and library
      entries gathered so far. */
  method SaveQuestion(rows: seq<QuizQuestionRow>, library: seq<LibraryEntry>, nextId: int,
                      noteId: int, quizId: int, idx: nat, q: Dict)
    returns (r: Result<Saving, Failure>)
    ensures r == SaveOne(Saving(rows, library, nextId), noteId, quizId, idx, q)
  {
    var opts := OptionsOf(q);
    if opts.Err? {
      return Err(opts.error);
    }
    var rows' := rows + [QuestionRow(quizId, idx, q, opts.value)];
    if "question" !in q {
      return Err(KeyError("question"));
    }
    if FindEntry(library, noteId, q["question"]) >= 0 {
      return Ok(Saving(rows', library, nextId));
    }
    if "correct" !in q {
      return Err(KeyError("correct"));
    }
    if "difficulty" !in q {
      return Err(KeyError("difficulty"));
    }
    var entry := LibraryEntry(nextId, noteId, q["question"], opts.value[0], opts.value[1], opts.value[2],
                              opts.value[3], q["correct"], q["difficulty"], Get(q, "time_secs", JInt(60)),
                              GoodQuestion);
    return Ok(Saving(rows', library + [entry], nextId + 1));
  }

  /** The loop of lines 171-206 over all the questions, on the rows and
      library entries of the session. */
  method SaveAll(start: Saving, noteId: int, quizId: int, questions: seq<Dict>) returns (r: Result<Saving, Failure>)
    ensures r == SaveFrom(start, noteId, quizId, questions, 0)
  {
    var rows, library, nextId := start.rows, start.library, start.nextLibraryId;
    for idx := 0 to |questions|
      invariant SaveFrom(Saving(rows, library, nextId), noteId, quizId, questions, idx)
             == SaveFrom(start, noteId, quizId, questions, 0)
    {
      var saved := SaveQuestion(rows, library, nextId, noteId, quizId, idx, questions[idx]);
      if saved.Err? {
        assert SaveFrom(Saving(rows, library, nextId), noteId, quizId, questions, idx) == Err(saved.error);
        return Err(saved.error);
      }
      rows, library, nextId := saved.value.rows, saved.value.library, saved.value.nextLibraryId;
    }
    return Ok(Saving(rows, library, nextId));
  }

  /** `finalize_quiz`. The rows of the loop are gathered in the session and
      written to the tables at the commit of line 208. */
  method FinalizeQuiz(db: Db, noteId: int, topic: string, difficulty: string, questions: seq<Dict>)
    returns (r: Result<FinalizeReport, Failure>)
    requires db.Valid()
    modifies db`quizzes, db`nextQuizId, db`quizQuestions, db`library, db`nextLibraryId
    ensures (r, Written(db)) == Finalize(old(Written(db)), db.notes, noteId, topic, difficulty, questions)
    ensures db.Valid()
  {
    FinalizeKeepsIds(Written(db), db.notes, noteId, topic, difficulty, questions);
    if noteId !in db.notes {
      return Err(Http(HttpError(404, "Lecture note not found during finalization")));
    }
    var diffTitle := Capitalize(difficulty);
    var mins := TotalTimeMins(questions);
    if mins.Err? {
      return Err(mins.error);
    }
    var quizId := db.nextQuizId;
    db.quizzes := db.quizzes + [QuizRow(quizId, noteId, "Quiz: " + topic, |questions|, diffTitle, mins.value, |questions|)];
    db.nextQuizId := db.nextQuizId + 1;

    var saved := SaveAll(Saving(db.quizQuestions, db.library, db.nextLibraryId), noteId, quizId, questions);
    if saved.Err? {
      return Err(saved.error);
    }
    db.quizQuestions, db.library, db.nextLibraryId := saved.value.rows, saved.value.library, saved.value.nextLibraryId;
    return Ok(FinalizeReport(quizId, |questions|, topic, diffTitle));
  }

  /** What a successful `finalize_quiz` has done to the tables: one quiz
      row with the aggregates of lines 158-162, one row per question in
      order after the rows there were, and good library entries of the note
      added after the existing ones, one for each question text that had
      none, so that afterwards every question text has one. */
  ghost predicate QuizSaved(t: Tables, u: Tables, report: FinalizeReport, noteId: int, topic: string,
                            difficulty: string, qs: seq<Dict>) {
    && report == FinalizeReport(t.nextQuizId, |qs|, topic, Capitalize(difficulty))
    && TotalTimeMins(qs).Ok?
    && u.quizzes == t.quizzes + [QuizRow(t.nextQuizId, noteId, "Quiz: " + topic, |qs|, Capitalize(difficulty),
                                         TotalTimeMins(qs).value, |qs|)]
    && u.nextQuizId == t.nextQuizId + 1
    && |t.quizQuestions| <= |u.quizQuestions| && u.quizQuestions[..|t.quizQuestions|] == t.quizQuestions
    && RowsFor(u.quizQuestions, |t.quizQuestions|, t.nextQuizId, qs, 0)
    && |t.library| <= |u.library| && u.library[..|t.library|] == t.library
    && NewEntriesGood(u.library, |t.library|, noteId, t.nextLibraryId)
    && u.nextLibraryId == t.nextLibraryId + (|u.library| - |t.library|)
    && Covered(u.library, noteId, qs, 0)
  }

  /** A successful `finalize_quiz` (lines 152-215). */
  lemma FinalizeSuccess(t: Tables, notes: set<int>, noteId: int, topic: string, difficulty: string, qs: seq<Dict>)
    requires Finalize(t, notes, noteId, topic, difficulty, qs).0.Ok?
    ensures noteId in notes
    ensures QuizSaved(t, Finalize(t, notes, noteId, topic, difficulty, qs).1,
                      Finalize(t, notes, noteId, topic, difficulty, qs).0.value, noteId, topic, difficulty, qs)
  {
    var start := Saving(t.quizQuestions, t.library, t.nextLibraryId);
    SaveFromExtends(start, noteId, t.nextQuizId, qs, 0);
    SaveFromRows(start, noteId, t.nextQuizId, qs, 0);
    SaveFromLibrary(start, noteId, t.nextQuizId, qs, 0, |t.library|, t.nextLibraryId);
    SaveFromCovers(start, noteId, t.nextQuizId, qs, 0);
  }

  /** How `finalize_quiz` fails: 404 exactly when the note is missing, and
      then, as for a `time_secs` that cannot be summed, nothing is written;
      an exception inside the loop leaves only the committed quiz row. It
      cannot fail on known notes and well-formed questions with numeric
      times. */
  lemma FinalizeFailure(t: Tables, notes: set<int>, noteId: int, topic: string, difficulty: string, qs: seq<Dict>)
    ensures (Finalize(t, notes, noteId, topic, difficulty, qs).0
             == Err(Http(HttpError(404, "Lecture note not found during finalization")))) <==> noteId !in notes
    ensures noteId !in notes || TotalTimeMins(qs).Err? ==> Finalize(t, notes, noteId, topic, difficulty, qs).1 == t
    ensures noteId in notes && TotalTimeMins(qs).Ok? && Finalize(t, notes, noteId, topic, difficulty, qs).0.Err? ==>
      && Finalize(t, notes, noteId, topic, difficulty, qs).1.quizQuestions == t.quizQuestions
      && Finalize(t, notes, noteId, topic, difficulty, qs).1.library == t.library
      && Finalize(t, notes, noteId, topic, difficulty, qs).1.nextLibraryId == t.nextLibraryId
      && |Finalize(t, notes, noteId, topic, difficulty, qs).1.quizzes| == |t.quizzes| + 1
    ensures Finalize(t, notes, noteId, topic, difficulty, qs).0.Err? ==>
      || Finalize(t, notes, noteId, topic, difficulty, qs).0.error.Http?
      || Finalize(t, notes, noteId, topic, difficulty, qs).0.error.KeyError?
      || Finalize(t, notes, noteId, topic, difficulty, qs).0.error == TypeError
    ensures noteId in notes && (forall i :: 0 <= i < |qs| ==> WellFormed(qs[i]) && TimeOf(qs[i]).Some?) ==>
      Finalize(t, notes, noteId, topic, difficulty, qs).0.Ok?
  {
    SaveFromFailure(Saving(t.quizQuestions, t.library, t.nextLibraryId), noteId, t.nextQuizId, qs, 0);
  }

  /** Rows were saved only for questions whose options could be read. */
  lemma RowsForOptions(rows: seq<QuizQuestionRow>, base: nat, quizId: int, qs: seq<Dict>, i: nat)
    requires RowsFor(rows, base, quizId, qs, i)
    ensures forall j :: i <= j < |qs| ==> OptionsOf(qs[j]).Ok?
  {
    forall j | i <= j < |qs| ensures OptionsOf(qs[j]).Ok? {
      assert RowFor(rows[base + (j - i)], quizId, j, qs[j]);
    }
  }

  /** Finalizing questions whose texts all have entries and whose options
      can be read succeeds without touching the library. */
  lemma FinalizeCovered(u: Tables, notes: set<int>, noteId: int, topic: string, difficulty: string, qs: seq<Dict>)
    requires noteId in notes && TotalTimeMins(qs).Ok? && Covered(u.library, noteId, qs, 0)
    requires forall j :: 0 <= j < |qs| ==> OptionsOf(qs[j]).Ok?
    ensures Finalize(u, notes, noteId, topic, difficulty, qs).0.Ok?
    ensures Finalize(u, notes, noteId, topic, difficulty, qs).1.library == u.library
    ensures Finalize(u, notes, noteId, topic, difficulty, qs).1.nextLibraryId == u.nextLibraryId
  {
    SaveFromCovered(Saving(u.quizQuestions, u.library, u.nextLibraryId), noteId, u.nextQuizId, qs, 0);
  }

  /** Finalizing the same questions again adds a quiz and its rows but no
      library entry, and cannot fail where the first run succeeded. */
  lemma FinalizeRepeat(t: Tables, notes: set<int>, noteId: int, topic: string, difficulty: string, qs: seq<Dict>)
    requires Finalize(t, notes, noteId, topic, difficulty, qs).0.Ok?
    ensures Finalize(Finalize(t, notes, noteId, topic, difficulty, qs).1, notes, noteId, topic, difficulty, qs).0.Ok?
    ensures Finalize(Finalize(t, notes, noteId, topic, difficulty, qs).1, notes, noteId, topic, difficulty, qs).1.library
            == Finalize(t, notes, noteId, topic, difficulty, qs).1.library
    ensures Finalize(Finalize(t, notes, noteId, topic, difficulty, qs).1, notes, noteId, topic, difficulty, qs).1.nextLibraryId
            == Finalize(t, notes, noteId, topic, difficulty, qs).1.nextLibraryId
  {
    var u := Finalize(t, notes, noteId, topic, difficulty, qs).1;
    FinalizeSuccess(t, notes, noteId, topic, difficulty, qs);
    RowsForOptions(u.quizQuestions, |t.quizQuestions|, t.nextQuizId, qs, 0);
    FinalizeCovered(u, notes, noteId, topic, difficulty, qs);
  }

  /** `finalize_quiz` keeps primary keys increasing and below the next id. */
  lemma FinalizeKeepsIds(t: Tables, notes: set<int>, noteId: int, topic: string, difficulty: string, qs: seq<Dict>)
    requires TablesValid(t)
    ensures TablesValid(Finalize(t, notes, noteId, topic, difficulty, qs).1)
  {
    var u := Finalize(t, notes, noteId, topic, difficulty, qs).1;
    if noteId in notes && TotalTimeMins(qs).Ok? {
      QuizIdsAppend(t.quizzes, u.quizzes[|t.quizzes|]);
      if Finalize(t, notes, noteId, topic, difficulty, qs).0.Ok? {
        FinalizeSuccess(t, notes, noteId, topic, difficulty, qs);
        LibraryIdsGrow(t.library, u.library, t.nextLibraryId);
      } else {
        assert u.library == t.library && u.nextLibraryId == t.nextLibraryId;
      }
    }
  }

  // ---------------------------------------------------------------------
  // generate_quiz
  // ---------------------------------------------------------------------

  /** `generate_quiz` (lines 13-38): the preview of the request, then its
      finalisation; a failing preview writes nothing. */
  function GenerateQuizOutcome(notes: set<int>, chunks: seq<ChunkRow>, t: Tables, req: PreviewRequest, o: Oracles)
    : (Result<FinalizeReport, Failure>, Tables)
  {
    match Preview(notes, chunks, t.library, req, o)
    case Err(e) => (Err(e), t)
    case Ok(qs) => Finalize(t, notes, req.lectureNoteId, req.topic, req.difficulty, qs)
  }

  method GenerateQuiz(db: Db, req: PreviewRequest, o: Oracles) returns (r: Result<FinalizeReport, Failure>)
    requires db.Valid()
    modifies db`quizzes, db`nextQuizId, db`quizQuestions, db`library, db`nextLibraryId
    ensures (r, Written(db)) == GenerateQuizOutcome(db.notes, db.chunks, old(Written(db)), req, o)
    ensures db.Valid()
  {
    var questions := GenerateQuestionsPreview(db, req, o);
    if questions.Err? {
      return Err(questions.error);
    }
    r := FinalizeQuiz(db, req.lectureNoteId, req.topic, req.difficulty, questions.value);
  }

  /** A generated quiz holds at least one question, the previewed ones in
      order, and afterwards every one of them has a library entry of the
      note. */
  lemma GenerateQuizSaves(notes: set<int>, chunks: seq<ChunkRow>, t: Tables, req: PreviewRequest, o: Oracles)
    requires GenerateQuizOutcome(notes, chunks, t, req, o).0.Ok?
    ensures Preview(notes, chunks, t.library, req, o).Ok?
    ensures GenerateQuizOutcome(notes, chunks, t, req, o).0.value.questionsSaved >= 1
    ensures QuizSaved(t, GenerateQuizOutcome(notes, chunks, t, req, o).1, GenerateQuizOutcome(notes, chunks, t, req, o).0.value,
                      req.lectureNoteId, req.topic, req.difficulty, Preview(notes, chunks, t.library, req, o).value)
  {
    var qs := Preview(notes, chunks, t.library, req, o).value;
    PreviewResult(notes, chunks, t.library, req, o);
    FinalizeSuccess(t, notes, req.lectureNoteId, req.topic, req.difficulty, qs);
  }
}
