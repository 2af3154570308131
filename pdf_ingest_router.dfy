/** The word-packing chunker of the PDF ingestion router
    (api/routers/pdf_ingest_router.py). Its `clean_text` is the same
    pipeline as `IngestService.CleanText`. */
module PdfIngestRouter {
  import opened Strings
  import opened Values
  import opened Database
  import IngestService

  /** The default `max_length` of `split_into_chunks`. */
  const DefaultMaxLength := 1000

  /** `sum(len(x) + 1 for x in current)`: the length of the words of
      `current` with one separator each. */
  function SumLen1(current: seq<string>): (n: nat)
    ensures current != [] ==> n > 0
  {
    if current == [] then 0 else |current[0]| + 1 + SumLen1(current[1..])
  }

  lemma {:induction false} SumLen1Snoc(current: seq<string>, w: string)
    ensures SumLen1(current + [w]) == SumLen1(current) + |w| + 1
  {
    if current != [] {
      assert (current + [w])[1..] == current[1..] + [w];
      SumLen1Snoc(current[1..], w);
    }
  }

  /** A non-empty list of words joined by single spaces is one character
      shorter than the words with one separator each. */
  lemma {:induction false} JoinLength(ws: seq<string>)
    requires ws != []
    ensures |Join(ws)| == SumLen1(ws) - 1
  {
    if |ws| > 1 {
      JoinLength(ws[1..]);
    }
  }

  /** The room a finished chunk takes in the packing test: its words with one
      separator each, which is 0 for the empty chunk. */
  function Packed(chunk: string): nat {
    if chunk == [] then 0 else |chunk| + 1
  }

  /** The words of each chunk. */
  function ChunkWords(chunks: seq<string>): seq<seq<string>> {
    seq(|chunks|, i requires 0 <= i < |chunks| => Words(chunks[i]))
  }

  /** Properties of a packing of `words` into `chunks`, as the method below
      promises them. */
  predicate IsGreedyPacking(words: seq<string>, chunks: seq<string>, maxLength: int) {
    // no word is lost, duplicated or reordered
    && Flatten(ChunkWords(chunks)) == words
    // each chunk is its words joined by single spaces
    && (forall i :: 0 <= i < |chunks| ==> chunks[i] == Join(Words(chunks[i])))
    // a chunk of two words or more fits in max_length
    && (forall i :: 0 <= i < |chunks| && |Words(chunks[i])| >= 2 ==> |chunks[i]| <= maxLength)
    // a chunk is closed only when the next word does not fit
    && (forall i :: 0 <= i < |chunks| - 1 ==> ChunkClosedBefore(chunks, i, maxLength))
    // only the first chunk can be empty, exactly when the first word does not fit
    && (forall i :: 1 <= i < |chunks| ==> chunks[i] != "")
    && ((chunks != [] && chunks[0] == "") <==> (words != [] && |words[0]| > maxLength))
  }

  /** Chunk `i` was closed because the first word of chunk `i + 1` did not fit. */
  predicate ChunkClosedBefore(chunks: seq<string>, i: nat, maxLength: int)
    requires i + 1 < |chunks|
  {
    var next := Words(chunks[i + 1]);
    next != [] && Packed(chunks[i]) + |next[0]| > maxLength
  }

  /** Joining groups of words and splitting the result again gives the groups
      back, and the room a chunk takes is the room its group took. */
  lemma ChunkWordsOfGroups(words: seq<string>, groups: seq<seq<string>>, chunks: seq<string>)
    requires forall w :: w in words ==> IsWord(w)
    requires Flatten(groups) == words
    requires |groups| == |chunks|
    requires forall i :: 0 <= i < |chunks| ==> chunks[i] == Join(groups[i])
    ensures ChunkWords(chunks) == groups
    ensures forall i :: 0 <= i < |chunks| ==> Packed(chunks[i]) == SumLen1(groups[i])
  {
    forall i | 0 <= i < |groups|
      ensures forall w :: w in groups[i] ==> IsWord(w)
    {
      FlattenMember(groups, i);
    }
    forall i | 0 <= i < |chunks|
      ensures Words(chunks[i]) == groups[i]
      ensures Packed(chunks[i]) == SumLen1(groups[i])
    {
      WordsOfJoin(groups[i]);
      if groups[i] != [] {
        JoinLength(groups[i]);
      }
    }
  }

  /** The chunks built from groups of words that the packing loop keeps. */
  lemma ChunksOfGroups(words: seq<string>, groups: seq<seq<string>>, chunks: seq<string>, maxLength: int)
    requires forall w :: w in words ==> IsWord(w)
    requires Flatten(groups) == words
    requires |groups| == |chunks|
    requires forall i :: 0 <= i < |chunks| ==> chunks[i] == Join(groups[i])
    requires forall i :: 1 <= i < |groups| ==> groups[i] != []
    requires GroupsFitIn(groups, maxLength)
    requires ClosedGreedily(groups, maxLength)
    requires (groups != [] && groups[0] == []) <==> (words != [] && |words[0]| > maxLength)
    ensures IsGreedyPacking(words, chunks, maxLength)
  {
    ChunkWordsOfGroups(words, groups, chunks);
    forall i | 0 <= i < |chunks| - 1
      ensures ChunkClosedBefore(chunks, i, maxLength)
    {
      assert ClosedBefore(groups, i, maxLength);
      assert Words(chunks[i + 1]) == ChunkWords(chunks)[i + 1];
    }
    forall i | 0 <= i < |chunks|
      ensures chunks[i] == Join(Words(chunks[i]))
    {
      assert Words(chunks[i]) == ChunkWords(chunks)[i];
    }
  }

  /** The groups of words the packing loop of lines 130-139 forms from the
      remaining words `ws`, given the open group `current`. */
  function Groups(ws: seq<string>, current: seq<string>, maxLength: int): seq<seq<string>>
    decreases |ws|
  {
    if ws == [] then (if current == [] then [] else [current])
    else if SumLen1(current) + |ws[0]| > maxLength then [current] + Groups(ws[1..], [ws[0]], maxLength)
    else Groups(ws[1..], current + [ws[0]], maxLength)
  }

  /** `" ".join` applied to each group. */
  function JoinAll(groups: seq<seq<string>>): (chunks: seq<string>)
    ensures |chunks| == |groups|
    ensures forall i :: 0 <= i < |groups| ==> chunks[i] == Join(groups[i])
  {
    if groups == [] then [] else [Join(groups[0])] + JoinAll(groups[1..])
  }

  lemma JoinAllCons(group: seq<string>, groups: seq<seq<string>>)
    ensures JoinAll([group] + groups) == [Join(group)] + JoinAll(groups)
  {
    assert ([group] + groups)[1..] == groups;
  }

  /** The chunks of the words of `text`: the reference for `SplitIntoChunks`. */
  function PackWords(text: string, maxLength: int): seq<string> {
    JoinAll(Groups(Words(text), [], maxLength))
  }

  /** The groups hold the open group followed by the remaining words, in order. */
  lemma {:induction false} GroupsFlatten(ws: seq<string>, current: seq<string>, maxLength: int)
    ensures Flatten(Groups(ws, current, maxLength)) == current + ws
    decreases |ws|
  {
    if ws == [] {
      if current != [] {
        assert Flatten([current]) == current + Flatten([current][1..]);
      }
    } else if SumLen1(current) + |ws[0]| > maxLength {
      var rest := Groups(ws[1..], [ws[0]], maxLength);
      GroupsFlatten(ws[1..], [ws[0]], maxLength);
      assert ([current] + rest)[1..] == rest;
      assert [ws[0]] + ws[1..] == ws;
    } else {
      GroupsFlatten(ws[1..], current + [ws[0]], maxLength);
      assert (current + [ws[0]]) + ws[1..] == current + ws;
    }
  }

  /** A non-empty open group is the start of the first group. */
  lemma {:induction false} GroupsFirst(ws: seq<string>, current: seq<string>, maxLength: int)
    requires current != []
    ensures var g := Groups(ws, current, maxLength);
      g != [] && |current| <= |g[0]| && g[0][..|current|] == current
    decreases |ws|
  {
    if ws != [] && SumLen1(current) + |ws[0]| <= maxLength {
      var c := current + [ws[0]];
      GroupsFirst(ws[1..], c, maxLength);
      var g := Groups(ws[1..], c, maxLength);
      assert g[0][..|current|] == g[0][..|c|][..|current|];
    }
  }

  /** Only the first group can be empty, and it is empty exactly when there
      is no open group and the next word does not fit. */
  lemma {:induction false} GroupsNonEmpty(ws: seq<string>, current: seq<string>, maxLength: int)
    ensures var g := Groups(ws, current, maxLength);
      && (g == [] <==> (current == [] && ws == []))
      && ((g != [] && g[0] == []) <==> (current == [] && ws != [] && |ws[0]| > maxLength))
      && (forall i :: 1 <= i < |g| ==> g[i] != [])
    decreases |ws|
  {
    var g := Groups(ws, current, maxLength);
    if ws == [] {
    } else if SumLen1(current) + |ws[0]| > maxLength {
      var rest := Groups(ws[1..], [ws[0]], maxLength);
      GroupsNonEmpty(ws[1..], [ws[0]], maxLength);
      GroupsFirst(ws[1..], [ws[0]], maxLength);
      assert g == [current] + rest;
      assert forall i :: 1 <= i < |g| ==> g[i] == rest[i - 1];
    } else {
      GroupsNonEmpty(ws[1..], current + [ws[0]], maxLength);
      GroupsFirst(ws[1..], current + [ws[0]], maxLength);
    }
  }

  /** Every group of two words or more fits: its words with one separator
      each take at most `max_length + 1` characters. */
  predicate GroupsFitIn(groups: seq<seq<string>>, maxLength: int) {
    forall i :: 0 <= i < |groups| && |groups[i]| >= 2 ==> SumLen1(groups[i]) <= maxLength + 1
  }

  /** The packing only ever forms groups that fit, as long as the open group
      it starts from does. */
  lemma {:induction false} GroupsFit(ws: seq<string>, current: seq<string>, maxLength: int)
    requires |current| >= 2 ==> SumLen1(current) <= maxLength + 1
    ensures GroupsFitIn(Groups(ws, current, maxLength), maxLength)
    decreases |ws|
  {
    var g := Groups(ws, current, maxLength);
    if ws == [] {
    } else if SumLen1(current) + |ws[0]| > maxLength {
      var rest := Groups(ws[1..], [ws[0]], maxLength);
      GroupsFit(ws[1..], [ws[0]], maxLength);
      assert g == [current] + rest;
      forall i | 0 <= i < |g| && |g[i]| >= 2
        ensures SumLen1(g[i]) <= maxLength + 1
      {
        if i > 0 {
          assert g[i] == rest[i - 1];
        }
      }
    } else {
      SumLen1Snoc(current, ws[0]);
      GroupsFit(ws[1..], current + [ws[0]], maxLength);
    }
  }

  /** Each group was closed because the first word of the next one did not fit. */
  predicate ClosedGreedily(groups: seq<seq<string>>, maxLength: int) {
    forall i :: 0 <= i < |groups| - 1 ==> ClosedBefore(groups, i, maxLength)
  }

  /** Group `i` was closed because the first word of group `i + 1` did not fit. */
  predicate ClosedBefore(groups: seq<seq<string>>, i: nat, maxLength: int)
    requires i + 1 < |groups|
  {
    groups[i + 1] != [] && SumLen1(groups[i]) + |groups[i + 1][0]| > maxLength
  }

  /** The packing closes a group only when the next word does not fit. */
  lemma {:induction false} GroupsGreedy(ws: seq<string>, current: seq<string>, maxLength: int)
    ensures ClosedGreedily(Groups(ws, current, maxLength), maxLength)
    decreases |ws|
  {
    var g := Groups(ws, current, maxLength);
    if ws == [] {
    } else if SumLen1(current) + |ws[0]| > maxLength {
      var rest := Groups(ws[1..], [ws[0]], maxLength);
      GroupsGreedy(ws[1..], [ws[0]], maxLength);
      GroupsFirst(ws[1..], [ws[0]], maxLength);
      assert rest[0][0] == ws[0];
      assert g == [current] + rest;
      forall i | 0 <= i < |g| - 1
        ensures ClosedBefore(g, i, maxLength)
      {
        if i > 0 {
          assert g[i] == rest[i - 1] && g[i + 1] == rest[i];
          assert ClosedBefore(rest, i - 1, maxLength);
        } else {
          assert g[i] == current && g[i + 1] == rest[0];
        }
      }
    } else {
      GroupsGreedy(ws[1..], current + [ws[0]], maxLength);
    }
  }

  /** The reference packing has every property the method promises. */
  lemma PackWordsIsGreedy(text: string, maxLength: int)
    ensures PackWords(text, maxLength) == [] <==> IsBlank(text)
    ensures IsGreedyPacking(Words(text), PackWords(text, maxLength), maxLength)
  {
    var words := Words(text);
    WordsBlank(text);
    WordsAreWords(text);
    GroupsFlatten(words, [], maxLength);
    GroupsNonEmpty(words, [], maxLength);
    GroupsFit(words, [], maxLength);
    GroupsGreedy(words, [], maxLength);
    var g := Groups(words, [], maxLength);
    assert Flatten(g) == words by {
      assert [] + words == words;
    }
    ChunksOfGroups(words, g, JoinAll(g), maxLength);
  }

  /** `split_into_chunks(text, max_length)` of lines 126-141: greedy packing
      of the words of `text` into chunks of at most `max_length` characters.
      A chunk is closed exactly when the next word would not fit, so a word
      longer than `max_length` gets a chunk of its own, and a first word that
      does not fit closes an empty first chunk. Empty or whitespace-only text
      gives no chunk. */
  method SplitIntoChunks(text: string, maxLength: int) returns (chunks: seq<string>)
    ensures chunks == PackWords(text, maxLength)
    ensures chunks == [] <==> IsBlank(text)
    ensures IsGreedyPacking(Words(text), chunks, maxLength)
  {
    var words := Words(text);
    chunks := [];
    var current: seq<string> := [];
    for idx := 0 to |words|
      invariant chunks + JoinAll(Groups(words[idx..], current, maxLength)) == PackWords(text, maxLength)
    {
      var w := words[idx];
      ghost var ws := words[idx..];
      assert ws[0] == w && ws[1..] == words[idx + 1..];
      if SumLen1(current) + |w| > maxLength {
        ghost var rest := Groups(words[idx + 1..], [w], maxLength);
        JoinAllCons(current, rest);
        AppendAssoc(chunks, [Join(current)], JoinAll(rest));
        chunks := chunks + [Join(current)];
        current := [];
        assert current + [w] == [w];
      }
      current := current + [w];
    }
    assert words[|words|..] == [];
    if current != [] {
      chunks := chunks + [Join(current)];
    } else {
      assert chunks + [] == chunks;
    }
    PackWordsIsGreedy(text, maxLength);
  }

  // ---------------------------------------------------------------------
  // process_pdf
  // ---------------------------------------------------------------------

  /** The text lines 161-164 accumulate from the pages' extracted texts: each
      page's text followed by a newline. */
  function PagesText(pages: seq<string>): string {
    if pages == [] then "" else PagesText(pages[..|pages| - 1]) + pages[|pages| - 1] + "\n"
  }

  /** The accumulated text has no extractable text exactly when no page has. */
  lemma {:induction false} PagesTextBlank(pages: seq<string>)
    ensures IsBlank(PagesText(pages)) <==> forall i :: 0 <= i < |pages| ==> IsBlank(pages[i])
  {
    if pages != [] {
      var init := pages[..|pages| - 1];
      PagesTextBlank(init);
      var last := pages[|pages| - 1];
      BlankConcat(PagesText(init), last);
      BlankConcat(PagesText(init) + last, "\n");
      assert IsBlank("\n");
      assert forall i :: 0 <= i < |init| ==> init[i] == pages[i];
    }
  }

  /** Lines 161-164: the loop over the pages. */
  method ExtractText(pages: seq<string>) returns (text: string)
    ensures text == PagesText(pages)
    ensures |text| >= |pages|
  {
    text := "";
    for i := 0 to |pages|
      invariant text == PagesText(pages[..i])
      invariant |text| >= i
    {
      assert pages[..i + 1][..i] == pages[..i];
      text := text + pages[i] + "\n";
    }
    assert pages[..|pages|] == pages;
  }

  /** The chunk rows of `process_pdf` carry no embedding. */
  function NoEmbedding(chunk: string): Option<Bytes> {
    None
  }

  /** The JSON body of a successful `process_pdf`. */
  datatype PdfReport = PdfReport(
    lectureNoteId: int,
    rawTextLength: nat,
    cleanedTextLength: nat,
    totalChunks: nat)

  /** The 500 error that the `except Exception` of lines 199-200 makes of an
      exception raised inside the `try`; an `HTTPException` renders as
      "<status>: <detail>". */
  function Wrapped(inner: HttpError): HttpError {
    HttpError(500, "PDF processing error: " + IntToString(inner.status) + ": " + inner.detail)
  }

  /** Decimal digits of a status code. */
  function IntToString(n: int): string
    decreases if n < 0 then 1 - n else n
  {
    if n < 0 then "-" + IntToString(-n)
    else if n < 10 then [DigitChar(n)]
    else IntToString(n / 10) + [DigitChar(n % 10)]
  }

  function DigitChar(d: int): char
    requires 0 <= d < 10
  {
    "0123456789"[d]
  }

  /** Lines 166-197, the work on the extracted text inside the `try`: a
      blank text and a text that cleaning empties are 400 errors, which the
      `except` wraps into 500 errors; otherwise the chunks of the cleaned text
      are stored in order with indices 0, 1, ... and no embedding. */
  method ProcessText(db: Db, lectureNoteId: int, extractedText: string, steps: IngestService.OpaqueSteps)
    returns (r: Result<PdfReport, HttpError>)
    modifies db`chunks
    ensures IsBlank(extractedText) ==>
      r == Err(Wrapped(HttpError(400, "No extractable text in PDF"))) && db.chunks == old(db.chunks)
    ensures !IsBlank(extractedText) && IngestService.CleanText(extractedText, steps) == [] ==>
      r == Err(Wrapped(HttpError(400, "Text cleaning removed too much content"))) && db.chunks == old(db.chunks)
    ensures !IsBlank(extractedText) && IngestService.CleanText(extractedText, steps) != [] ==>
      var cleaned := IngestService.CleanText(extractedText, steps);
      var chunks := PackWords(cleaned, DefaultMaxLength);
      && chunks != []
      && r == Ok(PdfReport(lectureNoteId, |extractedText|, |cleaned|, |chunks|))
      && db.chunks == old(db.chunks) + IngestService.StoredRows(lectureNoteId, chunks, NoEmbedding)
  {
    StripBlank(extractedText);
    if Strip(extractedText) == [] {
      return Err(Wrapped(HttpError(400, "No extractable text in PDF")));
    }
    var cleanedText := IngestService.CleanText(extractedText, steps);
    CleanedBlank(extractedText, steps);
    if Strip(cleanedText) == [] {
      return Err(Wrapped(HttpError(400, "Text cleaning removed too much content")));
    }
    var textChunks := SplitIntoChunks(cleanedText, DefaultMaxLength);
    var _ := IngestService.StoreChunks(db, lectureNoteId, textChunks, NoEmbedding);
    return Ok(PdfReport(lectureNoteId, |extractedText|, |cleanedText|, |textChunks|));
  }

  /** The cleaned text is blank only when it is empty. */
  lemma CleanedBlank(raw: string, steps: IngestService.OpaqueSteps)
    ensures Strip(IngestService.CleanText(raw, steps)) == [] <==> IngestService.CleanText(raw, steps) == []
    ensures IsBlank(IngestService.CleanText(raw, steps)) <==> IngestService.CleanText(raw, steps) == []
  {
    var cleaned := IngestService.CleanText(raw, steps);
    IngestService.CleanTextShape(raw, steps);
    StripBlank(cleaned);
    assert cleaned != [] ==> !IsSpace(cleaned[0]);
  }

  /** `process_pdf(lecture_note_id)` of lines 148-200. The PDF on disk is the
      pair `fileExists` / `pages` (the text `page.extract_text()` gives for
      each page); the regular expressions of `clean_text` that are not
      modelled exactly are `steps`. Unknown note: 404; missing file: 400;
      otherwise the outcomes of `ProcessText` on the text of the pages. */
  method ProcessPdf(db: Db, lectureNoteId: int, fileExists: bool, pages: seq<string>,
                    steps: IngestService.OpaqueSteps)
    returns (r: Result<PdfReport, HttpError>)
    modifies db`chunks
    ensures lectureNoteId !in db.notes ==>
      r == Err(HttpError(404, "Lecture note not found")) && db.chunks == old(db.chunks)
    ensures lectureNoteId in db.notes && !fileExists ==>
      r == Err(HttpError(400, "PDF file does not exist on server")) && db.chunks == old(db.chunks)
    ensures lectureNoteId in db.notes && fileExists && (forall i :: 0 <= i < |pages| ==> IsBlank(pages[i])) ==>
      r == Err(Wrapped(HttpError(400, "No extractable text in PDF"))) && db.chunks == old(db.chunks)
    ensures lectureNoteId in db.notes && fileExists && !IsBlank(PagesText(pages))
            && IngestService.CleanText(PagesText(pages), steps) == [] ==>
      r == Err(Wrapped(HttpError(400, "Text cleaning removed too much content"))) && db.chunks == old(db.chunks)
    ensures lectureNoteId in db.notes && fileExists && !IsBlank(PagesText(pages))
            && IngestService.CleanText(PagesText(pages), steps) != [] ==>
      var cleaned := IngestService.CleanText(PagesText(pages), steps);
      var chunks := PackWords(cleaned, DefaultMaxLength);
      && r == Ok(PdfReport(lectureNoteId, |PagesText(pages)|, |cleaned|, |chunks|))
      && db.chunks == old(db.chunks) + IngestService.StoredRows(lectureNoteId, chunks, NoEmbedding)
    ensures lectureNoteId in db.notes && fileExists && r.Ok? ==>
      r.value.rawTextLength == |PagesText(pages)| >= |pages| && r.value.totalChunks > 0
  {
    if lectureNoteId !in db.notes {
      return Err(HttpError(404, "Lecture note not found"));
    }
    if !fileExists {
      return Err(HttpError(400, "PDF file does not exist on server"));
    }
    var extractedText := ExtractText(pages);
    PagesTextBlank(pages);
    r := ProcessText(db, lectureNoteId, extractedText, steps);
  }

  /** Every word of a group occurs in the concatenation of the groups. */
  lemma {:induction false} FlattenMember(groups: seq<seq<string>>, i: nat)
    requires i < |groups|
    ensures forall w :: w in groups[i] ==> w in Flatten(groups)
  {
    if i > 0 {
      FlattenMember(groups[1..], i - 1);
    }
  }
}
