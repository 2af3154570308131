# Quiz backend (RAG) — a Dafny model of its core

The quiz backend turns lecture notes (PDFs) into multiple-choice quizzes.

- **Ingestion.** A note's text is cleaned of headers, e-mail addresses, URLs and stray whitespace. It is then cut into chunks, which are stored with their sentence embeddings.
- **Search.** A topic query is embedded, and the note's chunks are ranked by cosine similarity to it.
- **Preview.** The best five chunks are handed one after another to a Phi-3 model, which answers each prompt with a JSON question. Questions the teacher picked from the note's question library come first. Further questions are generated per difficulty level until each level's target is met, within a retry budget, with no repeated question text.
- **Finalisation.** The quiz is stored with its questions, and every new question text enters the library as a good question. A teacher can later mark a library question as poor, which takes it out of the library listing.

The model has one module per source file, plus three shared modules:

| module | file | models |
|---|---|---|
| `Strings` | `strings.dfy` | Python's whitespace, `str.split()`, `" ".join`, `strip`, `find`/`rfind` on characters |
| `Values` | `values.dfy` | `Option`/`Result`, the JSON values `json.loads` yields, Python truthiness |
| `Database` | `database.dfy` | the rows of the tables the core reads and writes, and a `Db` class holding them |
| `IngestService` | `ingest_service.dfy` | `clean_text`, the overlapping character chunker and `process_and_store_chunks` |
| `PdfIngestRouter` | `pdf_ingest_router.dfy` | the word-packing chunker and the `process_pdf` endpoint |
| `SearchService` | `search_service.dfy` | `bytes_to_vector`, `cosine_similarity` and `search_lecture_chunks` |
| `McqGenerator` | `mcq_generator.dfy` | `clean_json_output`, `build_prompt` and the answer handling of `generate_mcq_phi3` |
| `QuizGenerationService` | `quiz_generation_service.dfy` | `generate_questions_preview`, `finalize_quiz` and `generate_quiz` |
| `QuestionLibraryRouter` | `question_library_router.dfy` | listing good library questions and `mark_question_poor` |

Some code works by changing state step by step: the chunker loops, the store loops, the search loop, the preview's generation loop, the finalisation's save loop and the endpoints that write tables. Each is a `method`, with loop invariants where it loops. The methods write the fields of a `Database.Db` object and are proved equal to a specification function. The properties the source promises are proved about those functions as lemmas. Python exceptions are error values (`Result`), never preconditions.

Oracles are function-valued parameters. They are:
- the embedding model;
- the float arithmetic of the similarity (norm and dot product);
- the Phi-3 model's answer to the n-th call;
- the JSON decoder;
- the two regular-expression steps of `clean_text` kept abstract.

Paths below are relative to the repository root.

## Model

| member | source | states |
|---|---|---|
| Strings.StripLeading | quiz_backend_rag/api/services/ingest_service.py:43 | the result is a suffix of the input that starts with no whitespace, and everything cut off is whitespace |
| Strings.StripTrailing | quiz_backend_rag/api/services/ingest_service.py:43 | the result is a prefix of the input that ends with no whitespace, and everything cut off is whitespace |
| Strings.StripBlank | quiz_backend_rag/api/routers/pdf_ingest_router.py:166 | `text.strip()` is empty exactly when the text is all whitespace |
| Strings.BlankConcat | quiz_backend_rag/api/routers/pdf_ingest_router.py:163-166 | a concatenation is all whitespace exactly when both parts are |
| Strings.WordsAreWords | quiz_backend_rag/api/routers/pdf_ingest_router.py:128 | every word `split()` yields is non-empty and has no whitespace |
| Strings.WordsOfJoin | quiz_backend_rag/api/routers/pdf_ingest_router.py:128-139 | splitting the single-space join of words gives back those words |
| Strings.WordsBlank | quiz_backend_rag/api/routers/pdf_ingest_router.py:128 | `split()` yields no word exactly when the text is all whitespace |
| Strings.StripWrapped | quiz_backend_rag/api/services/mcq_generator.py:51-77 | stripping a text wrapped in two line breaks gives the text back when it neither starts nor ends with whitespace |
| Strings.IndexOf | quiz_backend_rag/api/services/mcq_generator.py:42 | the first position of the character, or -1 exactly when it does not occur |
| Strings.LastIndexOf | quiz_backend_rag/api/services/ingest_service.py:78 | the last position of the character (`rfind`), or -1 exactly when it does not occur |
| Database.FindEntry | quiz_backend_rag/api/routers/question_library_router.py:37-40 | the first library entry of the note with exactly that question text, or -1 exactly when there is none |
| Database.FindEntryExtend | quiz_backend_rag/api/services/quiz_generation_service.py:188-191 | entries added after a match do not change which entry `.first()` finds |
| Database.FindEntryAppend | quiz_backend_rag/api/services/quiz_generation_service.py:188-206 | with no match before, an added entry is found exactly when it matches |
| Database.FindQuiz | quiz_backend_rag/api/routers/question_library_router.py:30 | the quiz with the id if one exists, and `None` exactly when no quiz has it |
| Database.QuizIdsAppend | quiz_backend_rag/api/services/quiz_generation_service.py:154-168 | a quiz row numbered with the next id keeps every quiz id below the counter |
| Database.LibraryIdsGrow | quiz_backend_rag/api/services/quiz_generation_service.py:194-206 | entries appended with consecutive ids from the counter keep every library id below the advanced counter |
| IngestService.FindFrom | quiz_backend_rag/api/services/ingest_service.py:26-27 | the first occurrence of a pattern at or after a position, and `None` exactly when there is none |
| IngestService.RemoveHeadersNoHeader | quiz_backend_rag/api/services/ingest_service.py:26-27 | text without the header start "Programming Fundamentals" is left unchanged |
| IngestService.RemoveHeadersShortestSpan | quiz_backend_rag/api/services/ingest_service.py:26-27 | a header is removed up to the first "0332-7661819" after it (the non-greedy `.*?`), and removal goes on after it |
| IngestService.RemoveEmails | quiz_backend_rag/api/services/ingest_service.py:30 | removing e-mail tokens never lengthens the text and keeps a leading whitespace character |
| IngestService.RemoveEmailsTokens | quiz_backend_rag/api/services/ingest_service.py:30 | the words left are exactly the earlier words with no `@` between two non-space characters, in order |
| IngestService.RemoveEmailsIdempotent | quiz_backend_rag/api/services/ingest_service.py:30 | removing e-mail tokens a second time changes nothing |
| IngestService.WithoutEmails | quiz_backend_rag/api/services/ingest_service.py:30 | the words kept are exactly the input words with no interior `@`: every kept word is such an input word, and every such input word is kept |
| IngestService.RemoveUrls | quiz_backend_rag/api/services/ingest_service.py:34 | removing `http…` and `www.…` tokens never lengthens the text |
| IngestService.ReplaceDoubleSpaces | quiz_backend_rag/api/services/ingest_service.py:40 | replacing double spaces never lengthens the text |
| IngestService.ReplaceDoubleSpacesSingleSpaced | quiz_backend_rag/api/services/ingest_service.py:40 | on single-spaced text the replacement changes nothing |
| IngestService.CollapseWhitespace | quiz_backend_rag/api/services/ingest_service.py:41 | the result is single-spaced, is empty exactly when the input is, starts with whitespace exactly when the input does, and is never longer |
| IngestService.CollapseSingleSpaced | quiz_backend_rag/api/services/ingest_service.py:41 | collapsing already single-spaced text changes nothing |
| IngestService.SingleSpacedSlice | quiz_backend_rag/api/services/ingest_service.py:41-43 | a slice of single-spaced text is single-spaced |
| IngestService.StripSingleSpaced | quiz_backend_rag/api/services/ingest_service.py:43 | stripping single-spaced text gives normalised text no longer than it |
| IngestService.NormalizeWhitespaceShape | quiz_backend_rag/api/services/ingest_service.py:40-43 | the whitespace steps produce normalised text: no whitespace at either end, words separated by single spaces, never longer than the input |
| IngestService.NormalizeWhitespaceIdempotent | quiz_backend_rag/api/services/ingest_service.py:40-43 | the whitespace steps applied twice give the same text as once |
| IngestService.CleanTextShape | quiz_backend_rag/api/services/ingest_service.py:21-43 | `CleanText`, the model of `clean_text`, always returns normalised text, and it is no longer than the raw text when the phone-number and page-number steps never lengthen |
| IngestService.WindowEnd | quiz_backend_rag/api/services/ingest_service.py:59-82 | a window that does not reach the end is at most `chunk_size` long; when it is shorter, it was cut before a space lying beyond 90% of `chunk_size` |
| IngestService.NextStart | quiz_backend_rag/api/services/ingest_service.py:87-91 | the corrected cursor step always advances the cursor, and never past the window's end |
| IngestService.NextStartAgreesWithSource | quiz_backend_rag/api/services/ingest_service.py:87-91 | when `10 * overlap <= 9 * chunk_size` (the defaults 1000/150 qualify) the corrected step is exactly the source's step |
| IngestService.SourceRewindsBelowZero | quiz_backend_rag/api/services/ingest_service.py:58-91 | as written, with 28 letters, " aa" and nine spaces, chunk_size 31 and overlap 29, the first window is cut at 28 and the cursor becomes -1 without the loop breaking; the model's step moves it to 28 and `Split` gives the two chunks `text[:28]` and `text[28:]` |
| IngestService.PySlice | quiz_backend_rag/api/services/ingest_service.py:77 | `s[i:j]` with Python's bounds: never longer than what follows the lower bound, and the plain slice when `0 <= i <= j <= len(s)` |
| IngestService.SourceWindowEnd | quiz_backend_rag/api/services/ingest_service.py:59-82 | the window end as written, for any cursor and size, with the candidate taken as a Python slice; it is `WindowEnd` wherever that is defined |
| IngestService.SourceStallsOnNonPositiveSize | quiz_backend_rag/api/services/ingest_service.py:58-91 | as written, with `chunk_size <= 0` and the cursor inside the text, line 62 never breaks, and both the window end (cut or not) and the next cursor stay below the text's length, so the test of line 58 holds again and the loop never ends on non-empty text; with `chunk_size == 0` the end is the cursor and the cursor never moves forward |
| IngestService.SourceCutsOnNegativeSize | quiz_backend_rag/api/services/ingest_service.py:77-91 | as written, a negative size can still move the cursor forward: on "a b c d e f g h" with chunk_size -3 the candidate is `text[0:12]`, the end is cut to 11 and the cursor moves to 11 |
| IngestService.SourceStepStalls | quiz_backend_rag/api/services/ingest_service.py:87-91 | as written, a positive overlap at least as long as the window leaves the cursor where it was or moves it back |
| IngestService.SourceLoopsOnLargeOverlap | quiz_backend_rag/api/services/ingest_service.py:58-91 | as written, 25 letters with `chunk_size = overlap = 10` send the cursor from 0 back to 0, so the loop never ends |
| IngestService.Windows | quiz_backend_rag/api/services/ingest_service.py:58-91 | the windows lie inside the text, each at most `chunk_size` long; there is one exactly when text remains; the first starts at the cursor and the last ends at the text's end |
| IngestService.ChunksAreSlices | quiz_backend_rag/api/services/ingest_service.py:58-91 | `Split` (the chunker as a recursive function) gives exactly the slices `Slices` of the windows `Windows` visits |
| IngestService.WindowsChain | quiz_backend_rag/api/services/ingest_service.py:58-91 | each window but the last ends where the 90%-rule puts it and the next starts at the cursor step; only the last window reaches the end |
| IngestService.SplitShortText | quiz_backend_rag/api/services/ingest_service.py:51-64 | empty text gives no chunk, and text no longer than `chunk_size` gives itself as the only chunk |
| IngestService.ChunkLengths | quiz_backend_rag/api/services/ingest_service.py:58-84 | every chunk is non-empty and at most `chunk_size` long, and every chunk but the last is longer than 90% of `chunk_size` |
| IngestService.ChunkBoundaries | quiz_backend_rag/api/services/ingest_service.py:51-93 | the chunks are the window slices; the first starts at 0 and the last ends at the end; neighbours meet exactly for a non-positive overlap, and overlap by `overlap` characters when `0 < overlap` and `10 * overlap <= 9 * chunk_size` |
| IngestService.SpansShareOverlap | quiz_backend_rag/api/services/ingest_service.py:87 | two ranges that overlap by `overlap` characters give slices that share those characters |
| IngestService.NeighboursShareOverlap | quiz_backend_rag/api/services/ingest_service.py:84-87 | for `0 <= overlap` with `10 * overlap <= 9 * chunk_size`, each chunk's last `overlap` characters are the next chunk's first ones |
| IngestService.NeighbourWindowsShare | quiz_backend_rag/api/services/ingest_service.py:84-87 | for `0 <= overlap` with `10 * overlap <= 9 * chunk_size`, two consecutive windows share their `overlap` characters |
| IngestService.StartsIncrease | quiz_backend_rag/api/services/ingest_service.py:87-91 | the chunk starts strictly increase, so the loop terminates |
| IngestService.ShortenedChunkEndsAtSpace | quiz_backend_rag/api/services/ingest_service.py:77-82 | a chunk cut short of `chunk_size` is followed by a space in the text |
| IngestService.WindowsCoverText | quiz_backend_rag/api/services/ingest_service.py:58-91 | every character of the text lies in some window: nothing is lost between chunks |
| IngestService.BreakAtSpace | quiz_backend_rag/api/services/ingest_service.py:77-82 | the method's loop finds the window end the 90%-rule defines |
| IngestService.SplitIntoChunks | quiz_backend_rag/api/services/ingest_service.py:45-93 | the method returns `Split(text, chunk_size, overlap)`, so all the chunker lemmas above hold for its chunks |
| IngestService.CountEmbedded | quiz_backend_rag/api/services/ingest_service.py:113-115 | the count of embedded chunks is at most the number of chunks; it equals it exactly when every chunk got an embedding, and is zero exactly when none did |
| IngestService.StoreChunks | quiz_backend_rag/api/services/ingest_service.py:111-126 | one chunk row per chunk is appended in order, with index, text and embedding, and the embedded chunks are counted |
| IngestService.ProcessAndStoreChunks | quiz_backend_rag/api/services/ingest_service.py:95-128 | it returns the number of chunks of the cleaned text and the number that got an embedding, and appends exactly their rows (none for an empty text) |
| PdfIngestRouter.SumLen1 | quiz_backend_rag/api/routers/pdf_ingest_router.py:133 | the running length `sum(len(x) + 1 ...)` is positive once a word is pending |
| PdfIngestRouter.JoinLength | quiz_backend_rag/api/routers/pdf_ingest_router.py:133-139 | a joined chunk is one character shorter than that running length |
| PdfIngestRouter.JoinAll | quiz_backend_rag/api/routers/pdf_ingest_router.py:133-139 | one chunk per word group, each its words joined by single spaces |
| PdfIngestRouter.GroupsFlatten | quiz_backend_rag/api/routers/pdf_ingest_router.py:132-139 | the groups, concatenated, are the pending words followed by the remaining words: no word is lost, doubled or reordered |
| PdfIngestRouter.GroupsNonEmpty | quiz_backend_rag/api/routers/pdf_ingest_router.py:132-139 | there is no group exactly when there is no word; only the first group can be empty, exactly when the first word alone exceeds `max_length` |
| PdfIngestRouter.GroupsFit | quiz_backend_rag/api/routers/pdf_ingest_router.py:133-136 | every group of two words or more fits in `max_length` |
| PdfIngestRouter.GroupsGreedy | quiz_backend_rag/api/routers/pdf_ingest_router.py:133-135 | a group is closed only when the next word does not fit |
| PdfIngestRouter.ChunksOfGroups | quiz_backend_rag/api/routers/pdf_ingest_router.py:126-141 | joined groups with those properties form a greedy packing of the words |
| PdfIngestRouter.PackWordsIsGreedy | quiz_backend_rag/api/routers/pdf_ingest_router.py:126-141 | `PackWords`, the packing as a recursive function, is empty exactly when the text is blank, and it is greedy: the words in order, single-spaced, multi-word chunks within `max_length`, each chunk closed only when the next word does not fit |
| PdfIngestRouter.SplitIntoChunks | quiz_backend_rag/api/routers/pdf_ingest_router.py:126-141 | the method returns `PackWords(text, max_length)`: that greedy packing, empty exactly for blank text |
| PdfIngestRouter.PagesTextBlank | quiz_backend_rag/api/routers/pdf_ingest_router.py:163-167 | the accumulated text is blank exactly when every page's text is |
| PdfIngestRouter.ExtractText | quiz_backend_rag/api/routers/pdf_ingest_router.py:161-164 | the loop's text is the page texts each followed by a line break, so it is at least one character per page |
| PdfIngestRouter.CleanedBlank | quiz_backend_rag/api/routers/pdf_ingest_router.py:170-173 | cleaned text is blank, stripped or not, exactly when it is empty |
| PdfIngestRouter.ProcessText | quiz_backend_rag/api/routers/pdf_ingest_router.py:166-200 | blank text and text that cleaning empties give their 400 details wrapped into the 500 of line 200 and store nothing; otherwise the greedy chunks of the cleaned text are stored without embeddings and reported with the three lengths |
| PdfIngestRouter.ProcessPdf | quiz_backend_rag/api/routers/pdf_ingest_router.py:148-200 | an unknown note gives 404 and a missing file 400, storing nothing; all-blank pages give the wrapped "No extractable text in PDF" and text that cleaning empties the wrapped "Text cleaning removed too much content", storing nothing; otherwise the greedy `PackWords` chunks of the cleaned page text are stored in order without embeddings and reported with the raw length (at least the page count), the cleaned length and a positive chunk count |
| SearchService.FromBuffer | quiz_backend_rag/api/services/search_service.py:12 | `np.frombuffer` succeeds exactly when the length is a multiple of four, giving one four-byte float per four bytes |
| SearchService.ToBytesSlices | quiz_backend_rag/api/services/search_service.py:8-12 | serialising a vector puts element `i` at bytes `4i..4i+4` |
| SearchService.FromBufferToBytes | quiz_backend_rag/api/services/search_service.py:8-12 | decoding a serialised vector gives the vector back |
| SearchService.ToBytesFromBuffer | quiz_backend_rag/api/services/search_service.py:8-12 | serialising a decoded blob gives the blob back |
| SearchService.BytesToVector | quiz_backend_rag/api/services/search_service.py:8-12 | a missing or empty blob gives the empty vector, and any other blob is decoded |
| SearchService.BytesToVectorOfStored | quiz_backend_rag/api/services/search_service.py:8-12 | a stored non-empty embedding decodes to its vector |
| SearchService.CosineSimilarity | quiz_backend_rag/api/services/search_service.py:14-22 | an empty vector or a zero norm gives 0.0; otherwise vectors of different lengths make `np.dot` fail, and a non-zero result needs equal lengths and a non-zero dot product |
| SearchService.NoteChunks | quiz_backend_rag/api/services/search_service.py:37 | exactly the chunk rows of the lecture note |
| SearchService.Embedded | quiz_backend_rag/api/services/search_service.py:43-45 | the positions kept are exactly those of the chunks that have an embedding: each kept position has one, and each chunk that has one is kept |
| SearchService.SimilaritiesShape | quiz_backend_rag/api/services/search_service.py:41-50 | one scored entry per embedded chunk, in enumeration order, each carrying its own chunk |
| SearchService.SimilaritiesErr | quiz_backend_rag/api/services/search_service.py:43-50 | the first failing chunk ends the search with its error |
| SearchService.InsertDescMultiset | quiz_backend_rag/api/services/search_service.py:53 | inserting into the ranking adds exactly that entry |
| SearchService.SortDescMultiset | quiz_backend_rag/api/services/search_service.py:53 | the sort is a permutation |
| SearchService.SortDescSorted | quiz_backend_rag/api/services/search_service.py:53 | the sort orders by similarity, highest first |
| SearchService.SortDescStable | quiz_backend_rag/api/services/search_service.py:53 | the sort is stable: equal similarities keep their enumeration order (`reverse=True` keeps stability) |
| SearchService.InsertDescSorted | quiz_backend_rag/api/services/search_service.py:53 | inserting into a descending ranking keeps it descending |
| SearchService.InsertDescStable | quiz_backend_rag/api/services/search_service.py:53 | inserting a later entry keeps equal similarities in enumeration order |
| SearchService.InsertDescDistinct | quiz_backend_rag/api/services/search_service.py:53 | inserting a new position keeps the positions distinct |
| SearchService.InsertIndex | quiz_backend_rag/api/services/search_service.py:53 | the insertion point lies after every entry at least as similar and before the first less similar one |
| SearchService.InsertDescAt | quiz_backend_rag/api/services/search_service.py:53 | inserting places the entry at that point and keeps the rest |
| SearchService.PySliceTo | quiz_backend_rag/api/services/search_service.py:56 | `s[:k]` is a prefix of `s`, of length `min(k, len(s))` for a non-negative `k` |
| SearchService.RankedSorted | quiz_backend_rag/api/services/search_service.py:53-56 | the top entries are descending, stable and distinct |
| SearchService.RankedTop | quiz_backend_rag/api/services/search_service.py:53-56 | every returned entry is at least as similar as every entry left out |
| SearchService.RankedMembers | quiz_backend_rag/api/services/search_service.py:53-56 | every returned entry is one of the scored entries |
| SearchService.RankedOrder | quiz_backend_rag/api/services/search_service.py:41-56 | the result is descending, stable and distinct, beats every entry left out, and has `min(top_k, number embedded)` entries |
| SearchService.SearchResult | quiz_backend_rag/api/services/search_service.py:24-56 | no query embedding, or a note without chunks, gives `[]`; the chunks returned are embedded chunks of the note, and there are `min(top_k, number embedded)` of them |
| SearchService.SearchedChunks | quiz_backend_rag/api/services/search_service.py:43-56 | the returned chunks are embedded chunks of those searched, `min(top_k, number embedded)` of them |
| SearchService.ScoreChunks | quiz_backend_rag/api/services/search_service.py:41-50 | the loop scores the chunks as the specification function does, including its failure |
| SearchService.SearchLectureChunks | quiz_backend_rag/api/services/search_service.py:24-56 | the method returns `Search(rows, note, embed(query), top_k, ops)`, the function whose properties SearchResult and RankedOrder state |
| McqGenerator.CleanJsonOutput | quiz_backend_rag/api/services/mcq_generator.py:37-45 | the output is never longer than the text; what it is, the lemmas below state |
| McqGenerator.CleanJsonOutputSpan | quiz_backend_rag/api/services/mcq_generator.py:37-45 | with a `{` before a later `}`, the output is the span from the first `{` to the last `}` (the greedy DOTALL match) |
| McqGenerator.CleanJsonOutputNoMatch | quiz_backend_rag/api/services/mcq_generator.py:43-45 | without such braces the text comes back unchanged |
| McqGenerator.CleanJsonOutputIsSubstring | quiz_backend_rag/api/services/mcq_generator.py:37-45 | the output is always a contiguous part of the input |
| McqGenerator.CleanJsonOutputOfSpan | quiz_backend_rag/api/services/mcq_generator.py:37-45 | a text that already starts with `{` and ends with `}` is kept whole |
| McqGenerator.CleanJsonOutputIdempotent | quiz_backend_rag/api/services/mcq_generator.py:37-45 | cleaning twice is cleaning once |
| McqGenerator.FilledTemplateStarts | quiz_backend_rag/api/services/mcq_generator.py:51-52 | the prompt starts with the system tag |
| McqGenerator.FilledTemplateEnds | quiz_backend_rag/api/services/mcq_generator.py:76-77 | the prompt ends with the assistant tag |
| McqGenerator.FilledTemplateHolds | quiz_backend_rag/api/services/mcq_generator.py:70-73 | the chunk sits after "Lecture Chunk:" and the difficulty after "Difficulty: ", both verbatim |
| McqGenerator.BuildPromptShape | quiz_backend_rag/api/services/mcq_generator.py:47-77 | stripping the template removes exactly its opening and closing line breaks, whatever the chunk and the difficulty |
| McqGenerator.Letter | quiz_backend_rag/api/services/mcq_generator.py:107-108 | `chr(65 + idx)` of an index 0-3 is a letter A-D |
| McqGenerator.LetterInjective | quiz_backend_rag/api/services/mcq_generator.py:107-108 | different indices give different letters |
| McqGenerator.NormaliseMcq | quiz_backend_rag/api/services/mcq_generator.py:101-125 | a question comes back exactly when the decoded value is an object whose `options` is a list of four |
| McqGenerator.NormaliseOptions | quiz_backend_rag/api/services/mcq_generator.py:110-117 | the options list becomes the mapping A-D of its four entries in order |
| McqGenerator.NormaliseCorrect | quiz_backend_rag/api/services/mcq_generator.py:106-108 | an index 0-3 in `correct` (booleans counting as 0 and 1) becomes its letter; any other value is kept; an absent one stays absent |
| McqGenerator.NormalisePassThrough | quiz_backend_rag/api/services/mcq_generator.py:101-119 | no key is added or dropped, and every field but `options` and `correct` is unchanged |
| McqGenerator.ReadAnswer | quiz_backend_rag/api/services/mcq_generator.py:94-125 | an accepted answer always has its options as a mapping |
| McqGenerator.ReadAnswerAccepts | quiz_backend_rag/api/services/mcq_generator.py:94-125 | a question comes back exactly when the JSON cut out of the stripped answer decodes to an acceptable object, and it is that object normalised |
| QuizGenerationService.GenerateIsGenerateMcqPhi3 | quiz_backend_rag/api/services/quiz_generation_service.py:120 | each call of the loop is `GenerateMcqPhi3(chunk_text, diff_level)`, the model of `generate_mcq_phi3`, with the model answering its prompt |
| QuizGenerationService.CountLevel | quiz_backend_rag/api/services/quiz_generation_service.py:105 | the count of questions at a level is at most the number of questions, and zero exactly when none has the level |
| QuizGenerationService.LibraryQuestion | quiz_backend_rag/api/services/quiz_generation_service.py:78-89 | a library question becomes a question with the five keys, its own text and difficulty, and a truthy time (`or 60`) |
| QuizGenerationService.SeedQuestions | quiz_backend_rag/api/services/quiz_generation_service.py:75-90 | the seed questions are exactly those of the library entries whose ids were selected |
| QuizGenerationService.AnySameQuestion | quiz_backend_rag/api/services/quiz_generation_service.py:124 | the duplicate test is false exactly when no question has the same text by Python `==`; true means a match; a missing `question` key raises `KeyError` |
| QuizGenerationService.Attempt | quiz_backend_rag/api/services/quiz_generation_service.py:116-131 | every attempt uses one model call; a failed attempt changes nothing else; a success appends one new, non-duplicate question that the generator produced from the chunk at the cursor, and advances the cursor |
| QuizGenerationService.FillLevelStep | quiz_backend_rag/api/services/quiz_generation_service.py:114-131 | one loop turn counts a success as made and a failure as a retry |
| QuizGenerationService.FillLevelExtends | quiz_backend_rag/api/services/quiz_generation_service.py:111-131 | a level's loop only appends questions |
| QuizGenerationService.FillLevelBounds | quiz_backend_rag/api/services/quiz_generation_service.py:114 | a level's loop adds at most the questions still needed, within the retry budget of `3 * needed` |
| QuizGenerationService.LevelRoundQuota | quiz_backend_rag/api/services/quiz_generation_service.py:105-131 | a level already met is skipped; otherwise at most `needed` questions are appended, using fewer than `4 * needed` model calls |
| QuizGenerationService.AttemptKeeps | quiz_backend_rag/api/services/quiz_generation_service.py:122-127 | an attempt keeps the generated questions new and each traced to its call and chunk |
| QuizGenerationService.FillLevelKeeps | quiz_backend_rag/api/services/quiz_generation_service.py:111-131 | a level's loop keeps that invariant |
| QuizGenerationService.FillAllKeeps | quiz_backend_rag/api/services/quiz_generation_service.py:96-131 | the loop over all levels keeps that invariant |
| QuizGenerationService.FillAllExtends | quiz_backend_rag/api/services/quiz_generation_service.py:96-131 | `FillAll`, the loop over all levels as a recursive function, only appends questions |
| QuizGenerationService.FillLevelRaises | quiz_backend_rag/api/services/quiz_generation_service.py:124 | the only exception a level's loop raises is `KeyError('question')` |
| QuizGenerationService.FillAllRaises | quiz_backend_rag/api/services/quiz_generation_service.py:96-131 | the only exception of the generation loop is `KeyError('question')` |
| QuizGenerationService.PreviewResult | quiz_backend_rag/api/services/quiz_generation_service.py:40-136 | a successful preview had a known note and a search that succeeded; it returns a non-empty list with the selected library questions first, then new questions, each produced by the model from a top chunk, in call order |
| QuizGenerationService.PreviewFailure | quiz_backend_rag/api/services/quiz_generation_service.py:50-134 | the 404 comes exactly for an unknown note; any failure is that 404, the 400 for no context, the 500 for no questions, a search failure or `KeyError('question')` |
| QuizGenerationService.SelectLibraryQuestions | quiz_backend_rag/api/services/quiz_generation_service.py:75-90 | the loop builds the seed questions |
| QuizGenerationService.TryOnce | quiz_backend_rag/api/services/quiz_generation_service.py:116-131 | the loop body does what one attempt specifies |
| QuizGenerationService.FillLevelLoop | quiz_backend_rag/api/services/quiz_generation_service.py:111-131 | the `while` loop of one level returns what `FillLevel` (the level loop as a recursive function) gives, including its `KeyError` |
| QuizGenerationService.GenerateQuestionsPreview | quiz_backend_rag/api/services/quiz_generation_service.py:40-136 | the method returns `Preview(...)` on the tables it reads, the function whose properties PreviewResult and PreviewFailure state |
| QuizGenerationService.Capitalize | quiz_backend_rag/api/services/quiz_generation_service.py:152 | `capitalize()` keeps the length |
| QuizGenerationService.CapitalizeShape | quiz_backend_rag/api/services/quiz_generation_service.py:152 | the result is capitalized, only letter case changes, and exactly the capitalized strings are left alone |
| QuizGenerationService.SumTimes | quiz_backend_rag/api/services/quiz_generation_service.py:161 | the sum of times fails, with `TypeError`, exactly when some question's time is not a number |
| QuizGenerationService.SumTimesDefault | quiz_backend_rag/api/services/quiz_generation_service.py:161 | with no `time_secs` anywhere, every question counts 60 seconds |
| QuizGenerationService.TotalTimeDefault | quiz_backend_rag/api/services/quiz_generation_service.py:161 | with no `time_secs` anywhere, the quiz lasts one minute per question |
| QuizGenerationService.SumTimesWhole | quiz_backend_rag/api/services/quiz_generation_service.py:161 | integer times sum to their integer total |
| QuizGenerationService.TotalTimeWhole | quiz_backend_rag/api/services/quiz_generation_service.py:161 | with integer times, the minutes are the total seconds floor-divided by 60 |
| QuizGenerationService.OptionsOf | quiz_backend_rag/api/services/quiz_generation_service.py:176-179 | the four options are read exactly when `options` is a mapping holding A-D, in the order A-D; otherwise the `KeyError` or `TypeError` the subscripts raise |
| QuizGenerationService.SaveOneEffect | quiz_backend_rag/api/services/quiz_generation_service.py:171-206 | saving one question appends its row; a text already in the note's library leaves the library alone; a new text appends one good entry of the note with the next id |
| QuizGenerationService.SaveFromExtends | quiz_backend_rag/api/services/quiz_generation_service.py:171-206 | the save loop only appends rows and library entries |
| QuizGenerationService.SaveFromRows | quiz_backend_rag/api/services/quiz_generation_service.py:171-185 | the rows appended are one per question, in order, numbered from 1, each with the question's fields |
| QuizGenerationService.SaveFromLibrary | quiz_backend_rag/api/services/quiz_generation_service.py:187-206 | the entries added are good entries of the note, numbered consecutively, and each is the first with its text (no duplicate text) |
| QuizGenerationService.SaveOneCovers | quiz_backend_rag/api/services/quiz_generation_service.py:187-206 | after saving a question, its text has a library entry |
| QuizGenerationService.SaveFromCovers | quiz_backend_rag/api/services/quiz_generation_service.py:187-206 | after the loop every question text has a library entry |
| QuizGenerationService.SaveFromCovered | quiz_backend_rag/api/services/quiz_generation_service.py:171-206 | when every text already has an entry, the loop succeeds exactly when every question's options are readable, and then adds no library entry |
| QuizGenerationService.SaveFromFailure | quiz_backend_rag/api/services/quiz_generation_service.py:171-206 | well-formed questions always save; a failure is a `KeyError` or `TypeError` |
| QuizGenerationService.SaveQuestion | quiz_backend_rag/api/services/quiz_generation_service.py:171-206 | the loop body returns `SaveOne(...)`, the function of one pass whose effect SaveOneEffect states |
| QuizGenerationService.SaveAll | quiz_backend_rag/api/services/quiz_generation_service.py:171-206 | the loop returns `SaveFrom(start, ..., 0)`, the save loop as a recursive function, including its failure |
| QuizGenerationService.FinalizeQuiz | quiz_backend_rag/api/services/quiz_generation_service.py:138-215 | the method's answer and the tables afterwards are `Finalize(old tables, ...)`, the function whose properties FinalizeSuccess and FinalizeFailure state; the primary keys of the session stay increasing and below their next ids |
| QuizGenerationService.FinalizeSuccess | quiz_backend_rag/api/services/quiz_generation_service.py:148-215 | a success had a known note; it added the quiz row (title, counts, capitalised difficulty, minutes), one row per question in order, and a good entry for every new text, so every text is in the library; it reports the new quiz id |
| QuizGenerationService.FinalizeFailure | quiz_backend_rag/api/services/quiz_generation_service.py:148-208 | the 404 comes exactly for an unknown note; a 404 or a time `TypeError` writes nothing; a failure in the save loop keeps the quiz row committed at line 167 but no question row or library entry; failures are the 404, `KeyError` or `TypeError`; a known note with well-formed timed questions always succeeds |
| QuizGenerationService.FinalizeCovered | quiz_backend_rag/api/services/quiz_generation_service.py:187-206 | when every text is already in the note's library, the finalisation succeeds and adds no entry |
| QuizGenerationService.FinalizeRepeat | quiz_backend_rag/api/services/quiz_generation_service.py:187-206 | finalising the same questions again succeeds and leaves the library as it was |
| QuizGenerationService.FinalizeKeepsIds | quiz_backend_rag/api/services/quiz_generation_service.py:154-206 | quiz ids and library ids stay distinct and below their counters |
| QuizGenerationService.GenerateQuiz | quiz_backend_rag/api/services/quiz_generation_service.py:13-38 | the method's answer and tables are the preview followed by its finalisation; the primary keys stay increasing and below their next ids |
| QuizGenerationService.GenerateQuizSaves | quiz_backend_rag/api/services/quiz_generation_service.py:13-38 | a successful quiz came from a successful preview, saved at least one question, and stored what the finalisation promises for that preview |
| QuestionLibraryRouter.LibraryQuestions | quiz_backend_rag/api/routers/question_library_router.py:20-23 | the listing holds exactly the note's good entries |
| QuestionLibraryRouter.MarkQuestionPoor | quiz_backend_rag/api/routers/question_library_router.py:25-50 | the endpoint's answer and library are `MarkPoor(quizzes, old library, ...)`, the function the MarkPoor lemmas below are about; the primary keys stay increasing and below their next ids |
| QuestionLibraryRouter.MarkPoorNotFound | quiz_backend_rag/api/routers/question_library_router.py:30-45 | an unknown quiz gives "Quiz not found", a text missing from its note's library gives "Question not found in library", and a failure changes nothing |
| QuestionLibraryRouter.MarkPoorChangesOne | quiz_backend_rag/api/routers/question_library_router.py:37-50 | a success marks only the first matching entry poor, changes nothing else, and answers with its id |
| QuestionLibraryRouter.MarkPoorKeepsIds | quiz_backend_rag/api/routers/question_library_router.py:47-48 | marking keeps every entry id |
| QuestionLibraryRouter.MarkPoorIdempotent | quiz_backend_rag/api/routers/question_library_router.py:30-50 | marking the same question twice gives the same answer and library as marking it once |
| QuestionLibraryRouter.MarkPoorHides | quiz_backend_rag/api/routers/question_library_router.py:20-47 | after a mark the entry leaves its note's listing and every other listed entry stays |

## Left out

- Floating point: similarities, norms and dot products are `real`s from a `FloatOps` parameter. A float32 element is kept as its four bytes, and NaN is not modelled.
- The embedding model (`generate_embedding`), the Phi-3 model (`get_phi3_model` and its sampling) and `json.loads` are parameters. The model's answer depends on the call number, which stands for its nondeterminism.
- The phone-number step `\b\d{11}\b` and the page-number step `\n?\s*\b\d{1,3}\b\s*\n` of `clean_text` are opaque function parameters (`OpaqueSteps`). Their regex semantics (word boundaries, backtracking) are not modelled, and CleanTextShape bounds the length only when they never lengthen.
- The header, e-mail, URL and whitespace steps are modelled exactly. Whitespace is Python's `str.isspace` restricted to the characters listed in `Strings.IsSpace`.
- The PDF reader is not modelled: `process_pdf` takes the page texts and whether the file exists as parameters. `extract_text_from_pdf` in ingest_service.py (the same loop) is not part of this model.
- `clean_text` in pdf_ingest_router.py is a copy of `clean_text` in ingest_service.py, so both are `IngestService.CleanText`.
- Only the ingestion, search, generation and library code is modelled. The CRUD routers, authentication and application setup are not part of this model.
- Database queries return rows in table order; SQL has no such guarantee without `ORDER BY`.
- Column types, enum coercion and other constraints are not checked.
- `created_at`, `course_id`, `created_by` and `keywords` are not stored in the rows.
- A rolled-back insert consumes no autoincrement id.
- The library lookup of `finalize_quiz` compares question texts as JSON values. SQL's comparison of a non-string text with a string column is not modelled.
- Database.FindEntry: the two text lookups, `finalize_quiz` (quiz_generation_service.py:188-191) and `mark_question_poor` (question_library_router.py:37-40), compare texts by exact equality. The database's collation is not modelled. A MySQL default collation compares case-insensitively and, with PAD SPACE, ignores trailing spaces. There, "What is X?" and "what is x?" in one `finalize_quiz` give one library entry where the model gives two, and `mark_question_poor` can find an entry the model reports as not found.
- QuizGenerationService.PyEq: Python `==` is modelled by value across numbers and structurally for everything else, so `1 == 1.0` inside lists and dicts is not modelled.
- QuizGenerationService.Capitalize: only ASCII letters change case; other Unicode case mappings are not modelled.
- QuizGenerationService.TotalTimeWhole: the minutes are the real floor of the sum divided by 60. For an all-integer sum this equals Python's `//`. A float result of `//` (such as `2.0`) is stored as the integer it denotes.
- Any `time_secs` that is not a number (`None`, a string, a list or an object; a boolean counts as a number) makes the sum raise `TypeError`; that is the only way the time step fails.
- `generate_mcq_phi3` updates the decoded dict in place; the model builds the new dict as a value.
- The dead assignment `num_questions = sum(...)` at quiz_generation_service.py:68 is not modelled.
- The exceptions `generate_mcq_phi3` catches and prints are modelled as a `None` result; the print is left out.
- IngestService.SplitIntoChunks: requires `chunk_size > 0` for non-empty text, which the callers meet (1000).
  - With `chunk_size <= 0` and non-empty text the source never returns, whatever the overlap (IngestService.SourceStallsOnNonPositiveSize). With a size of 0 the cursor never moves forward. With a negative size the cut at line 82 can move it forward (IngestService.SourceCutsOnNegativeSize), but the window end and the cursor always stay below the text's length.
  - A positive size diverges only when the overlap is at least the window's length; that case is the first finding below.
  - When `10 * overlap > 9 * chunk_size`, a window cut at a space to fewer characters than the overlap, near the start of the text, moves the source's cursor below 0. Python's negative slice indices then add empty chunks, and the loop can return a list that `Split` does not reproduce (the second finding below, IngestService.SourceRewindsBelowZero). The model takes the corrected step there.
- IngestService.ChunkBoundaries: the `overlap`-character overlap of neighbours is stated only for `0 < overlap` with `10 * overlap <= 9 * chunk_size`. Beyond that a window may be shorter than the overlap, and the corrected step then moves the cursor to the window's end, so those neighbours only meet (chunk_size 20, overlap 19 and `"a" * 19 + " " + "b" * 10` give windows `[0, 19)` and `[19, 30)`).
- `PdfIngestRouter.ProcessText` and `PdfIngestRouter.ProcessPdf` state only the outcomes of lines 152-197. Any other exception of lines 159-197 (for example a database error), wrapped into the 500 at line 200, is not modelled.

## Findings

| source | as written | input that shows it | evidently intended | confidence | as-written member | corrected member |
|---|---|---|---|---|---|---|
| quiz_backend_rag/api/services/ingest_service.py:87-91 | the loop guard resets the cursor only when `end - overlap >= end`, that is for a non-positive overlap, so an overlap at least as long as the window moves the cursor to or before where it was, possibly below 0 | `split_into_chunks("a" * 25, chunk_size=10, overlap=10)`: the first window is `text[0:10]`, then `start = 10 - 10 = 0`, and the loop never ends | the comment at line 89 says the guard exists "to avoid infinite loop if overlap >= chunk_size": the cursor should move to `end` whenever the step would not advance it | not executed | IngestService.SourceLoopsOnLargeOverlap | IngestService.StartsIncrease |
| quiz_backend_rag/api/services/ingest_service.py:77-91 | a window cut at a space to fewer characters than the overlap makes `start = end - overlap` negative; the guard does not fire, and Python's slice `text[start:end]` then counts `start` from the end of the text | `split_into_chunks("a" * 28 + " aa" + " " * 9, chunk_size=31, overlap=29)`: the first chunk is `text[0:28]`, then `start = -1`, `text[-1:30]` is `text[39:30]` and an empty chunk is appended; the loop goes on from 1 and returns eleven chunks | the cursor should only move forward, so that no chunk is empty and none starts before the previous one | not executed | IngestService.SourceRewindsBelowZero | IngestService.StartsIncrease |
