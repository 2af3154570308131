/** Ingestion of a lecture note: `clean_text`, the character chunker
    `split_into_chunks` and `process_and_store_chunks`
    (api/services/ingest_service.py). */
module IngestService {
  import opened Strings
  import opened Values
  import opened Database

  // ---------------------------------------------------------------------
  // clean_text
  // ---------------------------------------------------------------------

  /** The two markers of the repeated lecture header. */
  const HeaderStart: string := "Programming Fundamentals"
  const HeaderEnd: string := "0332-7661819"

  /** Does `pat` occur in `s` at position `j`? */
  predicate OccursAt(s: string, pat: string, j: nat) {
    j + |pat| <= |s| && s[j..j + |pat|] == pat
  }

  /** First position at or after `from` where `pat` occurs in `s`. */
  function FindFrom(s: string, pat: string, from: nat): (r: Option<nat>)
    decreases |s| - from
    ensures r.Some? ==> from <= r.value && OccursAt(s, pat, r.value)
    ensures r.Some? ==> forall j :: from <= j < r.value ==> !OccursAt(s, pat, j)
    ensures r.None? ==> forall j :: from <= j ==> !OccursAt(s, pat, j)
  {
    if from + |pat| > |s| then None
    else if OccursAt(s, pat, from) then Some(from)
    else FindFrom(s, pat, from + 1)
  }

  /** Step 1, `re.sub(r"Programming Fundamentals.*?0332-7661819", "", text,
      flags=re.DOTALL)`: scanning left to right, each header marker is removed
      together with everything up to and including the FIRST footer marker
      after it (the `.*?` is non-greedy). A header with no footer after it is
      kept. */
  function RemoveHeaders(s: string): (r: string)
    ensures |r| <= |s|
    decreases |s|
  {
    if |s| < |HeaderStart| then s
    else if OccursAt(s, HeaderStart, 0) then
      match FindFrom(s, HeaderEnd, |HeaderStart|)
      case Some(j) => RemoveHeaders(s[j + |HeaderEnd|..])
      case None => [s[0]] + RemoveHeaders(s[1..])
    else [s[0]] + RemoveHeaders(s[1..])
  }

  /** Text without a header marker passes step 1 unchanged. */
  lemma {:induction false} RemoveHeadersNoHeader(s: string)
    requires forall j :: !OccursAt(s, HeaderStart, j)
    ensures RemoveHeaders(s) == s
    decreases |s|
  {
    if |s| >= |HeaderStart| {
      forall j: nat ensures !OccursAt(s[1..], HeaderStart, j) {
        assert !OccursAt(s, HeaderStart, j + 1);
        if j + |HeaderStart| <= |s[1..]| {
          SliceOfTail(s, j, |HeaderStart|);
        }
      }
      RemoveHeadersNoHeader(s[1..]);
      assert [s[0]] + s[1..] == s;
    }
  }

  /** A slice of the tail is the slice of the text one place further on. */
  lemma SliceOfTail(s: string, j: nat, n: nat)
    requires 1 + j + n <= |s|
    ensures s[1..][j..j + n] == s[j + 1..j + 1 + n]
  {
    var a, b := s[1..][j..j + n], s[j + 1..j + 1 + n];
    assert forall k :: 0 <= k < n ==> a[k] == b[k];
  }

  /** Step 1 removes the shortest span: a header, a middle part in which the
      footer does not start, and the footer all vanish, and the scan goes on
      after that footer. */
  lemma RemoveHeadersShortestSpan(s: string, middle: string, rest: string)
    requires s == HeaderStart + middle + HeaderEnd + rest
    requires forall j :: |HeaderStart| <= j < |HeaderStart| + |middle| ==> !OccursAt(s, HeaderEnd, j)
    ensures RemoveHeaders(s) == RemoveHeaders(rest)
  {
    var e := |HeaderStart| + |middle|;
    assert s[..|HeaderStart|] == HeaderStart;
    assert OccursAt(s, HeaderStart, 0);
    assert s[e..e + |HeaderEnd|] == HeaderEnd;
    assert OccursAt(s, HeaderEnd, e);
    var f := FindFrom(s, HeaderEnd, |HeaderStart|);
    assert f == Some(e);
    assert s[e + |HeaderEnd|..] == rest;
  }

  /** A whitespace-delimited token with an `@` that has a character on each side. */
  predicate HasInteriorAt(tok: string) {
    exists j :: 0 < j < |tok| - 1 && tok[j] == '@'
  }

  /** Step 2a, `re.sub(r"\S+@\S+", "", text)`: a match can only start at a
      token and always runs to the token's end, so every token with an
      interior `@` is removed whole and every other token is kept. */
  function RemoveEmails(s: string): (r: string)
    ensures |r| <= |s|
    ensures s != [] && IsSpace(s[0]) ==> r != [] && r[0] == s[0]
    decreases |s|
  {
    if s == [] then []
    else if IsSpace(s[0]) then [s[0]] + RemoveEmails(s[1..])
    else
      var k := TokenLen(s);
      (if HasInteriorAt(s[..k]) then [] else s[..k]) + RemoveEmails(s[k..])
  }

  /** The words that have no interior `@`, in order. */
  function WithoutEmails(ws: seq<string>): (r: seq<string>)
    ensures forall w :: w in r ==> w in ws && !HasInteriorAt(w)
    ensures forall w :: w in ws && !HasInteriorAt(w) ==> w in r
  {
    if ws == [] then []
    else (if HasInteriorAt(ws[0]) then [] else [ws[0]]) + WithoutEmails(ws[1..])
  }

  /** After step 2a the tokens of the text are exactly the earlier tokens
      without an interior `@`, in their order: no surviving token has one,
      and no two tokens were glued together. */
  lemma RemoveEmailsTokens(s: string)
    ensures Words(RemoveEmails(s)) == WithoutEmails(Words(s))
    ensures forall w :: w in Words(RemoveEmails(s)) ==> !HasInteriorAt(w)
  {
    RemoveEmailsWords(s);
  }

  lemma {:induction false} RemoveEmailsWords(s: string)
    ensures Words(RemoveEmails(s)) == WithoutEmails(Words(s))
    decreases |s|
  {
    if s == [] {
    } else if IsSpace(s[0]) {
      RemoveEmailsWords(s[1..]);
      WordsSkipSpace(s[0], RemoveEmails(s[1..]));
    } else {
      var k := TokenLen(s);
      var tok := s[..k];
      var rest := RemoveEmails(s[k..]);
      RemoveEmailsWords(s[k..]);
      assert Words(s) == [tok] + Words(s[k..]);
      assert ([tok] + Words(s[k..]))[1..] == Words(s[k..]);
      if HasInteriorAt(tok) {
        assert RemoveEmails(s) == rest by {
          assert [] + rest == rest;
        }
      } else {
        assert IsWord(tok);
        WordsOfWordThen(tok, rest);
      }
    }
  }

  /** Step 2a is idempotent. */
  lemma {:induction false} RemoveEmailsIdempotent(s: string)
    ensures RemoveEmails(RemoveEmails(s)) == RemoveEmails(s)
    decreases |s|
  {
    if s == [] {
    } else if IsSpace(s[0]) {
      RemoveEmailsIdempotent(s[1..]);
      var t := [s[0]] + RemoveEmails(s[1..]);
      assert t[1..] == RemoveEmails(s[1..]);
    } else {
      var k := TokenLen(s);
      var tok := s[..k];
      var rest := RemoveEmails(s[k..]);
      RemoveEmailsIdempotent(s[k..]);
      if !HasInteriorAt(tok) {
        var t := tok + rest;
        assert forall i :: 0 <= i < k ==> t[i] == tok[i];
        assert k < |t| ==> t[k] == rest[0];
        assert TokenLen(t) == k;
        assert t[..k] == tok && t[k..] == rest;
      } else {
        assert RemoveEmails(s) == rest by {
          assert [] + rest == rest;
        }
      }
    }
  }

  /** Step 3, `re.sub(r"http\S+|www\.\S+", "", text)`: at any position,
      `http` or `www.` followed by at least one non-whitespace character is
      removed up to the next whitespace. */
  function RemoveUrls(s: string): (r: string)
    ensures |r| <= |s|
    decreases |s|
  {
    if s == [] then []
    else if (StartsWith(s, "http") || StartsWith(s, "www.")) && |s| > 4 && !IsSpace(s[4]) then
      RemoveUrls(s[4 + TokenLen(s[4..])..])
    else [s[0]] + RemoveUrls(s[1..])
  }

  /** Step 5a, `text.replace("  ", " ")`: non-overlapping pairs of spaces,
      left to right, become one space. */
  function ReplaceDoubleSpaces(s: string): (r: string)
    ensures |r| <= |s|
  {
    if |s| >= 2 && s[0] == ' ' && s[1] == ' ' then [' '] + ReplaceDoubleSpaces(s[2..])
    else if s == [] then []
    else [s[0]] + ReplaceDoubleSpaces(s[1..])
  }

  /** Every whitespace character is a plain space and is not followed by
      another whitespace character. */
  predicate SingleSpaced(s: string) {
    forall i :: 0 <= i < |s| && IsSpace(s[i]) ==> s[i] == ' ' && (i + 1 == |s| || !IsSpace(s[i + 1]))
  }

  /** The shape of `clean_text`'s output: single-spaced, no newline, and no
      whitespace at either end. */
  predicate IsNormalized(s: string) {
    SingleSpaced(s) && (s == [] || (!IsSpace(s[0]) && !IsSpace(s[|s| - 1])))
  }

  /** Step 5b, `re.sub(r"\s+", " ", text)`: each maximal whitespace run
      becomes one space. */
  function CollapseWhitespace(s: string): (r: string)
    ensures |r| <= |s|
    ensures r == [] <==> s == []
    ensures s != [] ==> (IsSpace(r[0]) <==> IsSpace(s[0]))
    ensures SingleSpaced(r)
    decreases |s|
  {
    if s == [] then []
    else if IsSpace(s[0]) then [' '] + CollapseWhitespace(s[SpaceLen(s)..])
    else [s[0]] + CollapseWhitespace(s[1..])
  }

  /** Lines 40-43: replace double spaces, collapse whitespace runs, strip. */
  function NormalizeWhitespace(s: string): string {
    Strip(CollapseWhitespace(ReplaceDoubleSpaces(s)))
  }

  lemma SingleSpacedSlice(s: string, a: nat, b: nat)
    requires SingleSpaced(s) && a <= b <= |s|
    ensures SingleSpaced(s[a..b])
  {
    var t := s[a..b];
    forall i | 0 <= i < |t| && IsSpace(t[i])
      ensures t[i] == ' ' && (i + 1 == |t| || !IsSpace(t[i + 1]))
    {
      assert t[i] == s[a + i];
      assert i + 1 < |t| ==> t[i + 1] == s[a + i + 1];
    }
  }

  /** Stripping single-spaced text gives normalized text. */
  lemma StripSingleSpaced(c: string)
    requires SingleSpaced(c)
    ensures IsNormalized(Strip(c)) && |Strip(c)| <= |c|
  {
    var l := StripLeading(c);
    SingleSpacedSlice(c, |c| - |l|, |c|);
    StripTrailingSpaced(l);
  }

  /** Stripping the end of single-spaced text that starts with a
      non-space keeps it single-spaced and leaves no space at either end. */
  lemma StripTrailingSpaced(l: string)
    requires SingleSpaced(l) && (l == [] || !IsSpace(l[0]))
    ensures IsNormalized(StripTrailing(l))
  {
    var r := StripTrailing(l);
    SingleSpacedSlice(l, 0, |r|);
    if r != [] {
      assert r[0] == l[0];
    }
  }

  /** The output of lines 40-43 is normalized and never longer than the input. */
  lemma NormalizeWhitespaceShape(s: string)
    ensures IsNormalized(NormalizeWhitespace(s))
    ensures |NormalizeWhitespace(s)| <= |s|
  {
    StripSingleSpaced(CollapseWhitespace(ReplaceDoubleSpaces(s)));
  }

  lemma {:induction false} ReplaceDoubleSpacesSingleSpaced(s: string)
    requires SingleSpaced(s)
    ensures ReplaceDoubleSpaces(s) == s
    decreases |s|
  {
    if s != [] {
      SingleSpacedSlice(s, 1, |s|);
      ReplaceDoubleSpacesSingleSpaced(s[1..]);
      assert !(|s| >= 2 && s[0] == ' ' && s[1] == ' ');
      assert [s[0]] + s[1..] == s;
    }
  }

  /** A single-spaced text that starts with whitespace starts with one
      plain space. */
  lemma SingleSpacedHead(s: string)
    requires SingleSpaced(s) && s != [] && IsSpace(s[0])
    ensures s[0] == ' ' && SpaceLen(s) == 1
  {
    assert |s| > 1 ==> !IsSpace(s[1]);
  }

  lemma {:induction false} CollapseSingleSpaced(s: string)
    requires SingleSpaced(s)
    ensures CollapseWhitespace(s) == s
    decreases |s|
  {
    if s != [] {
      var t := s[1..];
      SingleSpacedSlice(s, 1, |s|);
      CollapseSingleSpaced(t);
      CollapseHead(s);
      assert [s[0]] + t == s;
    }
  }

  /** On single-spaced text the collapse handles one character at a time. */
  lemma CollapseHead(s: string)
    requires SingleSpaced(s) && s != []
    ensures CollapseWhitespace(s) == [s[0]] + CollapseWhitespace(s[1..])
  {
    if IsSpace(s[0]) {
      SingleSpacedHead(s);
    }
  }

  /** Lines 40-43 leave normalized text unchanged, hence are idempotent. */
  lemma NormalizeWhitespaceIdempotent(s: string)
    ensures NormalizeWhitespace(NormalizeWhitespace(s)) == NormalizeWhitespace(s)
  {
    var t := NormalizeWhitespace(s);
    NormalizeWhitespaceShape(s);
    ReplaceDoubleSpacesSingleSpaced(t);
    CollapseSingleSpaced(t);
  }

  /** The phone-number (`\b\d{11}\b`) and page-number substitutions, whose
      word-boundary and Unicode-digit classes the model keeps abstract. */
  datatype OpaqueSteps = OpaqueSteps(
    removePhoneNumbers: string -> string,
    removePageNumbers: string -> string)

  /** A substitution that deletes text or replaces a match by something no longer. */
  ghost predicate NeverLengthens(f: string -> string) {
    forall s :: |f(s)| <= |s|
  }

  /** `clean_text`: the five substitution steps in their order. */
  function CleanText(raw: string, steps: OpaqueSteps): string {
    var headersRemoved := RemoveHeaders(raw);
    var emailsRemoved := RemoveEmails(headersRemoved);
    var phonesRemoved := steps.removePhoneNumbers(emailsRemoved);
    var urlsRemoved := RemoveUrls(phonesRemoved);
    var pagesRemoved := steps.removePageNumbers(urlsRemoved);
    NormalizeWhitespace(pagesRemoved)
  }

  /** The cleaned text is normalized whatever the opaque steps do, and never
      longer than the input when those steps never lengthen their input. */
  lemma CleanTextShape(raw: string, steps: OpaqueSteps)
    ensures IsNormalized(CleanText(raw, steps))
    ensures (NeverLengthens(steps.removePhoneNumbers) && NeverLengthens(steps.removePageNumbers))
            ==> |CleanText(raw, steps)| <= |raw|
  {
    var headersRemoved := RemoveHeaders(raw);
    var emailsRemoved := RemoveEmails(headersRemoved);
    var phonesRemoved := steps.removePhoneNumbers(emailsRemoved);
    var urlsRemoved := RemoveUrls(phonesRemoved);
    var pagesRemoved := steps.removePageNumbers(urlsRemoved);
    NormalizeWhitespaceShape(pagesRemoved);
  }

  // ---------------------------------------------------------------------
  // split_into_chunks
  // ---------------------------------------------------------------------

  const DefaultChunkSize: int := 1000
  const DefaultOverlap: int := 150

  /** The half-open character range `text[lo:hi]` of one chunk. */
  datatype Span = Span(lo: nat, hi: nat)

  /** End of a window that does not reach the end of the text (lines 59-82):
      it is shortened to the last space of `text[start:start+chunk_size]` when
      that space lies in the window's last tenth. */
  function WindowEnd(text: string, chunkSize: int, start: nat): (end: nat)
    requires chunkSize > 0 && start + chunkSize < |text|
    ensures start < end <= start + chunkSize
    ensures end < start + chunkSize ==> 10 * (end - start) > 9 * chunkSize && text[end] == ' '
  {
    var candidate := text[start..start + chunkSize];
    var lastSpace := LastIndexOf(candidate, ' ');
    if lastSpace != -1 && 10 * lastSpace > 9 * chunkSize then
      assert candidate[lastSpace] == text[start + lastSpace];
      start + lastSpace
    else start + chunkSize
  }

  /** The source's cursor step, lines 87-91. */
  function NextStartAsWritten(end: int, overlap: int): int {
    var start := end - overlap;
    if start >= end then end else start
  }

  /** The cursor step of the model: the source's step, and in addition the
      cursor moves to `end` whenever the step would not advance it. */
  function NextStart(prevStart: nat, end: nat, overlap: int): (next: nat)
    requires prevStart < end
    ensures prevStart < next <= end
  {
    var start := NextStartAsWritten(end, overlap);
    if start <= prevStart then end else start
  }

  /** With `10 * overlap <= 9 * chunk_size` the extra guard never fires: the
      model takes exactly the source's step. */
  lemma NextStartAgreesWithSource(text: string, chunkSize: int, overlap: int, start: nat)
    requires chunkSize > 0 && 10 * overlap <= 9 * chunkSize && start + chunkSize < |text|
    ensures NextStart(start, WindowEnd(text, chunkSize, start), overlap)
            == NextStartAsWritten(WindowEnd(text, chunkSize, start), overlap)
  {
  }

  /** As written, a window no longer than a positive overlap leaves the cursor
      where it was or moves it back. */
  lemma SourceStepStalls(text: string, chunkSize: int, overlap: int, start: nat)
    requires chunkSize > 0 && start + chunkSize < |text|
    requires 0 < overlap && WindowEnd(text, chunkSize, start) - start <= overlap
    ensures NextStartAsWritten(WindowEnd(text, chunkSize, start), overlap) <= start
  {
  }

  /** The source loops forever on 25 letters with chunk_size = overlap = 10:
      the first window is `text[0:10]` and the cursor returns to 0. */
  lemma SourceLoopsOnLargeOverlap()
    ensures var text := seq(25, _ => 'a');
            WindowEnd(text, 10, 0) == 10 && NextStartAsWritten(10, 10) == 0
            && NextStart(0, 10, 10) == 10
  {
    var text := seq(25, _ => 'a');
    assert ' ' !in text[0..10];
  }

  /** As written, a window cut at a space to fewer characters than the
      overlap moves the cursor below 0. With 28 letters, " aa" and nine
      spaces, chunk_size 31 and overlap 29, the first window is cut at the
      space at 28 and the cursor becomes -1; line 62 does not break, and
      Python reads `text[-1:30]` as `text[39:30]`, an empty chunk. The model
      instead moves the cursor to 28 and gives two chunks. */
  lemma SourceRewindsBelowZero()
    ensures var text := seq(28, _ => 'a') + " aa" + seq(9, _ => ' ');
      && |text| == 40
      && WindowEnd(text, 31, 0) == 28
      && NextStartAsWritten(28, 29) == -1 && -1 + 31 < |text|
      && NextStart(0, 28, 29) == 28
      && Split(text, 31, 29) == [text[..28], text[28..]]
  {
    var text := seq(28, _ => 'a') + " aa" + seq(9, _ => ' ');
    var candidate := text[0..31];
    assert candidate[28] == ' ' && candidate[29] == 'a' && candidate[30] == 'a';
    assert LastIndexOf(candidate, ' ') == 28;
    assert ChunksFrom(text, 31, 29, 28) == [text[28..]];
    assert ChunksFrom(text, 31, 29, 0) == [text[0..28]] + ChunksFrom(text, 31, 29, 28);
  }

  /** Python's reading of a slice bound `i` on a sequence of length `n`: a
      negative bound counts from the end, and the result is clamped to
      `[0, n]`. */
  function PyBound(i: int, n: nat): (b: nat)
    ensures b <= n
    ensures 0 <= i <= n ==> b == i
    ensures i < 0 ==> b <= n + i || b == 0
  {
    if i < 0 then (if i + n < 0 then 0 else i + n) else if i > n then n else i
  }

  /** `s[i:j]` as Python reads it: empty when the lower bound is not below
      the upper one. */
  function PySlice(s: string, i: int, j: int): (r: string)
    ensures |r| <= |s| - PyBound(i, |s|)
    ensures 0 <= i <= j <= |s| ==> r == s[i..j]
  {
    var lo, hi := PyBound(i, |s|), PyBound(j, |s|);
    if lo < hi then s[lo..hi] else []
  }

  /** The window end of lines 59-82 as written, for any cursor and size: the
      candidate is a Python slice, and the test `last_space > chunk_size * 0.9`
      is, for whole numbers, `10 * last_space > 9 * chunk_size`. Where the
      model's window end is defined, the two agree. */
  function SourceWindowEnd(text: string, chunkSize: int, start: int): (end: int)
    ensures chunkSize > 0 && 0 <= start && start + chunkSize < |text| ==>
      end == WindowEnd(text, chunkSize, start)
  {
    var lastSpace := LastIndexOf(PySlice(text, start, start + chunkSize), ' ');
    if lastSpace != -1 && 10 * lastSpace > 9 * chunkSize then start + lastSpace else start + chunkSize
  }

  /** As written, a window size of zero or less never lets the loop end.
      The first end, `start + chunk_size`, is not past the cursor, so line 62
      never breaks. A cut at line 82 lands inside the Python slice, which lies
      inside the text, so the end stays below the text's length, and so does
      the cursor the step of lines 87-91 takes from it: the test of line 58
      holds again. With a size of exactly zero the slice is empty, the end is
      the cursor, and the cursor never moves forward. */
  lemma SourceStallsOnNonPositiveSize(text: string, chunkSize: int, overlap: int, start: int)
    requires chunkSize <= 0 && start < |text|
    ensures start + chunkSize < |text|
    ensures SourceWindowEnd(text, chunkSize, start) < |text|
    ensures NextStartAsWritten(SourceWindowEnd(text, chunkSize, start), overlap) < |text|
    ensures chunkSize == 0 ==>
      SourceWindowEnd(text, 0, start) == start && NextStartAsWritten(start, overlap) <= start
  {
    var candidate := PySlice(text, start, start + chunkSize);
    var lastSpace := LastIndexOf(candidate, ' ');
    if lastSpace != -1 && 10 * lastSpace > 9 * chunkSize {
      assert lastSpace < |text| - PyBound(start, |text|);
      assert start < 0 || PyBound(start, |text|) == start;
    }
  }

  /** With a negative size the cut can move the end past the cursor: on
      "a b c d e f g h" with chunk_size -3, `text[0:-3]` is `text[0:12]`, whose
      last space at 11 passes the negative bound, so the first chunk is
      `text[0:11]` and the cursor moves to 11. */
  lemma SourceCutsOnNegativeSize()
    ensures SourceWindowEnd("a b c d e f g h", -3, 0) == 11
    ensures NextStartAsWritten(11, 0) == 11
  {
    var text := "a b c d e f g h";
    var candidate := PySlice(text, 0, -3);
    assert candidate == text[0..12];
    assert candidate[11] == ' ';
    assert LastIndexOf(candidate, ' ') == 11;
  }

  /** The windows the cursor loop visits from `start`. */
  function Windows(text: string, chunkSize: int, overlap: int, start: nat): (ws: seq<Span>)
    requires chunkSize > 0 || start >= |text|
    ensures forall i :: 0 <= i < |ws| ==> start <= ws[i].lo < ws[i].hi <= |text|
    ensures forall i :: 0 <= i < |ws| ==> ws[i].hi - ws[i].lo <= chunkSize
    ensures start < |text| <==> ws != []
    ensures ws != [] ==> ws[0].lo == start && ws[|ws| - 1].hi == |text|
    decreases |text| - start
  {
    if start >= |text| then []
    else if start + chunkSize >= |text| then [Span(start, |text|)]
    else
      var end := WindowEnd(text, chunkSize, start);
      [Span(start, end)] + Windows(text, chunkSize, overlap, NextStart(start, end, overlap))
  }

  /** The substrings a sequence of spans denotes. */
  function Slices(text: string, ws: seq<Span>): (chunks: seq<string>)
    requires forall i :: 0 <= i < |ws| ==> ws[i].lo <= ws[i].hi <= |text|
    ensures |chunks| == |ws|
    ensures forall i :: 0 <= i < |ws| ==> chunks[i] == text[ws[i].lo..ws[i].hi]
  {
    seq(|ws|, i requires 0 <= i < |ws| => text[ws[i].lo..ws[i].hi])
  }

  /** The chunks the cursor loop emits from `start` on. */
  function ChunksFrom(text: string, chunkSize: int, overlap: int, start: nat): seq<string>
    requires chunkSize > 0 || start >= |text|
    decreases |text| - start
  {
    if start >= |text| then []
    else if start + chunkSize >= |text| then [text[start..]]
    else
      var end := WindowEnd(text, chunkSize, start);
      [text[start..end]] + ChunksFrom(text, chunkSize, overlap, NextStart(start, end, overlap))
  }

  /** The chunks of `text`: the reference for `SplitIntoChunks`. */
  function Split(text: string, chunkSize: int, overlap: int): seq<string>
    requires chunkSize > 0 || text == []
  {
    ChunksFrom(text, chunkSize, overlap, 0)
  }

  /** The chunks are the slices of the windows. */
  lemma {:induction false} ChunksAreSlices(text: string, chunkSize: int, overlap: int, start: nat)
    requires chunkSize > 0 || start >= |text|
    ensures ChunksFrom(text, chunkSize, overlap, start) == Slices(text, Windows(text, chunkSize, overlap, start))
    decreases |text| - start
  {
    if start < |text| && start + chunkSize < |text| {
      var end := WindowEnd(text, chunkSize, start);
      ChunksAreSlices(text, chunkSize, overlap, NextStart(start, end, overlap));
      SlicesStep(text, chunkSize, overlap, start);
    } else if start < |text| {
      SlicesLast(text, chunkSize, overlap, start);
    }
  }

  /** How consecutive windows are linked: every window but the last stops
      short of the end of the text at `WindowEnd`, and the next one starts at
      the cursor step; only the last window reaches the end. */
  lemma {:induction false} WindowsChain(text: string, chunkSize: int, overlap: int, start: nat)
    requires chunkSize > 0
    ensures var ws := Windows(text, chunkSize, overlap, start);
      && (forall i :: 0 <= i < |ws| - 1 ==>
            && ws[i].lo + chunkSize < |text|
            && ws[i].hi == WindowEnd(text, chunkSize, ws[i].lo)
            && ws[i + 1].lo == NextStart(ws[i].lo, ws[i].hi, overlap))
      && (ws != [] ==> ws[|ws| - 1].lo + chunkSize >= |text|)
    decreases |text| - start
  {
    if start < |text| && start + chunkSize < |text| {
      var end := WindowEnd(text, chunkSize, start);
      var next := NextStart(start, end, overlap);
      WindowsChain(text, chunkSize, overlap, next);
      var ws := Windows(text, chunkSize, overlap, start);
      var rest := Windows(text, chunkSize, overlap, next);
      assert ws == [Span(start, end)] + rest;
      forall i | 0 <= i < |ws| - 1
        ensures && ws[i].lo + chunkSize < |text|
                && ws[i].hi == WindowEnd(text, chunkSize, ws[i].lo)
                && ws[i + 1].lo == NextStart(ws[i].lo, ws[i].hi, overlap)
      {
        if i == 0 {
          assert ws[0] == Span(start, end) && ws[1] == rest[0];
        } else {
          assert ws[i] == rest[i - 1] && ws[i + 1] == rest[i];
        }
      }
      assert ws[|ws| - 1] == rest[|rest| - 1];
    }
  }

  /** Empty text gives no chunk; text no longer than `chunk_size` gives itself. */
  lemma SplitShortText(text: string, chunkSize: int, overlap: int)
    requires chunkSize > 0 || text == []
    ensures text == [] ==> Split(text, chunkSize, overlap) == []
    ensures 0 < |text| <= chunkSize ==> Split(text, chunkSize, overlap) == [text]
  {
    if 0 < |text| <= chunkSize {
      assert text[0..] == text;
    }
  }

  /** Every chunk is a non-empty piece of at most `chunk_size` characters, and
      every chunk but the last is longer than nine tenths of `chunk_size`. */
  lemma ChunkLengths(text: string, chunkSize: int, overlap: int)
    requires chunkSize > 0
    ensures var chunks := Split(text, chunkSize, overlap);
      && (forall i :: 0 <= i < |chunks| ==> 0 < |chunks[i]| <= chunkSize)
      && (forall i :: 0 <= i < |chunks| - 1 ==> 10 * |chunks[i]| > 9 * chunkSize)
  {
    ChunksAreSlices(text, chunkSize, overlap, 0);
    var ws := Windows(text, chunkSize, overlap, 0);
    var chunks := Split(text, chunkSize, overlap);
    WindowsChain(text, chunkSize, overlap, 0);
    forall i | 0 <= i < |chunks|
      ensures 0 < |chunks[i]| <= chunkSize
    {
      assert chunks[i] == text[ws[i].lo..ws[i].hi];
    }
    forall i | 0 <= i < |chunks| - 1
      ensures 10 * |chunks[i]| > 9 * chunkSize
    {
      assert chunks[i] == text[ws[i].lo..ws[i].hi];
      assert ws[i].hi == WindowEnd(text, chunkSize, ws[i].lo);
    }
  }

  /** Chunk i is `text[lo_i:hi_i]`; the first starts at 0, the last ends at
      the end of the text, and each start is the cursor step from the
      previous window: `hi - overlap` when `0 < overlap` and
      `10 * overlap <= 9 * chunk_size`, and `hi` when `overlap <= 0`. */
  lemma ChunkBoundaries(text: string, chunkSize: int, overlap: int)
    requires chunkSize > 0 && text != []
    ensures var ws := Windows(text, chunkSize, overlap, 0);
            var chunks := Split(text, chunkSize, overlap);
      && |chunks| == |ws| > 0
      && (forall i :: 0 <= i < |ws| ==> chunks[i] == text[ws[i].lo..ws[i].hi])
      && ws[0].lo == 0 && ws[|ws| - 1].hi == |text|
      && (forall i :: 0 <= i < |ws| - 1 && overlap <= 0 ==> ws[i + 1].lo == ws[i].hi)
      && (forall i :: 0 <= i < |ws| - 1 && 0 < overlap && 10 * overlap <= 9 * chunkSize ==>
            ws[i + 1].lo == ws[i].hi - overlap)
  {
    ChunksAreSlices(text, chunkSize, overlap, 0);
    var ws := Windows(text, chunkSize, overlap, 0);
    WindowsChain(text, chunkSize, overlap, 0);
    forall i | 0 <= i < |ws| - 1 && 0 < overlap && 10 * overlap <= 9 * chunkSize
      ensures ws[i + 1].lo == ws[i].hi - overlap
    {
      NextStartAgreesWithSource(text, chunkSize, overlap, ws[i].lo);
    }
  }

  /** The last `overlap` characters of `x` are the first `overlap` of `y`. */
  predicate SharesOverlap(x: string, y: string, overlap: int) {
    0 <= overlap <= |x| && overlap <= |y| && x[|x| - overlap..] == y[..overlap]
  }

  lemma SpansShareOverlap(text: string, a: Span, b: Span, overlap: int)
    requires 0 <= overlap && a.lo <= b.lo && b.lo + overlap == a.hi <= b.hi <= |text|
    ensures SharesOverlap(text[a.lo..a.hi], text[b.lo..b.hi], overlap)
  {
    var x, y := text[a.lo..a.hi], text[b.lo..b.hi];
    assert x[|x| - overlap..] == text[b.lo..a.hi];
    assert y[..overlap] == text[b.lo..a.hi];
  }

  /** Neighbouring chunks share exactly `overlap` characters: the last
      `overlap` characters of a chunk are the first `overlap` of the next. */
  lemma NeighboursShareOverlap(text: string, chunkSize: int, overlap: int, chunks: seq<string>)
    requires chunkSize > 0 && 0 <= overlap && 10 * overlap <= 9 * chunkSize
    requires chunks == Split(text, chunkSize, overlap)
    ensures forall i :: 0 <= i < |chunks| - 1 ==> SharesOverlap(chunks[i], chunks[i + 1], overlap)
  {
    ChunksAreSlices(text, chunkSize, overlap, 0);
    var ws := Windows(text, chunkSize, overlap, 0);
    WindowsChain(text, chunkSize, overlap, 0);
    forall i | 0 <= i < |chunks| - 1
      ensures SharesOverlap(chunks[i], chunks[i + 1], overlap)
    {
      assert chunks[i] == text[ws[i].lo..ws[i].hi] && chunks[i + 1] == text[ws[i + 1].lo..ws[i + 1].hi];
      NeighbourWindowsShare(text, chunkSize, overlap, ws[i], ws[i + 1]);
    }
  }

  /** Two consecutive windows share `overlap` characters. */
  lemma NeighbourWindowsShare(text: string, chunkSize: int, overlap: int, a: Span, b: Span)
    requires chunkSize > 0 && 0 <= overlap && 10 * overlap <= 9 * chunkSize
    requires a.lo + chunkSize < |text| && a.hi == WindowEnd(text, chunkSize, a.lo)
    requires b.lo == NextStart(a.lo, a.hi, overlap) && b.lo < b.hi <= |text|
    requires b.hi == |text| || (b.lo + chunkSize < |text| && b.hi == WindowEnd(text, chunkSize, b.lo))
    ensures SharesOverlap(text[a.lo..a.hi], text[b.lo..b.hi], overlap)
  {
    NextStartAgreesWithSource(text, chunkSize, overlap, a.lo);
    assert b.lo + overlap == a.hi;
    SpansShareOverlap(text, a, b, overlap);
  }

  /** Window starts strictly increase. */
  predicate StartsAscend(ws: seq<Span>) {
    forall i, j :: 0 <= i < j < |ws| ==> ws[i].lo < ws[j].lo
  }

  lemma {:induction false} StartBefore(ws: seq<Span>, i: nat, j: nat)
    requires forall k :: 0 <= k < |ws| - 1 ==> ws[k].lo < ws[k + 1].lo
    requires i < j < |ws|
    ensures ws[i].lo < ws[j].lo
    decreases j - i
  {
    if i + 1 < j {
      StartBefore(ws, i, j - 1);
    }
  }

  /** The cursor strictly increases, whatever the overlap: no window is
      visited twice and the loop ends. */
  lemma StartsIncrease(text: string, chunkSize: int, overlap: int)
    requires chunkSize > 0
    ensures StartsAscend(Windows(text, chunkSize, overlap, 0))
  {
    var ws := Windows(text, chunkSize, overlap, 0);
    WindowsChain(text, chunkSize, overlap, 0);
    forall i, j | 0 <= i < j < |ws|
      ensures ws[i].lo < ws[j].lo
    {
      StartBefore(ws, i, j);
    }
  }

  /** A chunk shortened at a space is followed in the text by that space. */
  lemma ShortenedChunkEndsAtSpace(text: string, chunkSize: int, overlap: int)
    requires chunkSize > 0
    ensures var ws := Windows(text, chunkSize, overlap, 0);
      forall i :: 0 <= i < |ws| - 1 && ws[i].hi - ws[i].lo < chunkSize ==>
        ws[i].hi < |text| && text[ws[i].hi] == ' '
  {
    WindowsChain(text, chunkSize, overlap, 0);
  }

  /** Position `p` lies inside one of the windows. */
  predicate Covered(ws: seq<Span>, p: int) {
    exists i :: 0 <= i < |ws| && ws[i].lo <= p < ws[i].hi
  }

  /** A position covered by some windows stays covered with one more in
      front. */
  lemma CoveredCons(w: Span, rest: seq<Span>, p: int)
    requires Covered(rest, p)
    ensures Covered([w] + rest, p)
  {
    var i :| 0 <= i < |rest| && rest[i].lo <= p < rest[i].hi;
    assert ([w] + rest)[i + 1] == rest[i];
  }

  /** Every character of the text from `start` on lies in some window, so
      no text is lost between chunks. */
  lemma {:induction false} WindowsCoverText(text: string, chunkSize: int, overlap: int, start: nat)
    requires chunkSize > 0
    ensures forall p :: start <= p < |text| ==> Covered(Windows(text, chunkSize, overlap, start), p)
    decreases |text| - start
  {
    var ws := Windows(text, chunkSize, overlap, start);
    if start < |text| && start + chunkSize < |text| {
      var end := WindowEnd(text, chunkSize, start);
      var next := NextStart(start, end, overlap);
      WindowsCoverText(text, chunkSize, overlap, next);
      var rest := Windows(text, chunkSize, overlap, next);
      assert ws == [Span(start, end)] + rest;
      forall p | start <= p < |text|
        ensures Covered(ws, p)
      {
        if p < end {
          assert ws[0].lo <= p < ws[0].hi;
        } else {
          CoveredCons(Span(start, end), rest, p);
        }
      }
    } else if start < |text| {
      forall p | start <= p < |text|
        ensures Covered(ws, p)
      {
        assert ws[0].lo <= p < ws[0].hi;
      }
    }
  }

  /** One step of the cursor loop, in terms of chunks. */
  lemma SlicesCons(text: string, w: Span, rest: seq<Span>)
    requires w.lo <= w.hi <= |text|
    requires forall i :: 0 <= i < |rest| ==> rest[i].lo <= rest[i].hi <= |text|
    ensures Slices(text, [w] + rest) == [text[w.lo..w.hi]] + Slices(text, rest)
  {
    var whole, tail := Slices(text, [w] + rest), Slices(text, rest);
    forall i | 0 <= i < |whole|
      ensures whole[i] == ([text[w.lo..w.hi]] + tail)[i]
    {
      if i > 0 {
        assert ([w] + rest)[i] == rest[i - 1];
      }
    }
  }

  lemma SlicesStep(text: string, chunkSize: int, overlap: int, start: nat)
    requires chunkSize > 0 && start + chunkSize < |text|
    ensures var end := WindowEnd(text, chunkSize, start);
      Slices(text, Windows(text, chunkSize, overlap, start))
        == [text[start..end]] + Slices(text, Windows(text, chunkSize, overlap, NextStart(start, end, overlap)))
  {
    var end := WindowEnd(text, chunkSize, start);
    var rest := Windows(text, chunkSize, overlap, NextStart(start, end, overlap));
    assert Windows(text, chunkSize, overlap, start) == [Span(start, end)] + rest;
    SlicesCons(text, Span(start, end), rest);
  }


  /** The last step of the cursor loop. */
  lemma SlicesLast(text: string, chunkSize: int, overlap: int, start: nat)
    requires chunkSize > 0 && start < |text| <= start + chunkSize
    ensures Slices(text, Windows(text, chunkSize, overlap, start)) == [text[start..]]
  {
    assert Windows(text, chunkSize, overlap, start) == [Span(start, |text|)];
    assert text[start..|text|] == text[start..];
  }

  /** One pass of the cursor loop, given the `rfind` result of the window. */
  lemma ChunksFromStep(text: string, chunkSize: int, overlap: int, start: nat, end: nat)
    requires chunkSize > 0 && start + chunkSize < |text|
    requires end == WindowEnd(text, chunkSize, start)
    ensures ChunksFrom(text, chunkSize, overlap, start)
              == [text[start..end]] + ChunksFrom(text, chunkSize, overlap, NextStart(start, end, overlap))
  {
  }

  /** One pass of the cursor loop keeps the chunks emitted so far followed
      by the chunks still to come equal to the whole result. */
  lemma LoopStep(text: string, chunkSize: int, overlap: int, start: nat, end: nat, done: seq<string>)
    requires chunkSize > 0 && start + chunkSize < |text|
    requires end == WindowEnd(text, chunkSize, start)
    ensures done + ChunksFrom(text, chunkSize, overlap, start)
              == (done + [text[start..end]]) + ChunksFrom(text, chunkSize, overlap, NextStart(start, end, overlap))
  {
    ChunksFromStep(text, chunkSize, overlap, start, end);
    AppendAssoc(done, [text[start..end]], ChunksFrom(text, chunkSize, overlap, NextStart(start, end, overlap)));
  }

  /** Lines 67-82: the end of a window that does not reach the end of the
      text, moved back to the last space when it lies in the last tenth. */
  method BreakAtSpace(text: string, chunkSize: int, start: nat) returns (end: nat)
    requires chunkSize > 0 && start + chunkSize < |text|
    ensures end == WindowEnd(text, chunkSize, start)
  {
    end := start + chunkSize;
    var candidate := text[start..end];
    var lastSpace := LastIndexOf(candidate, ' ');
    if lastSpace != -1 && 10 * lastSpace > 9 * chunkSize {
      end := start + lastSpace;
    }
  }

  /** `split_into_chunks`: the cursor loop of lines 45-93. */
  method SplitIntoChunks(text: string, chunkSize: int, overlap: int) returns (chunks: seq<string>)
    requires chunkSize > 0 || text == []
    ensures chunks == Split(text, chunkSize, overlap)
  {
    if |text| == 0 {
      return [];
    }
    assert chunkSize > 0;
    chunks := [];
    var start: nat := 0;
    var textLen := |text|;
    ghost var all := Split(text, chunkSize, overlap);
    while start < textLen
      invariant chunks + ChunksFrom(text, chunkSize, overlap, start) == all
      decreases textLen - start
    {
      if start + chunkSize >= textLen {
        assert ChunksFrom(text, chunkSize, overlap, start) == [text[start..]];
        chunks := chunks + [text[start..]];
        break;
      }
      var end := BreakAtSpace(text, chunkSize, start);
      LoopStep(text, chunkSize, overlap, start, end, chunks);
      chunks := chunks + [text[start..end]];
      var next := end - overlap;
      if next >= end {
        next := end;
      }
      if next <= start {
        next := end;
      }
      assert next == NextStart(start, end, overlap);
      start := next;
    }
    if start >= textLen {
      assert chunks + [] == chunks;
    }
  }

  // ---------------------------------------------------------------------
  // process_and_store_chunks
  // ---------------------------------------------------------------------

  /** The chunk rows stored for `chunks`, with 0-based indices in order. */
  function StoredRows(lectureNoteId: int, chunks: seq<string>, embed: string -> Option<Bytes>): seq<ChunkRow> {
    seq(|chunks|, i requires 0 <= i < |chunks| => ChunkRow(lectureNoteId, i, chunks[i], embed(chunks[i])))
  }

  lemma StoredRowsSnoc(lectureNoteId: int, chunks: seq<string>, idx: nat, embed: string -> Option<Bytes>)
    requires idx < |chunks|
    ensures StoredRows(lectureNoteId, chunks[..idx + 1], embed)
              == StoredRows(lectureNoteId, chunks[..idx], embed)
                 + [ChunkRow(lectureNoteId, idx, chunks[idx], embed(chunks[idx]))]
  {
  }

  /** How many of `chunks` get a non-empty embedding. */
  function CountEmbedded(chunks: seq<string>, embed: string -> Option<Bytes>): (n: nat)
    ensures n <= |chunks|
    ensures n == |chunks| <==> forall i :: 0 <= i < |chunks| ==> BytesTruthy(embed(chunks[i]))
    ensures n == 0 <==> forall i :: 0 <= i < |chunks| ==> !BytesTruthy(embed(chunks[i]))
  {
    if chunks == [] then 0
    else
      var init := chunks[..|chunks| - 1];
      CountEmbedded(init, embed) + (if BytesTruthy(embed(chunks[|chunks| - 1])) then 1 else 0)
  }

  lemma CountEmbeddedSnoc(chunks: seq<string>, idx: nat, embed: string -> Option<Bytes>)
    requires idx < |chunks|
    ensures CountEmbedded(chunks[..idx + 1], embed)
              == CountEmbedded(chunks[..idx], embed) + (if BytesTruthy(embed(chunks[idx])) then 1 else 0)
  {
    assert chunks[..idx + 1][..idx] == chunks[..idx];
  }

  /** Lines 111-124: stores one row per chunk, in order, and counts the
      chunks that got an embedding. */
  method StoreChunks(db: Db, lectureNoteId: int, chunks: seq<string>, embed: string -> Option<Bytes>)
    returns (embedded: nat)
    modifies db`chunks
    ensures embedded == CountEmbedded(chunks, embed)
    ensures db.chunks == old(db.chunks) + StoredRows(lectureNoteId, chunks, embed)
  {
    embedded := 0;
    ghost var before := db.chunks;
    for idx := 0 to |chunks|
      invariant embedded == CountEmbedded(chunks[..idx], embed)
      invariant db.chunks == before + StoredRows(lectureNoteId, chunks[..idx], embed)
    {
      var content := chunks[idx];
      var embBytes := embed(content);
      if BytesTruthy(embBytes) {
        embedded := embedded + 1;
      }
      CountEmbeddedSnoc(chunks, idx, embed);
      StoredRowsSnoc(lectureNoteId, chunks, idx, embed);
      AppendAssoc(before, StoredRows(lectureNoteId, chunks[..idx], embed),
                  [ChunkRow(lectureNoteId, idx, content, embBytes)]);
      db.chunks := db.chunks + [ChunkRow(lectureNoteId, idx, content, embBytes)];
    }
    assert chunks[..|chunks|] == chunks;
  }

  /** The chunks `process_and_store_chunks` stores for a text: the cleaned
      text split with the default sizes. */
  function TextChunks(text: string, steps: OpaqueSteps): seq<string> {
    Split(CleanText(text, steps), DefaultChunkSize, DefaultOverlap)
  }

  /** `process_and_store_chunks`: cleans and chunks the text with the default
      sizes, stores one row per chunk in order and counts the chunks that got
      an embedding. The embedding model is the parameter `embed`. */
  method ProcessAndStoreChunks(db: Db, lectureNoteId: int, text: string, steps: OpaqueSteps,
                               embed: string -> Option<Bytes>)
    returns (stored: nat, embedded: nat)
    modifies db`chunks
    ensures stored == |TextChunks(text, steps)|
    ensures embedded == CountEmbedded(TextChunks(text, steps), embed)
    ensures db.chunks == old(db.chunks) + StoredRows(lectureNoteId, TextChunks(text, steps), embed)
  {
    var cleaned := CleanText(text, steps);
    var chunks := SplitIntoChunks(cleaned, DefaultChunkSize, DefaultOverlap);
    assert chunks == TextChunks(text, steps);
    if |chunks| == 0 {
      assert StoredRows(lectureNoteId, chunks, embed) == [];
      assert db.chunks + [] == db.chunks;
      return 0, 0;
    }
    embedded := StoreChunks(db, lectureNoteId, chunks, embed);
    stored := |chunks|;
  }
}
