/** Vector search over the chunks of one lecture note
    (api/services/search_service.py): decoding of the stored embedding blobs,
    the guards of the cosine similarity, and the ranking of
    `search_lecture_chunks`. The floating-point arithmetic itself is a
    parameter: a similarity is a `real` that the functions `norm` and `dot`
    of a `FloatOps` value produce. */
module SearchService {
  import opened Strings
  import opened Values
  import opened Database

  // ---------------------------------------------------------------------
  // bytes_to_vector
  // ---------------------------------------------------------------------

  /** The four bytes of one `float32`. */
  type Float32Bytes = seq<bv8>

  /** A `float32` vector, element by element. */
  type Vector = seq<Float32Bytes>

  /** The exceptions numpy raises during a search. */
  datatype SearchError =
    | BufferSizeError   // `np.frombuffer` on a blob whose length is not a multiple of 4
    | ShapesNotAligned  // `np.dot` on vectors of different lengths

  /** `np.frombuffer(blob, dtype=np.float32)`: the blob cut into groups of four
      bytes, or an error when its length is not a multiple of four. */
  function FromBuffer(blob: Bytes): (r: Result<Vector, SearchError>)
    ensures r.Ok? <==> |blob| % 4 == 0
    ensures r.Ok? ==> |r.value| == |blob| / 4
    ensures r.Ok? ==> forall i :: 0 <= i < |r.value| ==> |r.value[i]| == 4
  {
    if |blob| % 4 != 0 then Err(BufferSizeError)
    else Ok(seq(|blob| / 4, i requires 0 <= i < |blob| / 4 => blob[4 * i..4 * i + 4]))
  }

  /** `vector.tobytes()`: how an embedding is stored. */
  function ToBytes(v: Vector): Bytes {
    Flatten(v)
  }

  lemma {:induction false} ToBytesSlices(v: Vector)
    requires forall i :: 0 <= i < |v| ==> |v[i]| == 4
    ensures |ToBytes(v)| == 4 * |v|
    ensures forall i :: 0 <= i < |v| ==> ToBytes(v)[4 * i..4 * i + 4] == v[i]
  {
    if v != [] {
      var rest := v[1..];
      ToBytesSlices(rest);
      assert ToBytes(v) == v[0] + ToBytes(rest);
      forall i | 0 <= i < |v|
        ensures ToBytes(v)[4 * i..4 * i + 4] == v[i]
      {
        if i > 0 {
          assert ToBytes(v)[4 * i..4 * i + 4] == ToBytes(rest)[4 * (i - 1)..4 * (i - 1) + 4];
        }
      }
    }
  }

  /** Decoding a stored vector gives it back. */
  lemma FromBufferToBytes(v: Vector)
    requires forall i :: 0 <= i < |v| ==> |v[i]| == 4
    ensures FromBuffer(ToBytes(v)) == Ok(v)
  {
    ToBytesSlices(v);
    var r := FromBuffer(ToBytes(v));
    assert |ToBytes(v)| % 4 == 0;
    assert |r.value| == |v|;
    forall i | 0 <= i < |v|
      ensures r.value[i] == v[i]
    {
      assert r.value[i] == ToBytes(v)[4 * i..4 * i + 4];
    }
    assert r.value == v;
  }

  /** Storing a decoded vector gives the blob back. */
  lemma {:induction false} ToBytesFromBuffer(blob: Bytes)
    requires |blob| % 4 == 0
    ensures ToBytes(FromBuffer(blob).value) == blob
    decreases |blob|
  {
    if blob != [] {
      var v := FromBuffer(blob).value;
      var rest := blob[4..];
      ToBytesFromBuffer(rest);
      forall i | 0 <= i < |v| - 1
        ensures v[1..][i] == rest[4 * i..4 * i + 4]
      {
        assert v[1..][i] == v[i + 1] == blob[4 * (i + 1)..4 * (i + 1) + 4];
        assert rest[4 * i..4 * i + 4] == blob[4 * i + 4..4 * i + 8];
      }
      assert v[1..] == FromBuffer(rest).value;
      assert ToBytes(v) == v[0] + ToBytes(v[1..]);
      assert blob == blob[..4] + rest;
    }
  }

  /** `bytes_to_vector(blob)` of lines 8-12: `None` and `b""` give the empty
      vector, anything else is decoded. */
  function BytesToVector(blob: Option<Bytes>): (r: Result<Vector, SearchError>)
    ensures !BytesTruthy(blob) ==> r == Ok([])
    ensures BytesTruthy(blob) ==> r == FromBuffer(blob.value)
  {
    if !BytesTruthy(blob) then Ok([]) else FromBuffer(blob.value)
  }

  /** A stored non-empty embedding decodes to the vector it was stored from,
      with one element per four bytes. */
  lemma BytesToVectorOfStored(v: Vector)
    requires v != []
    requires forall i :: 0 <= i < |v| ==> |v[i]| == 4
    ensures BytesToVector(Some(ToBytes(v))) == Ok(v)
    ensures |ToBytes(v)| == 4 * |BytesToVector(Some(ToBytes(v))).value|
  {
    ToBytesSlices(v);
    FromBufferToBytes(v);
  }

  // ---------------------------------------------------------------------
  // cosine_similarity
  // ---------------------------------------------------------------------

  /** The floating-point operations of numpy the similarity uses:
      `np.linalg.norm` and `np.dot`. */
  datatype FloatOps = FloatOps(norm: Vector -> real, dot: (Vector, Vector) -> real)

  /** `cosine_similarity(a, b)` of lines 14-22: 0.0 when either vector is
      empty or has norm zero, otherwise the dot product over the product of
      the norms; `np.dot` fails on vectors of different lengths. */
  function CosineSimilarity(a: Vector, b: Vector, ops: FloatOps): (r: Result<real, SearchError>)
    ensures |a| == 0 || |b| == 0 ==> r == Ok(0.0)
    ensures ops.norm(a) == 0.0 || ops.norm(b) == 0.0 ==> r == Ok(0.0)
    ensures r.Err? <==> (|a| > 0 && |b| > 0 && ops.norm(a) != 0.0 && ops.norm(b) != 0.0 && |a| != |b|)
    ensures r.Ok? && r.value != 0.0 ==> |a| == |b| > 0 && ops.dot(a, b) != 0.0
  {
    if |a| == 0 || |b| == 0 then Ok(0.0)
    else
      var normA := ops.norm(a);
      var normB := ops.norm(b);
      if normA == 0.0 || normB == 0.0 then Ok(0.0)
      else if |a| != |b| then Err(ShapesNotAligned)
      else Ok(ops.dot(a, b) / (normA * normB))
  }

  // ---------------------------------------------------------------------
  // search_lecture_chunks
  // ---------------------------------------------------------------------

  /** `db.query(Chunk).filter(Chunk.lecture_notes_id == lecture_note_id).all()`,
      in table order. */
  function NoteChunks(rows: seq<ChunkRow>, lectureNoteId: int): (r: seq<ChunkRow>)
    ensures |r| <= |rows|
    ensures forall c :: c in r ==> c in rows && c.lectureNotesId == lectureNoteId
    ensures forall c :: c in rows && c.lectureNotesId == lectureNoteId ==> c in r
  {
    if rows == [] then []
    else (if rows[0].lectureNotesId == lectureNoteId then [rows[0]] else []) + NoteChunks(rows[1..], lectureNoteId)
  }

  /** An entry of `similarities`: the chunk, its position among the note's
      chunks, and its similarity to the query. */
  datatype Scored = Scored(pos: nat, chunk: ChunkRow, sim: real)

  /** Positions of the chunks that have an embedding, in order. */
  function Embedded(chunks: seq<ChunkRow>): (ps: seq<nat>)
    ensures forall k :: 0 <= k < |ps| ==> ps[k] < |chunks| && BytesTruthy(chunks[ps[k]].embedding)
    ensures forall k :: 0 <= k < |chunks| && BytesTruthy(chunks[k].embedding) ==> k in ps
  {
    if chunks == [] then []
    else
      var init := chunks[..|chunks| - 1];
      Embedded(init) + (if BytesTruthy(chunks[|chunks| - 1].embedding) then [|chunks| - 1] else [])
  }

  function Positions(s: seq<Scored>): seq<nat> {
    seq(|s|, k requires 0 <= k < |s| => s[k].pos)
  }

  /** Lines 41-50: the loop that scores each chunk with an embedding against
      the query vector, stopping at the first numpy error. */
  function Similarities(query: Vector, chunks: seq<ChunkRow>, ops: FloatOps): Result<seq<Scored>, SearchError> {
    if chunks == [] then Ok([])
    else
      var n := |chunks| - 1;
      var prev := Similarities(query, chunks[..n], ops);
      if prev.Err? || !BytesTruthy(chunks[n].embedding) then prev
      else match BytesToVector(chunks[n].embedding)
        case Err(e) => Err(e)
        case Ok(v) =>
          match CosineSimilarity(query, v, ops)
          case Err(e) => Err(e)
          case Ok(sim) => Ok(prev.value + [Scored(n, chunks[n], sim)])
  }

  /** A similarity list is the note's embedded chunks in order: positions are
      those of the chunks with an embedding, and each entry holds its chunk. */
  lemma {:induction false} SimilaritiesShape(query: Vector, chunks: seq<ChunkRow>, ops: FloatOps)
    requires Similarities(query, chunks, ops).Ok?
    ensures var s := Similarities(query, chunks, ops).value;
      && Positions(s) == Embedded(chunks)
      && (forall k :: 0 <= k < |s| ==> s[k].pos < |chunks| && s[k].chunk == chunks[s[k].pos])
  {
    if chunks != [] {
      var n := |chunks| - 1;
      var init := chunks[..n];
      SimilaritiesShape(query, init, ops);
      var s := Similarities(query, chunks, ops).value;
      var p := Similarities(query, init, ops).value;
      assert Embedded(chunks) == Embedded(init) + (if BytesTruthy(chunks[n].embedding) then [n] else []);
      assert forall k :: 0 <= k < |p| ==> p[k].pos < n && init[p[k].pos] == chunks[p[k].pos];
      if BytesTruthy(chunks[n].embedding) {
        var x := s[|p|];
        assert s == p + [x];
        assert x.pos == n && x.chunk == chunks[n];
        PositionsSnoc(p, x);
      } else {
        assert s == p;
      }
    }
  }

  lemma PositionsSnoc(p: seq<Scored>, x: Scored)
    ensures Positions(p + [x]) == Positions(p) + [x.pos]
  {
  }

  /** An error stays an error: once a prefix of the chunks fails, so does
      the whole loop, with the same error. */
  lemma {:induction false} SimilaritiesErr(query: Vector, chunks: seq<ChunkRow>, i: nat, ops: FloatOps)
    requires i <= |chunks|
    requires Similarities(query, chunks[..i], ops).Err?
    ensures Similarities(query, chunks, ops) == Similarities(query, chunks[..i], ops)
    decreases |chunks| - i
  {
    if i < |chunks| {
      assert chunks[..i + 1][..i] == chunks[..i];
      SimilaritiesErr(query, chunks, i + 1, ops);
    } else {
      assert chunks[..i] == chunks;
    }
  }

  /** Ordered by non-increasing similarity. */
  predicate SortedDesc(s: seq<Scored>) {
    forall i, j :: 0 <= i < j < |s| ==> s[i].sim >= s[j].sim
  }

  /** Entries of equal similarity keep their order of enumeration. */
  predicate Stable(s: seq<Scored>) {
    forall i, j :: 0 <= i < j < |s| && s[i].sim == s[j].sim ==> s[i].pos < s[j].pos
  }

  predicate PositionsIncrease(s: seq<Scored>) {
    forall i, j :: 0 <= i < j < |s| ==> s[i].pos < s[j].pos
  }

  predicate DistinctPositions(s: seq<Scored>) {
    forall i, j :: 0 <= i < |s| && 0 <= j < |s| && i != j ==> s[i].pos != s[j].pos
  }

  /** Inserts `x` after every entry whose similarity is at least its own. */
  function InsertDesc(x: Scored, s: seq<Scored>): (r: seq<Scored>)
    ensures |r| == |s| + 1
  {
    if s == [] then [x]
    else if s[0].sim >= x.sim then [s[0]] + InsertDesc(x, s[1..])
    else [x] + s
  }

  lemma {:induction false} InsertDescMultiset(x: Scored, s: seq<Scored>)
    ensures multiset(InsertDesc(x, s)) == multiset(s) + multiset{x}
  {
    if s != [] && s[0].sim >= x.sim {
      InsertDescMultiset(x, s[1..]);
      assert s == [s[0]] + s[1..];
    }
  }

  /** `similarities.sort(key=lambda x: x[1], reverse=True)` of line 53, a
      stable sort by decreasing similarity: each entry in turn is inserted
      after every earlier entry whose similarity is at least its own. */
  function SortDesc(xs: seq<Scored>): (r: seq<Scored>)
    ensures |r| == |xs|
  {
    if xs == [] then [] else InsertDesc(xs[|xs| - 1], SortDesc(xs[..|xs| - 1]))
  }

  /** The sort is a permutation. */
  lemma {:induction false} SortDescMultiset(xs: seq<Scored>)
    ensures multiset(SortDesc(xs)) == multiset(xs)
  {
    if xs != [] {
      var init := xs[..|xs| - 1];
      SortDescMultiset(init);
      InsertDescMultiset(xs[|xs| - 1], SortDesc(init));
      assert xs == init + [xs[|xs| - 1]];
    }
  }

  /** Placing an entry at index `k`, after the entries of at least its
      similarity and before those of lower similarity, keeps the order. */
  lemma SortedSplice(s: seq<Scored>, k: nat, x: Scored)
    requires k <= |s| && SortedDesc(s)
    requires forall i :: 0 <= i < k ==> s[i].sim >= x.sim
    requires forall i :: k <= i < |s| ==> s[i].sim < x.sim
    ensures SortedDesc(s[..k] + [x] + s[k..])
  {
    var r := s[..k] + [x] + s[k..];
    forall i, j | 0 <= i < j < |r|
      ensures r[i].sim >= r[j].sim
    {
      if j < k {
        assert r[i] == s[i] && r[j] == s[j];
      } else if j == k {
        assert r[i] == s[i] && r[j] == x;
      } else if i > k {
        assert r[i] == s[i - 1] && r[j] == s[j - 1];
      } else if i == k {
        assert r[i] == x && r[j] == s[j - 1];
      } else {
        assert r[i] == s[i] && r[j] == s[j - 1];
      }
    }
  }

  lemma InsertDescSorted(x: Scored, s: seq<Scored>)
    requires SortedDesc(s)
    ensures SortedDesc(InsertDesc(x, s))
  {
    InsertDescAt(x, s);
    var k := InsertIndex(x, s);
    forall i | k <= i < |s|
      ensures s[i].sim < x.sim
    {
      assert s[k].sim >= s[i].sim;
    }
    SortedSplice(s, k, x);
  }

  /** The sort orders by non-increasing similarity. */
  lemma {:induction false} SortDescSorted(xs: seq<Scored>)
    ensures SortedDesc(SortDesc(xs))
  {
    if xs != [] {
      SortDescSorted(xs[..|xs| - 1]);
      InsertDescSorted(xs[|xs| - 1], SortDesc(xs[..|xs| - 1]));
    }
  }

  /** How many leading entries of `s` have a similarity at least `x`'s:
      where `InsertDesc` puts `x`. */
  function InsertIndex(x: Scored, s: seq<Scored>): (k: nat)
    ensures k <= |s|
    ensures forall i :: 0 <= i < k ==> s[i].sim >= x.sim
    ensures k < |s| ==> s[k].sim < x.sim
  {
    if s == [] || s[0].sim < x.sim then 0 else 1 + InsertIndex(x, s[1..])
  }

  lemma {:induction false} InsertDescAt(x: Scored, s: seq<Scored>)
    ensures InsertDesc(x, s) == s[..InsertIndex(x, s)] + [x] + s[InsertIndex(x, s)..]
  {
    if s != [] && s[0].sim >= x.sim {
      InsertDescAt(x, s[1..]);
      var k := InsertIndex(x, s[1..]);
      assert s[..k + 1] == [s[0]] + s[1..][..k];
      assert s[k + 1..] == s[1..][k..];
    }
  }

  /** Placing an entry at index `k`, between the entries of at least its
      similarity, all enumerated before it, and those of lower similarity,
      keeps equal similarities in enumeration order. */
  lemma StableSplice(s: seq<Scored>, k: nat, x: Scored)
    requires k <= |s| && Stable(s)
    requires forall i :: 0 <= i < k ==> s[i].sim >= x.sim && s[i].pos < x.pos
    requires forall i :: k <= i < |s| ==> s[i].sim < x.sim
    ensures Stable(s[..k] + [x] + s[k..])
  {
    var r := s[..k] + [x] + s[k..];
    forall i, j | 0 <= i < j < |r| && r[i].sim == r[j].sim
      ensures r[i].pos < r[j].pos
    {
      if j < k {
        assert r[i] == s[i] && r[j] == s[j];
      } else if j == k {
        assert r[i] == s[i] && r[j] == x;
      } else if i > k {
        assert r[i] == s[i - 1] && r[j] == s[j - 1];
      }
    }
  }

  /** Inserting an entry enumerated after all others keeps equal
      similarities in enumeration order. */
  lemma InsertDescStable(x: Scored, s: seq<Scored>)
    requires SortedDesc(s) && Stable(s)
    requires forall i :: 0 <= i < |s| ==> s[i].pos < x.pos
    ensures Stable(InsertDesc(x, s))
  {
    InsertDescAt(x, s);
    var k := InsertIndex(x, s);
    forall i | k <= i < |s|
      ensures s[i].sim < x.sim
    {
      assert s[k].sim >= s[i].sim;
    }
    StableSplice(s, k, x);
  }

  /** Placing an entry with a new position anywhere keeps positions
      distinct. */
  lemma DistinctSplice(s: seq<Scored>, k: nat, x: Scored)
    requires k <= |s| && DistinctPositions(s)
    requires forall i :: 0 <= i < |s| ==> s[i].pos != x.pos
    ensures DistinctPositions(s[..k] + [x] + s[k..])
  {
    var r := s[..k] + [x] + s[k..];
    forall i, j | 0 <= i < |r| && 0 <= j < |r| && i != j
      ensures r[i].pos != r[j].pos
    {
      var si := if i < k then i else i - 1;
      var sj := if j < k then j else j - 1;
      if i != k && j != k {
        assert r[i] == s[si] && r[j] == s[sj];
      } else if i == k {
        assert r[i] == x && r[j] == s[sj];
      } else {
        assert r[i] == s[si] && r[j] == x;
      }
    }
  }

  /** Inserting an entry at a new position keeps positions distinct. */
  lemma InsertDescDistinct(x: Scored, s: seq<Scored>)
    requires DistinctPositions(s)
    requires forall i :: 0 <= i < |s| ==> s[i].pos != x.pos
    ensures DistinctPositions(InsertDesc(x, s))
  {
    InsertDescAt(x, s);
    DistinctSplice(s, InsertIndex(x, s), x);
  }

  lemma {:induction false} SortDescStable(xs: seq<Scored>)
    requires PositionsIncrease(xs)
    ensures Stable(SortDesc(xs)) && DistinctPositions(SortDesc(xs))
  {
    if xs != [] {
      var init := xs[..|xs| - 1];
      var x := xs[|xs| - 1];
      SortDescStable(init);
      SortDescSorted(init);
      var s := SortDesc(init);
      SortDescMultiset(init);
      forall i | 0 <= i < |s|
        ensures s[i].pos < x.pos
      {
        assert s[i] in multiset(init);
      }
      InsertDescStable(x, s);
      InsertDescDistinct(x, s);
    }
  }

  /** `seq[:k]` with Python's meaning for a negative `k`. */
  function PySliceTo<T>(s: seq<T>, k: int): (r: seq<T>)
    ensures k >= 0 ==> |r| == if k < |s| then k else |s|
    ensures |r| <= |s| && r == s[..|r|]
  {
    if k >= 0 then (if k < |s| then s[..k] else s)
    else if -k < |s| then s[..|s| + k] else []
  }

  /** The chunks of the ranked entries, `[item[0] for item in ...]`. */
  function ChunksOf(s: seq<Scored>): (r: seq<ChunkRow>)
    ensures |r| == |s|
    ensures forall k :: 0 <= k < |s| ==> r[k] == s[k].chunk
  {
    seq(|s|, k requires 0 <= k < |s| => s[k].chunk)
  }

  /** The ranking of lines 53-56: the `top_k` entries of highest similarity. */
  function Ranked(sims: seq<Scored>, topK: int): seq<Scored> {
    PySliceTo(SortDesc(sims), topK)
  }

  /** `search_lecture_chunks(db, lecture_note_id, query, top_k)` of lines
      24-56 on the rows of the chunks table, given the bytes the embedding
      model returns for the query. */
  function Search(rows: seq<ChunkRow>, lectureNoteId: int, queryBytes: Option<Bytes>, topK: int, ops: FloatOps)
    : Result<seq<ChunkRow>, SearchError>
  {
    if !BytesTruthy(queryBytes) then Ok([])
    else match FromBuffer(queryBytes.value)
      case Err(e) => Err(e)
      case Ok(query) =>
        var chunks := NoteChunks(rows, lectureNoteId);
        if chunks == [] then Ok([])
        else match Similarities(query, chunks, ops)
          case Err(e) => Err(e)
          case Ok(sims) => Ok(ChunksOf(Ranked(sims, topK)))
  }

  /** A prefix of the sort is ordered, keeps equal similarities in
      enumeration order and holds no position twice. */
  lemma RankedSorted(sims: seq<Scored>, topK: int)
    requires PositionsIncrease(sims)
    ensures var r := Ranked(sims, topK); SortedDesc(r) && Stable(r) && DistinctPositions(r)
  {
    SortDescSorted(sims);
    SortDescStable(sims);
  }

  /** Every entry kept scores at least as high as every entry left out. */
  lemma RankedTop(sims: seq<Scored>, topK: int)
    ensures var r := Ranked(sims, topK);
      forall i, j :: 0 <= i < |r| && 0 <= j < |sims| && sims[j] !in r ==> r[i].sim >= sims[j].sim
  {
    var s := SortDesc(sims);
    SortDescSorted(sims);
    SortDescMultiset(sims);
    var r := Ranked(sims, topK);
    forall i, j | 0 <= i < |r| && 0 <= j < |sims| && sims[j] !in r
      ensures r[i].sim >= sims[j].sim
    {
      assert sims[j] in multiset(s);
      var m :| 0 <= m < |s| && s[m] == sims[j];
      assert r == s[..|r|];
      assert m >= |r|;
    }
  }

  /** Every entry kept is one of the scored entries. */
  lemma RankedMembers(sims: seq<Scored>, topK: int)
    ensures var r := Ranked(sims, topK); forall k :: 0 <= k < |r| ==> r[k] in sims
  {
    var s := SortDesc(sims);
    SortDescMultiset(sims);
    var r := Ranked(sims, topK);
    forall k | 0 <= k < |r|
      ensures r[k] in sims
    {
      assert r[k] == s[k];
      assert s[k] in multiset(sims);
    }
  }

  predicate Increasing(ps: seq<nat>) {
    forall i, j :: 0 <= i < j < |ps| ==> ps[i] < ps[j]
  }

  lemma {:induction false} EmbeddedIncrease(chunks: seq<ChunkRow>)
    ensures Increasing(Embedded(chunks))
  {
    if chunks != [] {
      var init := chunks[..|chunks| - 1];
      EmbeddedIncrease(init);
      var p := Embedded(init);
      var ps := Embedded(chunks);
      assert ps[..|p|] == p;
      forall i, j | 0 <= i < j < |ps|
        ensures ps[i] < ps[j]
      {
        assert ps[i] == p[i];
        if j < |p| {
          assert ps[j] == p[j];
        } else {
          assert ps[j] == |init|;
        }
      }
    }
  }

  /** The scored entries come in enumeration order. */
  lemma SimilaritiesIncrease(query: Vector, chunks: seq<ChunkRow>, ops: FloatOps)
    requires Similarities(query, chunks, ops).Ok?
    ensures PositionsIncrease(Similarities(query, chunks, ops).value)
  {
    var sims := Similarities(query, chunks, ops).value;
    SimilaritiesShape(query, chunks, ops);
    EmbeddedIncrease(chunks);
    assert forall i :: 0 <= i < |sims| ==> sims[i].pos == Positions(sims)[i];
  }

  /** The ranking of a search is a prefix of a stable sort by decreasing
      similarity: ordered, equal similarities in enumeration order, no chunk
      twice, every entry kept scores at least as high as every entry left
      out, and `min(top_k, scored)` entries for a non-negative `top_k`. */
  lemma RankedOrder(query: Vector, chunks: seq<ChunkRow>, topK: int, ops: FloatOps)
    requires Similarities(query, chunks, ops).Ok?
    ensures var sims := Similarities(query, chunks, ops).value;
      var r := Ranked(sims, topK);
      && SortedDesc(r) && Stable(r) && DistinctPositions(r)
      && (forall i, j :: 0 <= i < |r| && 0 <= j < |sims| && sims[j] !in r ==> r[i].sim >= sims[j].sim)
      && (topK >= 0 ==> |r| == if topK < |sims| then topK else |sims|)
  {
    var sims := Similarities(query, chunks, ops).value;
    SimilaritiesIncrease(query, chunks, ops);
    RankedSorted(sims, topK);
    RankedTop(sims, topK);
  }

  /** What the search returns: an empty list without a query embedding or
      without chunks for the note; otherwise chunks of that note, each with
      an embedding, exactly `min(top_k, embedded chunks)` of them for a
      non-negative `top_k` once the query has an embedding. */
  lemma SearchResult(rows: seq<ChunkRow>, lectureNoteId: int, queryBytes: Option<Bytes>, topK: int, ops: FloatOps)
    ensures !BytesTruthy(queryBytes) ==> Search(rows, lectureNoteId, queryBytes, topK, ops) == Ok([])
    ensures BytesTruthy(queryBytes) && |queryBytes.value| % 4 == 0 && NoteChunks(rows, lectureNoteId) == []
            ==> Search(rows, lectureNoteId, queryBytes, topK, ops) == Ok([])
    ensures Search(rows, lectureNoteId, queryBytes, topK, ops).Ok? ==>
      forall c :: c in Search(rows, lectureNoteId, queryBytes, topK, ops).value ==>
        c in rows && c.lectureNotesId == lectureNoteId && BytesTruthy(c.embedding)
    ensures BytesTruthy(queryBytes) && topK >= 0 && Search(rows, lectureNoteId, queryBytes, topK, ops).Ok? ==>
      var embedded := |Embedded(NoteChunks(rows, lectureNoteId))|;
      |Search(rows, lectureNoteId, queryBytes, topK, ops).value| == if topK < embedded then topK else embedded
  {
    if BytesTruthy(queryBytes) && FromBuffer(queryBytes.value).Ok? {
      var query := FromBuffer(queryBytes.value).value;
      var chunks := NoteChunks(rows, lectureNoteId);
      if chunks != [] && Similarities(query, chunks, ops).Ok? {
        SearchedChunks(query, chunks, topK, ops);
      }
    }
  }

  lemma SearchedChunks(query: Vector, chunks: seq<ChunkRow>, topK: int, ops: FloatOps)
    requires Similarities(query, chunks, ops).Ok?
    ensures var r := ChunksOf(Ranked(Similarities(query, chunks, ops).value, topK));
      && (forall c :: c in r ==> c in chunks && BytesTruthy(c.embedding))
      && (topK >= 0 ==> |r| == if topK < |Embedded(chunks)| then topK else |Embedded(chunks)|)
  {
    var sims := Similarities(query, chunks, ops).value;
    SimilaritiesShape(query, chunks, ops);
    RankedMembers(sims, topK);
    assert |sims| == |Positions(sims)|;
    var ranked := Ranked(sims, topK);
    forall c | c in ChunksOf(ranked)
      ensures c in chunks && BytesTruthy(c.embedding)
    {
      var k :| 0 <= k < |ranked| && ChunksOf(ranked)[k] == c;
      var m :| 0 <= m < |sims| && sims[m] == ranked[k];
      assert sims[m].pos == Positions(sims)[m] == Embedded(chunks)[m];
    }
  }

  /** Lines 41-50: the scoring loop. */
  method ScoreChunks(query: Vector, chunks: seq<ChunkRow>, ops: FloatOps) returns (r: Result<seq<Scored>, SearchError>)
    ensures r == Similarities(query, chunks, ops)
  {
    var similarities: seq<Scored> := [];
    for i := 0 to |chunks|
      invariant Similarities(query, chunks[..i], ops) == Ok(similarities)
    {
      var chunk := chunks[i];
      assert chunks[..i + 1][..i] == chunks[..i];
      if !BytesTruthy(chunk.embedding) {
        continue;
      }
      var chunkVec := BytesToVector(chunk.embedding);
      if chunkVec.Err? {
        SimilaritiesErr(query, chunks, i + 1, ops);
        return Err(chunkVec.error);
      }
      var sim := CosineSimilarity(query, chunkVec.value, ops);
      if sim.Err? {
        SimilaritiesErr(query, chunks, i + 1, ops);
        return Err(sim.error);
      }
      similarities := similarities + [Scored(i, chunk, sim.value)];
    }
    assert chunks[..|chunks|] == chunks;
    return Ok(similarities);
  }

  /** `search_lecture_chunks` on the session `db`; the embedding model is
      the parameter `embed`. */
  method SearchLectureChunks(db: Db, lectureNoteId: int, query: string, topK: int,
                             embed: string -> Option<Bytes>, ops: FloatOps)
    returns (r: Result<seq<ChunkRow>, SearchError>)
    ensures r == Search(db.chunks, lectureNoteId, embed(query), topK, ops)
  {
    var queryBytes := embed(query);
    if !BytesTruthy(queryBytes) {
      return Ok([]);
    }
    var queryVec := FromBuffer(queryBytes.value);
    if queryVec.Err? {
      return Err(queryVec.error);
    }
    var chunks := NoteChunks(db.chunks, lectureNoteId);
    if chunks == [] {
      return Ok([]);
    }
    var similarities := ScoreChunks(queryVec.value, chunks, ops);
    if similarities.Err? {
      return Err(similarities.error);
    }
    var sorted := SortDesc(similarities.value);
    var top := PySliceTo(sorted, topK);
    return Ok(ChunksOf(top));
  }
}
