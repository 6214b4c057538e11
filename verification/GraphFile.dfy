/**
 The binary graph file between map_layout.py and its DrL worker: GraphFileWriter
 appends edge, weight and seed batches and a trailer of counts; read_graph finds
 its way back from the trailer.
 */
module GraphFile {
  import opened Options
  import opened Words

  type Pair = p: (int, int) | IsInt64(p.0) && IsInt64(p.1) witness (0, 0)

  /** A node's start position: three float64, of which only the bits matter here. */
  type Row = (Word, Word, Word)

  datatype Result<T> = Ok(value: T) | Err

  datatype Graph = Graph(nodeCount: int, edges: seq<Pair>, weights: Option<seq<Word>>, seed: Option<seq<Row>>)

  // --- Sections as words ----------------------------------------------------------------

  function EdgeWords(edges: seq<Pair>): (w: seq<Word>)
    ensures |w| == 2 * |edges|
  {
    seq(2 * |edges|, k requires 0 <= k < 2 * |edges| => ToWord(if k % 2 == 0 then edges[k / 2].0 else edges[k / 2].1))
  }

  function SeedWords(rows: seq<Row>): (w: seq<Word>)
    ensures |w| == 3 * |rows|
  {
    seq(3 * |rows|, k requires 0 <= k < 3 * |rows| =>
      if k % 3 == 0 then rows[k / 3].0 else if k % 3 == 1 then rows[k / 3].1 else rows[k / 3].2)
  }

  /** reshape(-1, 2) */
  function PairsOf(words: seq<Word>, m: nat): (edges: seq<Pair>)
    requires |words| == 2 * m
    ensures |edges| == m
  {
    seq(m, i requires 0 <= i < m => (ToInt(words[2 * i]), ToInt(words[2 * i + 1])))
  }

  /** reshape(-1, 3) */
  function RowsOf(words: seq<Word>, n: nat): (rows: seq<Row>)
    requires |words| == 3 * n
    ensures |rows| == n
  {
    seq(n, i requires 0 <= i < n => (words[3 * i], words[3 * i + 1], words[3 * i + 2]))
  }

  lemma PairsBack(edges: seq<Pair>)
    ensures PairsOf(EdgeWords(edges), |edges|) == edges
  {
    var w := EdgeWords(edges);
    forall i | 0 <= i < |edges| ensures PairsOf(w, |edges|)[i] == edges[i] {
      assert w[2 * i] == ToWord(edges[i].0) && w[2 * i + 1] == ToWord(edges[i].1);
      IntRoundTrip(edges[i].0);
      IntRoundTrip(edges[i].1);
    }
  }

  lemma PairsForth(words: seq<Word>, m: nat)
    requires |words| == 2 * m
    ensures EdgeWords(PairsOf(words, m)) == words
  {
    var edges := PairsOf(words, m);
    forall k | 0 <= k < 2 * m ensures EdgeWords(edges)[k] == words[k] {
      assert k == 2 * (k / 2) + k % 2;
    }
  }

  lemma RowsBack(rows: seq<Row>)
    ensures RowsOf(SeedWords(rows), |rows|) == rows
  {
    var w := SeedWords(rows);
    forall i | 0 <= i < |rows| ensures RowsOf(w, |rows|)[i] == rows[i] {
      assert w[3 * i] == rows[i].0 && w[3 * i + 1] == rows[i].1 && w[3 * i + 2] == rows[i].2;
    }
  }

  lemma RowsForth(words: seq<Word>, n: nat)
    requires |words| == 3 * n
    ensures SeedWords(RowsOf(words, n)) == words
  {
    var rows := RowsOf(words, n);
    forall k | 0 <= k < 3 * n ensures SeedWords(rows)[k] == words[k] {
      assert k == 3 * (k / 3) + k % 3;
    }
  }

  lemma EdgeWordsOfBoth(a: seq<Pair>, b: seq<Pair>)
    ensures EdgeWords(a + b) == EdgeWords(a) + EdgeWords(b)
  {
    forall k | 0 <= k < 2 * |a + b| ensures EdgeWords(a + b)[k] == (EdgeWords(a) + EdgeWords(b))[k] {
      if k >= 2 * |a| {
        assert (k - 2 * |a|) / 2 == k / 2 - |a| && (k - 2 * |a|) % 2 == k % 2;
      }
    }
  }

  lemma SeedWordsOfBoth(a: seq<Row>, b: seq<Row>)
    ensures SeedWords(a + b) == SeedWords(a) + SeedWords(b)
  {
    forall k | 0 <= k < 3 * |a + b| ensures SeedWords(a + b)[k] == (SeedWords(a) + SeedWords(b))[k] {
      if k >= 3 * |a| {
        assert (k - 3 * |a|) / 3 == k / 3 - |a| && (k - 3 * |a|) % 3 == k % 3;
      }
    }
  }

  // --- The file of a graph --------------------------------------------------------------

  function Body(edges: seq<Pair>, weights: seq<Word>, seed: seq<Row>): seq<Word> {
    EdgeWords(edges) + weights + SeedWords(seed)
  }

  /** The trailer flags: any non-zero word says the section is there. */
  datatype Flags = Flags(weights: int, seed: int)

  ghost predicate Fits(g: Graph, flags: Flags) {
    && IsInt64(g.nodeCount) && IsInt64(|g.edges|) && IsInt64(flags.weights) && IsInt64(flags.seed)
    && (flags.weights != 0 <==> g.weights.Some?) && (flags.seed != 0 <==> g.seed.Some?)
    && (g.weights.Some? ==> |g.weights.value| == |g.edges|)
    && (g.seed.Some? ==> |g.seed.value| == g.nodeCount)
  }

  function OrEmpty<T>(o: Option<seq<T>>): seq<T> {
    if o.Some? then o.value else []
  }

  function Trailer(nodeCount: int, edgeCount: int, flags: Flags): seq<Word>
    requires IsInt64(nodeCount) && IsInt64(edgeCount) && IsInt64(flags.weights) && IsInt64(flags.seed)
  {
    [ToWord(nodeCount), ToWord(edgeCount), ToWord(flags.weights), ToWord(flags.seed)]
  }

  function WordsOf(g: Graph, flags: Flags): seq<Word>
    requires Fits(g, flags)
  {
    Body(g.edges, OrEmpty(g.weights), OrEmpty(g.seed)) + Trailer(g.nodeCount, |g.edges|, flags)
  }

  /** The file is edges, weights and seed of g one after another, and a trailer that counts and flags them. */
  ghost predicate IsFileOf(file: seq<Byte>, g: Graph) {
    exists flags :: Fits(g, flags) && file == BytesOf(WordsOf(g, flags))
  }

  /** What a trailer says. */
  datatype Counts = Counts(nodes: int, edges: int, weights: bool, seed: bool)

  function CountsOf(file: seq<Byte>): Counts
    requires |file| >= 32
  {
    var t := FromFile(file, |file| - 32, 4);
    Counts(ToInt(t[0]), ToInt(t[1]), ToInt(t[2]) != 0, ToInt(t[3]) != 0)
  }

  function SizeOf(c: Counts): int {
    16 * c.edges + (if c.weights then 8 * c.edges else 0) + (if c.seed then 24 * c.nodes else 0) + 32
  }

  /**
   No section has a negative count: numpy refuses a negative offset, and after a
   negative seed count finds too little to reshape. A node count without a seed may be negative.
   */
  predicate Readable(c: Counts) {
    c.edges >= 0 && (c.seed ==> c.nodes >= 0)
  }

  /** The file's size is what its trailer declares. */
  predicate Consistent(file: seq<Byte>) {
    |file| >= 32 && Readable(CountsOf(file)) && |file| == SizeOf(CountsOf(file))
  }

  function SeedAt(c: Counts): int {
    16 * c.edges + if c.weights then 8 * c.edges else 0
  }

  /** read_graph: rejects a file whose size is not the one its trailer declares. */
  method ReadGraph(file: seq<Byte>) returns (r: Result<Graph>)
    ensures r.Ok? ==> IsFileOf(file, r.value)
    ensures forall g :: IsFileOf(file, g) ==> r == Ok(g)
  {
    hide BytesOf, WordOf, EdgeWords, SeedWords, Fits, PairsOf, RowsOf, IsFileOf;
    var size := |file|;
    forall g | IsFileOf(file, g) ensures Consistent(file) {
      FileIsConsistent(file, g);
    }
    if size < 32 {
      return Err;
    }
    var counts := CountsOf(file);
    var nodeCount, edgeCount := counts.nodes, counts.edges;
    if size != SizeOf(counts) || !Readable(counts) {
      return Err;
    }
    var edges := PairsOf(FromFile(file, 0, 2 * edgeCount), edgeCount);
    var weights, seed := None, None;
    var offset := 16 * edgeCount;
    if counts.weights {
      weights := Some(FromFile(file, offset, edgeCount));
      offset := offset + 8 * edgeCount;
    }
    if counts.seed {
      seed := Some(RowsOf(FromFile(file, offset, 3 * nodeCount), nodeCount));
    }
    var g := Graph(nodeCount, edges, weights, seed);
    ReadIsFileOf(file, g);
    forall h | IsFileOf(file, h) ensures h == g {
      OneGraphPerFile(file, g, h);
    }
    r := Ok(g);
  }

  /** g is what the sections of a consistent file hold. */
  ghost predicate Holds(file: seq<Byte>, g: Graph)
    requires Consistent(file)
  {
    var c := CountsOf(file);
    && g.nodeCount == c.nodes && g.edges == PairsOf(FromFile(file, 0, 2 * c.edges), c.edges)
    && g.weights == (if c.weights then Some(FromFile(file, 16 * c.edges, c.edges)) else None)
    && g.seed == (if c.seed then Some(RowsOf(FromFile(file, SeedAt(c), 3 * c.nodes), c.nodes)) else None)
  }

  lemma TrailerRead(g: Graph, flags: Flags)
    requires Fits(g, flags)
    ensures
      var file := BytesOf(WordsOf(g, flags));
      && |file| == 8 * (2 * |g.edges| + |OrEmpty(g.weights)| + 3 * |OrEmpty(g.seed)| + 4)
      && FromFile(file, |file| - 32, 4) == Trailer(g.nodeCount, |g.edges|, flags)
  {
    hide BytesOf, FromFile;
    var words := WordsOf(g, flags);
    ReadsWritten(words, |words| - 4, 4);
    assert words[|words| - 4..|words| - 4 + 4] == Trailer(g.nodeCount, |g.edges|, flags);
    assert 8 * (|words| - 4) == |BytesOf(words)| - 32;
  }

  lemma TrailerMeans(file: seq<Byte>, n: int, m: int, flags: Flags)
    requires |file| >= 32 && IsInt64(n) && IsInt64(m) && IsInt64(flags.weights) && IsInt64(flags.seed)
    requires FromFile(file, |file| - 32, 4) == Trailer(n, m, flags)
    ensures CountsOf(file) == Counts(n, m, flags.weights != 0, flags.seed != 0)
  {
    hide FromFile, ToWord, ToInt;
    IntRoundTrip(n);
    IntRoundTrip(m);
    IntRoundTrip(flags.weights);
    IntRoundTrip(flags.seed);
  }

  lemma CountsRead(g: Graph, flags: Flags)
    requires Fits(g, flags)
    ensures
      var file := BytesOf(WordsOf(g, flags));
      Consistent(file) && CountsOf(file) == Counts(g.nodeCount, |g.edges|, g.weights.Some?, g.seed.Some?)
  {
    TrailerRead(g, flags);
    var file := BytesOf(WordsOf(g, flags));
    hide BytesOf, FromFile, WordsOf, CountsOf, Trailer;
    TrailerMeans(file, g.nodeCount, |g.edges|, flags);
  }

  lemma EdgesRead(g: Graph, flags: Flags)
    requires Fits(g, flags)
    ensures
      var file, m := BytesOf(WordsOf(g, flags)), |g.edges|;
      16 * m <= |file| && PairsOf(FromFile(file, 0, 2 * m), m) == g.edges
  {
    hide BytesOf, FromFile, EdgeWords, PairsOf;
    ReadsWritten(WordsOf(g, flags), 0, 2 * |g.edges|);
    assert WordsOf(g, flags)[0..2 * |g.edges|] == EdgeWords(g.edges);
    PairsBack(g.edges);
  }

  lemma WeightsRead(g: Graph, flags: Flags)
    requires Fits(g, flags) && g.weights.Some?
    ensures
      var file, m := BytesOf(WordsOf(g, flags)), |g.edges|;
      24 * m <= |file| && FromFile(file, 16 * m, m) == g.weights.value
  {
    hide BytesOf, FromFile, EdgeWords;
    var m := |g.edges|;
    ReadsWritten(WordsOf(g, flags), 2 * m, m);
    assert WordsOf(g, flags)[2 * m..2 * m + m] == g.weights.value;
  }

  lemma SeedRead(g: Graph, flags: Flags)
    requires Fits(g, flags) && g.seed.Some?
    ensures
      var file, m, n := BytesOf(WordsOf(g, flags)), |g.edges|, g.nodeCount;
      var at := 16 * m + if g.weights.Some? then 8 * m else 0;
      at + 24 * n <= |file| && RowsOf(FromFile(file, at, 3 * n), n) == g.seed.value
  {
    hide BytesOf, FromFile, EdgeWords, SeedWords, RowsOf;
    var start := 2 * |g.edges| + |OrEmpty(g.weights)|;
    ReadsWritten(WordsOf(g, flags), start, 3 * g.nodeCount);
    assert WordsOf(g, flags)[start..start + 3 * g.nodeCount] == SeedWords(g.seed.value);
    RowsBack(g.seed.value);
  }

  lemma FileIsConsistent(file: seq<Byte>, g: Graph)
    requires IsFileOf(file, g)
    ensures Consistent(file) && Holds(file, g)
  {
    hide BytesOf, FromFile, WordsOf, PairsOf, RowsOf, CountsOf, EdgeWords, SeedWords;
    var flags :| Fits(g, flags) && file == BytesOf(WordsOf(g, flags));
    CountsRead(g, flags);
    EdgesRead(g, flags);
    if g.weights.Some? {
      WeightsRead(g, flags);
    }
    if g.seed.Some? {
      SeedRead(g, flags);
    }
    hide Fits;
  }

  lemma OneGraphPerFile(file: seq<Byte>, g: Graph, h: Graph)
    requires IsFileOf(file, g) && IsFileOf(file, h)
    ensures g == h
  {
    FileIsConsistent(file, g);
    FileIsConsistent(file, h);
  }

  lemma SliceRead(file: seq<Byte>, count: nat, start: nat, n: nat)
    requires |file| == 8 * count && start + n <= count
    ensures FromFile(file, 8 * start, n) == FromFile(file, 0, count)[start..start + n]
  {
    var words := FromFile(file, 0, count);
    WritesRead(file, count);
    ReadsWritten(words, start, n);
  }

  lemma ReadIsFileOf(file: seq<Byte>, g: Graph)
    requires Consistent(file) && Holds(file, g)
    ensures IsFileOf(file, g)
  {
    hide BytesOf, FromFile, EdgeWords, SeedWords, PairsOf, RowsOf;
    var t := FromFile(file, |file| - 32, 4);
    var flags := Flags(ToInt(t[2]), ToInt(t[3]));
    assert Fits(g, flags) && Trailer(g.nodeCount, |g.edges|, flags) == t;
    SectionsRead(file, g);
    hide CountsOf, Fits, Trailer;
    assert WordsOf(g, flags) == FromFile(file, 0, |file| / 8);
    WritesRead(file, |file| / 8);
  }

  lemma SectionsRead(file: seq<Byte>, g: Graph)
    requires Consistent(file) && Holds(file, g)
    ensures |file| % 8 == 0
    ensures Body(g.edges, OrEmpty(g.weights), OrEmpty(g.seed)) + FromFile(file, |file| - 32, 4) == FromFile(file, 0, |file| / 8)
  {
    hide FromFile, EdgeWords, SeedWords, PairsOf, RowsOf, CountsOf;
    var c := CountsOf(file);
    var w := if c.weights then c.edges else 0;
    var s := if c.seed then 3 * c.nodes else 0;
    SlicesRead(file, 2 * c.edges, w, s);
    PairsForth(FromFile(file, 0, 2 * c.edges), c.edges);
    assert OrEmpty(g.weights) == FromFile(file, 16 * c.edges, w) by {
      NoneRead(file, 16 * c.edges);
    }
    assert SeedWords(OrEmpty(g.seed)) == FromFile(file, SeedAt(c), s) by {
      NoneRead(file, SeedAt(c));
      if c.seed {
        RowsForth(FromFile(file, SeedAt(c), 3 * c.nodes), c.nodes);
      }
    }
  }

  lemma NoneRead(file: seq<Byte>, at: nat)
    requires at <= |file|
    ensures FromFile(file, at, 0) == []
  {
  }

  lemma SlicesRead(file: seq<Byte>, m: nat, w: nat, s: nat)
    requires |file| == 8 * (m + w + s + 4)
    ensures FromFile(file, 0, m) + FromFile(file, 8 * m, w) + FromFile(file, 8 * (m + w), s) + FromFile(file, |file| - 32, 4)
      == FromFile(file, 0, |file| / 8)
  {
    hide FromFile;
    var count := m + w + s + 4;
    SliceRead(file, count, 0, m);
    SliceRead(file, count, m, w);
    SliceRead(file, count, m + w, s);
    SliceRead(file, count, count - 4, 4);
    assert |file| / 8 == count && |file| - 32 == 8 * (count - 4);
    var words := FromFile(file, 0, count);
    assert words[count - 4..count - 4 + 4] == words[m + w + s..];
    Joined(words, m, w, s);
  }

  lemma Joined(words: seq<Word>, m: nat, w: nat, s: nat)
    requires m + w + s <= |words|
    ensures words[0..m] + words[m..m + w] + words[m + w..m + w + s] + words[m + w + s..] == words
  {
  }

  /** _read_coords: the worker's answer, layout.tofile, if it has three numbers for every node. */
  method ReadCoords(file: seq<Byte>, nodeCount: nat) returns (r: Option<seq<Row>>)
    ensures r.Some? <==> |file| / 8 == 3 * nodeCount
    ensures forall rows :: |rows| == nodeCount && file == BytesOf(SeedWords(rows)) ==> r == Some(rows)
  {
    hide BytesOf, FromFile, SeedWords, RowsOf;
    if |file| / 8 != 3 * nodeCount {
      return None;
    }
    var flat := FromFile(file, 0, 3 * nodeCount);
    forall rows | |rows| == nodeCount && file == BytesOf(SeedWords(rows)) ensures RowsOf(flat, nodeCount) == rows {
      ReadsWritten(SeedWords(rows), 0, 3 * nodeCount);
      assert SeedWords(rows)[0..3 * nodeCount] == SeedWords(rows);
      RowsBack(rows);
    }
    r := Some(RowsOf(flat, nodeCount));
  }

  // --- The writer ------------------------------------------------------------------------

  datatype Phase = Edges | Weights | Seed | Done

  function Flag(b: bool): int {
    if b then 1 else 0
  }

  function SomeUnlessEmpty<T>(s: seq<T>): Option<seq<T>> {
    if s == [] then None else Some(s)
  }

  /** The words of a finished file. */
  function Finished(edges: seq<Pair>, weights: seq<Word>, seed: seq<Row>, nodeCount: int): seq<Word>
    requires IsInt64(nodeCount) && IsInt64(|edges|)
  {
    Body(edges, weights, seed) + Trailer(nodeCount, |edges|, Flags(Flag(weights != []), Flag(seed != [])))
  }

  lemma MoreEdges(edges: seq<Pair>, pairs: seq<Pair>)
    ensures BytesOf(Body(edges + pairs, [], [])) == BytesOf(Body(edges, [], [])) + BytesOf(EdgeWords(pairs))
  {
    EdgeWordsOfBoth(edges, pairs);
    BytesOfBoth(EdgeWords(edges), EdgeWords(pairs));
    BodyOfEdges(edges);
    BodyOfEdges(edges + pairs);
  }

  lemma BodyOfEdges(edges: seq<Pair>)
    ensures Body(edges, [], []) == EdgeWords(edges)
  {
    hide EdgeWords;
    assert SeedWords([]) == [];
  }

  lemma MoreWeights(edges: seq<Pair>, weights: seq<Word>, values: seq<Word>)
    ensures BytesOf(Body(edges, weights + values, [])) == BytesOf(Body(edges, weights, [])) + BytesOf(values)
  {
    hide BytesOf, EdgeWords;
    assert SeedWords([]) == [];
    BytesOfBoth(Body(edges, weights, []), values);
    assert Body(edges, weights + values, []) == Body(edges, weights, []) + values;
  }

  lemma MoreSeed(edges: seq<Pair>, weights: seq<Word>, seed: seq<Row>, rows: seq<Row>)
    ensures BytesOf(Body(edges, weights, seed + rows)) == BytesOf(Body(edges, weights, seed)) + BytesOf(SeedWords(rows))
  {
    SeedWordsOfBoth(seed, rows);
    hide BytesOf, EdgeWords, SeedWords;
    BytesOfBoth(Body(edges, weights, seed), SeedWords(rows));
    assert Body(edges, weights, seed + rows) == Body(edges, weights, seed) + SeedWords(rows);
  }

  class GraphFileWriter {
    var file: seq<Byte>
    var phase: Phase
    var edgeCount: nat
    var weightCount: nat
    var hasWeights: bool
    var hasSeed: bool
    ghost var edges: seq<Pair>
    ghost var weights: seq<Word>
    ghost var seed: seq<Row>

    ghost predicate Valid()
      reads this
    {
      && edgeCount == |edges| && weightCount == |weights| && hasWeights == (weights != []) && hasSeed == (seed != [])
      && (phase.Edges? ==> weights == []) && (phase.Edges? || phase.Weights? ==> seed == [])
      && (!phase.Done? ==> file == BytesOf(Body(edges, weights, seed)))
    }

    constructor ()
      ensures Valid() && phase.Edges? && edges == [] && weights == [] && seed == []
    {
      file, phase := [], Edges;
      edgeCount, weightCount, hasWeights, hasSeed := 0, 0, false, false;
      edges, weights, seed := [], [], [];
    }

    /** Every edge batch must come before the first weight batch. */
    method WriteEdges(pairs: seq<Pair>) returns (ok: bool)
      requires Valid()
      modifies this
      ensures Valid() && ok == old(phase).Edges? && phase == old(phase)
      ensures edges == (if ok then old(edges) + pairs else old(edges)) && weights == old(weights) && seed == old(seed)
      ensures !ok ==> file == old(file)
    {
      hide BytesOf, Body, EdgeWords, SeedWords;
      if !phase.Edges? {
        return false;
      }
      if pairs != [] {
        MoreEdges(edges, pairs);
        file := file + BytesOf(EdgeWords(pairs));
        edgeCount := edgeCount + |pairs|;
        edges := edges + pairs;
      }
      ok := true;
    }

    /** Even an empty batch ends the edge phase. */
    method WriteWeights(values: seq<Word>) returns (ok: bool)
      requires Valid()
      modifies this
      ensures Valid() && ok == (old(phase).Edges? || old(phase).Weights?) && phase == (if ok then Weights else old(phase))
      ensures weights == (if ok then old(weights) + values else old(weights)) && edges == old(edges) && seed == old(seed)
      ensures !ok ==> file == old(file)
    {
      hide BytesOf, Body, EdgeWords, SeedWords;
      if phase.Seed? || phase.Done? {
        return false;
      }
      if values != [] {
        MoreWeights(edges, weights, values);
        file := file + BytesOf(values);
        weightCount := weightCount + |values|;
        hasWeights := true;
        weights := weights + values;
      }
      phase := Weights;
      ok := true;
    }

    /** A second seed is taken too, and appended. */
    method WriteSeed(rows: Option<seq<Row>>) returns (ok: bool)
      requires Valid()
      modifies this
      ensures Valid() && ok == !old(phase).Done? && phase == (if ok then Seed else old(phase))
      ensures seed == (if ok then old(seed) + OrEmpty(rows) else old(seed)) && edges == old(edges) && weights == old(weights)
      ensures !ok ==> file == old(file)
    {
      hide BytesOf, Body, EdgeWords, SeedWords;
      if phase.Done? {
        return false;
      }
      if rows.Some? && rows.value != [] {
        MoreSeed(edges, weights, seed, rows.value);
        file := file + BytesOf(SeedWords(rows.value));
        hasSeed := true;
        seed := seed + rows.value;
      }
      phase := Seed;
      ok := true;
    }

    /** Fails when weights were written but not one for each edge, or when the file is closed already. */
    method Finish(nodeCount: int) returns (r: Result<nat>)
      requires Valid() && IsInt64(nodeCount) && IsInt64(edgeCount)
      modifies this
      ensures Valid() && edges == old(edges) && weights == old(weights) && seed == old(seed)
      ensures r.Ok? <==> !old(phase).Done? && (weights == [] || |weights| == |edges|)
      ensures r.Ok? ==> phase.Done? && r.value == |edges| && file == BytesOf(Finished(edges, weights, seed, nodeCount))
      ensures r.Err? ==> phase == old(phase) && file == old(file)
    {
      hide BytesOf, Body, EdgeWords, SeedWords;
      if (hasWeights && weightCount != edgeCount) || phase.Done? {
        return Err;
      }
      var trailer := Trailer(nodeCount, edgeCount, Flags(Flag(hasWeights), Flag(hasSeed)));
      BytesOfBoth(Body(edges, weights, seed), trailer);
      file := file + BytesOf(trailer);
      phase := Done;
      r := Ok(edgeCount);
    }
  }

  // --- The round trip ------------------------------------------------------------------------

  function Written(edges: seq<Pair>, weights: seq<Word>, seed: seq<Row>, nodeCount: int): Graph {
    Graph(nodeCount, edges, SomeUnlessEmpty(weights), SomeUnlessEmpty(seed))
  }

  /** A finished file is the file of the graph written, if and only if its seed has a row for every node. */
  lemma FinishedIsFileIff(edges: seq<Pair>, weights: seq<Word>, seed: seq<Row>, nodeCount: int)
    requires IsInt64(nodeCount) && IsInt64(|edges|) && (weights == [] || |weights| == |edges|)
    ensures
      var file := BytesOf(Finished(edges, weights, seed, nodeCount));
      if seed == [] || |seed| == nodeCount then IsFileOf(file, Written(edges, weights, seed, nodeCount))
      else forall g :: !IsFileOf(file, g)
  {
    hide BytesOf, EdgeWords, SeedWords, FromFile;
    var file := BytesOf(Finished(edges, weights, seed, nodeCount));
    var g := Written(edges, weights, seed, nodeCount);
    var flags := Flags(Flag(weights != []), Flag(seed != []));
    if seed == [] || |seed| == nodeCount {
      assert Fits(g, flags) && WordsOf(g, flags) == Finished(edges, weights, seed, nodeCount);
    } else {
      forall h ensures !IsFileOf(file, h) {
        if IsFileOf(file, h) {
          FileIsConsistent(file, h);
          FinishedCounts(edges, weights, seed, nodeCount);
        }
      }
    }
  }

  lemma FinishedCounts(edges: seq<Pair>, weights: seq<Word>, seed: seq<Row>, nodeCount: int)
    requires IsInt64(nodeCount) && IsInt64(|edges|)
    ensures
      var file := BytesOf(Finished(edges, weights, seed, nodeCount));
      && |file| == 8 * (2 * |edges| + |weights| + 3 * |seed| + 4)
      && CountsOf(file) == Counts(nodeCount, |edges|, weights != [], seed != [])
  {
    hide BytesOf, FromFile, EdgeWords, SeedWords, CountsOf;
    var words := Finished(edges, weights, seed, nodeCount);
    var flags := Flags(Flag(weights != []), Flag(seed != []));
    ReadsWritten(words, |words| - 4, 4);
    assert words[|words| - 4..|words| - 4 + 4] == Trailer(nodeCount, |edges|, flags);
    TrailerMeans(BytesOf(words), nodeCount, |edges|, flags);
  }

  function Flat<T>(batches: seq<seq<T>>): seq<T> {
    if |batches| == 0 then [] else Flat(batches[..|batches| - 1]) + batches[|batches| - 1]
  }

  /** Edges in any batches, then weights in any batches, then a seed, then the reader: what comes out does not depend on the batches. */
  method WriteAndRead(edgeBatches: seq<seq<Pair>>, weightBatches: seq<seq<Word>>, seed: Option<seq<Row>>, nodeCount: int)
    returns (r: Result<Graph>)
    requires IsInt64(nodeCount) && IsInt64(|Flat(edgeBatches)|)
    ensures
      var edges, weights, rows := Flat(edgeBatches), Flat(weightBatches), OrEmpty(seed);
      r == if (weights == [] || |weights| == |edges|) && (rows == [] || |rows| == nodeCount)
           then Ok(Written(edges, weights, rows, nodeCount)) else Err
  {
    hide BytesOf, IsFileOf;
    var w := new GraphFileWriter();
    var ok;
    for i := 0 to |edgeBatches|
      invariant w.Valid() && w.phase.Edges? && w.edges == Flat(edgeBatches[..i]) && w.weights == [] && w.seed == []
    {
      assert edgeBatches[..i + 1][..i] == edgeBatches[..i];
      ok := w.WriteEdges(edgeBatches[i]);
    }
    assert edgeBatches[..|edgeBatches|] == edgeBatches;
    for i := 0 to |weightBatches|
      invariant w.Valid() && (w.phase.Edges? || w.phase.Weights?)
      invariant w.edges == Flat(edgeBatches) && w.weights == Flat(weightBatches[..i]) && w.seed == []
    {
      assert weightBatches[..i + 1][..i] == weightBatches[..i];
      ok := w.WriteWeights(weightBatches[i]);
    }
    assert weightBatches[..|weightBatches|] == weightBatches;
    ok := w.WriteSeed(seed);
    assert w.seed == OrEmpty(seed);
    var count := w.Finish(nodeCount);
    if count.Err? {
      return Err;
    }
    FinishedIsFileIff(w.edges, w.weights, w.seed, nodeCount);
    r := ReadGraph(w.file);
  }

  // --- Where things lie in the file ---------------------------------------------------------

  function WordAt(file: seq<Byte>, at: nat): Word
    requires at + 8 <= |file|
  {
    WordOf(file[at..at + 8])
  }

  /** Edge by edge, each its source and then its target. */
  ghost predicate EdgesLie(file: seq<Byte>, edges: seq<Pair>) {
    forall i :: 0 <= i < |edges| ==>
      16 * i + 16 <= |file| && ToInt(WordAt(file, 16 * i)) == edges[i].0 && ToInt(WordAt(file, 16 * i + 8)) == edges[i].1
  }

  ghost predicate WeightsLie(file: seq<Byte>, at: nat, weights: seq<Word>) {
    forall i :: 0 <= i < |weights| ==> at + 8 * i + 8 <= |file| && WordAt(file, at + 8 * i) == weights[i]
  }

  /** Row by row, each x, y and z. */
  ghost predicate SeedLies(file: seq<Byte>, at: nat, rows: seq<Row>) {
    forall i :: 0 <= i < |rows| ==>
      && at + 24 * i + 24 <= |file| && WordAt(file, at + 24 * i) == rows[i].0
      && WordAt(file, at + 24 * i + 8) == rows[i].1 && WordAt(file, at + 24 * i + 16) == rows[i].2
  }

  ghost predicate TrailerLies(file: seq<Byte>, g: Graph) {
    && |file| >= 32 && ToInt(WordAt(file, |file| - 32)) == g.nodeCount && ToInt(WordAt(file, |file| - 24)) == |g.edges|
    && (ToInt(WordAt(file, |file| - 16)) != 0 <==> g.weights.Some?) && (ToInt(WordAt(file, |file| - 8)) != 0 <==> g.seed.Some?)
  }

  lemma PlaceRead(words: seq<Word>, k: nat)
    requires k < |words|
    ensures 8 * k + 8 <= |BytesOf(words)| && WordAt(BytesOf(words), 8 * k) == words[k]
  {
    WordRead(words, k);
  }

  lemma EdgesAtFront(g: Graph, flags: Flags)
    requires Fits(g, flags)
    ensures EdgesLie(BytesOf(WordsOf(g, flags)), g.edges)
  {
    hide BytesOf, WordAt, ToWord, ToInt;
    var words := WordsOf(g, flags);
    forall i | 0 <= i < |g.edges|
      ensures
        var file := BytesOf(words);
        16 * i + 16 <= |file| && ToInt(WordAt(file, 16 * i)) == g.edges[i].0 && ToInt(WordAt(file, 16 * i + 8)) == g.edges[i].1
    {
      PlaceRead(words, 2 * i);
      PlaceRead(words, 2 * i + 1);
      assert words[2 * i] == ToWord(g.edges[i].0) && words[2 * i + 1] == ToWord(g.edges[i].1);
      IntRoundTrip(g.edges[i].0);
      IntRoundTrip(g.edges[i].1);
      assert 8 * (2 * i + 1) == 16 * i + 8;
    }
  }

  lemma WeightsNext(g: Graph, flags: Flags)
    requires Fits(g, flags)
    ensures WeightsLie(BytesOf(WordsOf(g, flags)), 16 * |g.edges|, OrEmpty(g.weights))
  {
    hide BytesOf, WordAt, EdgeWords, SeedWords;
    var words, m, weights := WordsOf(g, flags), |g.edges|, OrEmpty(g.weights);
    forall i | 0 <= i < |weights|
      ensures 16 * m + 8 * i + 8 <= |BytesOf(words)| && WordAt(BytesOf(words), 16 * m + 8 * i) == weights[i]
    {
      PlaceRead(words, 2 * m + i);
      assert 8 * (2 * m + i) == 16 * m + 8 * i;
    }
  }

  lemma SeedAfter(g: Graph, flags: Flags)
    requires Fits(g, flags)
    ensures SeedLies(BytesOf(WordsOf(g, flags)), 16 * |g.edges| + 8 * |OrEmpty(g.weights)|, OrEmpty(g.seed))
  {
    hide BytesOf, WordAt, EdgeWords;
    var words, rows := WordsOf(g, flags), OrEmpty(g.seed);
    var start := 2 * |g.edges| + |OrEmpty(g.weights)|;
    var at := 16 * |g.edges| + 8 * |OrEmpty(g.weights)|;
    forall i | 0 <= i < |rows|
      ensures
        var file := BytesOf(words);
        && at + 24 * i + 24 <= |file| && WordAt(file, at + 24 * i) == rows[i].0
        && WordAt(file, at + 24 * i + 8) == rows[i].1 && WordAt(file, at + 24 * i + 16) == rows[i].2
    {
      PlaceRead(words, start + 3 * i);
      PlaceRead(words, start + 3 * i + 1);
      PlaceRead(words, start + 3 * i + 2);
      SeedPlaces(rows, i);
      assert words[start..start + 3 * |rows|] == SeedWords(rows);
      hide SeedWords;
      assert 8 * (start + 3 * i) == at + 24 * i;
    }
  }

  lemma SeedPlaces(rows: seq<Row>, i: nat)
    requires i < |rows|
    ensures SeedWords(rows)[3 * i] == rows[i].0 && SeedWords(rows)[3 * i + 1] == rows[i].1 && SeedWords(rows)[3 * i + 2] == rows[i].2
  {
  }

  lemma TrailerAtEnd(g: Graph, flags: Flags)
    requires Fits(g, flags)
    ensures TrailerLies(BytesOf(WordsOf(g, flags)), g)
  {
    hide BytesOf, WordAt, EdgeWords, SeedWords, ToWord, ToInt;
    var words := WordsOf(g, flags);
    var n := |words|;
    PlaceRead(words, n - 4);
    PlaceRead(words, n - 3);
    PlaceRead(words, n - 2);
    PlaceRead(words, n - 1);
    IntRoundTrip(g.nodeCount);
    IntRoundTrip(|g.edges|);
    IntRoundTrip(flags.weights);
    IntRoundTrip(flags.seed);
  }

  /** The file of a graph: its edges, then its weights, then its seed rows, and in the last four words the counts and what is there. */
  lemma Layout(file: seq<Byte>, g: Graph)
    requires IsFileOf(file, g)
    ensures EdgesLie(file, g.edges)
    ensures WeightsLie(file, 16 * |g.edges|, OrEmpty(g.weights))
    ensures SeedLies(file, 16 * |g.edges| + 8 * |OrEmpty(g.weights)|, OrEmpty(g.seed))
    ensures TrailerLies(file, g)
    ensures |file| == 16 * |g.edges| + 8 * |OrEmpty(g.weights)| + 24 * |OrEmpty(g.seed)| + 32
  {
    var flags :| Fits(g, flags) && file == BytesOf(WordsOf(g, flags));
    hide BytesOf, Fits, EdgesLie, WeightsLie, SeedLies, TrailerLies;
    EdgesAtFront(g, flags);
    WeightsNext(g, flags);
    SeedAfter(g, flags);
    TrailerAtEnd(g, flags);
  }
}
