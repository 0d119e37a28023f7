/** What segmentation promises, stated without the loops that compute it: nothing is lost,
    reordered or rewritten, and chunk sizes stay bounded. */
module Segmentation {
  import opened Common
  import opened Text
  import opened Chunking

  function ChunkTexts(chunks: seq<Chunk>): (r: seq<string>)
    ensures |r| == |chunks|
    ensures forall i :: 0 <= i < |r| ==> r[i] == chunks[i].text
  {
    seq(|chunks|, i requires 0 <= i < |chunks| => chunks[i].text)
  }

  function BlocksOf(units: seq<Unit>): seq<Block> {
    if units == [] then [] else UnitBlocks(units[0]) + BlocksOf(units[1..])
  }

  /** A table of `n` lines becomes this many chunks. */
  function RowChunkCount(n: nat): nat {
    if n <= 2 then 1 else (n - 2 + ROWS_PER_CHUNK - 1) / ROWS_PER_CHUNK
  }

  function BodyStart(i: nat): nat { 2 + 15 * i }

  /** Chunk `i` of a table: the two header lines, then the body rows of its slab. */
  function SlabLines(lines: seq<string>, i: nat): seq<string> {
    lines[..Min(2, |lines|)] + lines[Min(BodyStart(i), |lines|)..Min(BodyStart(i + 1), |lines|)]
  }

  /** The chunks cut from one unit reproduce its content verbatim. */
  ghost predicate FaithfulUnit(u: Unit, cut: seq<Chunk>) {
    match u
    case Run(blocks) =>
      && |cut| == 1
      && cut[0].text == Join(Texts(blocks))
      && cut[0].locator.blockIds == Ids(blocks)
      && cut[0].locator.pages == SortedPages(blocks)
      && cut[0].locator.blocks == Some(Locators(blocks))
      && cut[0].locator.rowStart == None
    case Rows(b) =>
      var lines := SplitLines(b.text);
      |cut| == RowChunkCount(|lines|) && forall i :: 0 <= i < |cut| ==> FaithfulRows(b, lines, i, cut[i])
    case Oversize(b) =>
      && Flatten(ChunkTexts(cut)) == b.text
      && (forall i :: 0 <= i < |cut| ==>
            && cut[i].locator.blockIds == [b.id] && cut[i].locator.pages == [b.page]
            && cut[i].locator.blocks == None
            && cut[i].locator.rowStart == None
            && 0 < |cut[i].text| <= 6000)
      && forall i :: 0 <= i < |cut| - 1 ==> |cut[i].text| + |cut[i + 1].text| > 6000
  }

  ghost predicate FaithfulRows(b: Block, lines: seq<string>, i: nat, cut: Chunk) {
    && cut.text == Join(SlabLines(lines, i))
    && cut.locator.blockIds == [b.id] && cut.locator.pages == [b.page] && cut.locator.blocks == Some([b.locator])
    && cut.locator.rowStart == Some(2 + 15 * i)
  }

  /** When blocks share a chunk, and when they may not. */
  ghost predicate SizedUnit(u: Unit) {
    match u
    case Run(blocks) =>
      && blocks != []
      && (forall i :: 0 <= i < |blocks| ==> blocks[i].kind != Table && |blocks[i].text| <= 6000)
      && (TotalLength(Texts(blocks)) <= 3500 || |blocks| == 1)
    case Rows(b) => b.kind == Table
    case Oversize(b) => b.kind != Table && |b.text| > 6000
  }

  /** A run ends before a table, before an oversize block, or where one more block would not fit. */
  ghost predicate Maximal(units: seq<Unit>) {
    forall u :: 0 <= u < |units| - 1 && units[u].Run? && units[u + 1].Run? ==>
      units[u + 1].blocks != [] && TotalLength(Texts(units[u].blocks)) + |units[u + 1].blocks[0].text| > 3500
  }

  /** The chunks of a group, read in order, are the group's blocks in order. */
  ghost predicate FaithfulGroup(group: seq<Block>, chunks: seq<Chunk>)
    requires group != []
  {
    && (exists units: seq<Unit>, cuts: seq<seq<Chunk>> :: FaithfulCuts(group, chunks, units, cuts))
    && forall i :: 0 <= i < |chunks| ==>
         && chunks[i].parentText == Join(Texts(group))
         && chunks[i].locator.heading == (if group[0].kind == Heading then group[0].text else "")
         && chunks[i].locator.parent == Some(ParentLocator(Ids(group), SortedPages(group), Locators(group)))
  }

  ghost predicate FaithfulCuts(group: seq<Block>, chunks: seq<Chunk>, units: seq<Unit>, cuts: seq<seq<Chunk>>) {
    && |cuts| == |units|
    && BlocksOf(units) == group
    && Flatten(cuts) == chunks
    && AllSized(units) && Maximal(units)
    && (forall u :: 0 <= u < |units| ==> FaithfulUnit(units[u], cuts[u]))
  }

  // ---------------------------------------------------------------- buffered runs

  lemma {:induction false} BlocksOfAppend(a: seq<Unit>, b: seq<Unit>)
    ensures BlocksOf(a + b) == BlocksOf(a) + BlocksOf(b)
  {
    if a == [] {
      assert a + b == b;
    } else {
      BlocksOfAppend(a[1..], b);
      assert (a + b)[1..] == a[1..] + b;
      Associative(UnitBlocks(a[0]), BlocksOf(a[1..]), BlocksOf(b));
    }
  }

  lemma TextsAppend(a: seq<Block>, b: Block)
    ensures TotalLength(Texts(a + [b])) == TotalLength(Texts(a)) + |b.text|
  {
    assert Texts(a + [b]) == Texts(a) + [b.text];
    TotalLengthAppend(Texts(a), [b.text]);
    assert TotalLength([b.text]) == |b.text| + TotalLength([]);
  }

  ghost predicate AllSized(units: seq<Unit>) {
    forall u :: u in units ==> SizedUnit(u)
  }

  lemma FlushFacts(buffer: seq<Block>)
    requires buffer != [] ==> SizedUnit(Run(buffer))
    ensures BlocksOf(Flush(buffer)) == buffer
    ensures AllSized(Flush(buffer))
  {
    if buffer != [] {
      assert BlocksOf([Run(buffer)]) == buffer + BlocksOf([]);
    }
  }

  lemma FlushThen(buffer: seq<Block>, u: Unit)
    requires buffer != [] ==> SizedUnit(Run(buffer))
    requires SizedUnit(u)
    ensures BlocksOf(Flush(buffer) + [u]) == buffer + UnitBlocks(u)
    ensures AllSized(Flush(buffer) + [u])
  {
    FlushFacts(buffer);
    BlocksOfAppend(Flush(buffer), [u]);
    assert BlocksOf([u]) == UnitBlocks(u) + BlocksOf([]);
  }

  lemma TakeBlockFacts(buffer: seq<Block>, b: Block)
    requires buffer != [] ==> SizedUnit(Run(buffer))
    ensures var (units, rest) := TakeBlock(buffer, b);
            && BlocksOf(units) + rest == buffer + [b]
            && AllSized(units)
            && (rest != [] ==> SizedUnit(Run(rest)))
  {
    if b.kind == Table {
      FlushThen(buffer, Rows(b));
    } else if |b.text| > PART_LIMIT {
      FlushThen(buffer, Oversize(b));
    } else if TotalLength(Texts(buffer)) + |b.text| > BUFFER_LIMIT {
      FlushFacts(buffer);
      assert SizedUnit(Run([b]));
    } else {
      TextsAppend(buffer, b);
      assert SizedUnit(Run(buffer + [b]));
    }
  }

  lemma {:induction false} UnitsBegin(rest: seq<Block>, buffer: seq<Block>)
    requires buffer != []
    ensures var units := UnitsFrom(rest, buffer);
            units != [] && units[0].Run? && units[0].blocks != [] && units[0].blocks[0] == buffer[0]
    decreases |rest|
  {
    if rest != [] && TakeBlock(buffer, rest[0]).0 == [] {
      UnitsBegin(rest[1..], buffer + [rest[0]]);
    }
  }

  lemma {:induction false} UnitsMaximal(rest: seq<Block>, buffer: seq<Block>)
    ensures Maximal(UnitsFrom(rest, buffer))
    decreases |rest|
  {
    if rest != [] {
      var (units, open) := TakeBlock(buffer, rest[0]);
      UnitsMaximal(rest[1..], open);
      if open != [] {
        UnitsBegin(rest[1..], open);
      }
    }
  }

  /** Cutting a group into units keeps every block, once and in order. */
  lemma {:induction false} UnitsPartition(rest: seq<Block>, buffer: seq<Block>)
    requires buffer != [] ==> SizedUnit(Run(buffer))
    ensures BlocksOf(UnitsFrom(rest, buffer)) == buffer + rest
    ensures AllSized(UnitsFrom(rest, buffer))
    decreases |rest|
  {
    if rest == [] {
      FlushFacts(buffer);
    } else {
      var step := TakeBlock(buffer, rest[0]);
      TakeBlockFacts(buffer, rest[0]);
      UnitsPartition(rest[1..], step.1);
      PrependUnits(step.0, UnitsFrom(rest[1..], step.1), step.1, buffer, rest);
    }
  }

  lemma {:induction false} PrependUnits(units: seq<Unit>, tail: seq<Unit>, open: seq<Block>, buffer: seq<Block>,
                                        rest: seq<Block>)
    requires rest != [] && AllSized(units) && AllSized(tail)
    requires BlocksOf(units) + open == buffer + [rest[0]] && BlocksOf(tail) == open + rest[1..]
    ensures BlocksOf(units + tail) == buffer + rest
    ensures AllSized(units + tail)
  {
    BlocksOfAppend(units, tail);
    Regroup(BlocksOf(units), open, buffer, rest);
  }

  lemma Regroup<T>(done: seq<T>, open: seq<T>, buffer: seq<T>, rest: seq<T>)
    requires rest != [] && done + open == buffer + [rest[0]]
    ensures done + (open + rest[1..]) == buffer + rest
  {
    assert done + (open + rest[1..]) == (done + open) + rest[1..];
    assert (buffer + [rest[0]]) + rest[1..] == buffer + ([rest[0]] + rest[1..]);
    assert [rest[0]] + rest[1..] == rest;
  }

  // ---------------------------------------------------------------- tables

  lemma {:induction false} RowChunksExact(b: Block, lines: seq<string>, k: nat, ctx: Context)
    requires BodyStart(k) < Max(3, |lines|)
    ensures var cut := RowChunksFrom(b, lines, BodyStart(k), ctx);
            && |cut| == RowChunkCount(|lines|) - k
            && forall i :: 0 <= i < |cut| ==> cut[i] == RowChunk(b, lines, BodyStart(k + i), ctx)
    decreases |lines| - k
  {
    var cut := RowChunksFrom(b, lines, BodyStart(k), ctx);
    assert BodyStart(k) + ROWS_PER_CHUNK == BodyStart(k + 1);
    if BodyStart(k + 1) < Max(3, |lines|) {
      RowChunksExact(b, lines, k + 1, ctx);
      var tail := RowChunksFrom(b, lines, BodyStart(k + 1), ctx);
      assert cut == [RowChunk(b, lines, BodyStart(k), ctx)] + tail;
      forall i | 0 <= i < |cut| ensures cut[i] == RowChunk(b, lines, BodyStart(k + i), ctx) {
        if i > 0 {
          assert cut[i] == tail[i - 1];
        }
      }
    } else {
      assert RowChunksFrom(b, lines, BodyStart(k + 1), ctx) == [];
      assert cut == [RowChunk(b, lines, BodyStart(k), ctx)];
    }
  }

  /** Every body row lies in the slab of exactly one chunk of its table. */
  lemma RowInOneChunk(lines: seq<string>, r: nat)
    requires 2 <= r < |lines|
    ensures var i := (r - 2) / ROWS_PER_CHUNK;
            && i < RowChunkCount(|lines|)
            && BodyStart(i) <= r < BodyStart(i + 1)
            && SlabLines(lines, i)[2 + (r - BodyStart(i))] == lines[r]
            && forall j: nat :: BodyStart(j) <= r < BodyStart(j + 1) ==> j == i
  {
    var i := (r - 2) / ROWS_PER_CHUNK;
    assert BodyStart(i) <= r < BodyStart(i + 1);
    forall j: nat | BodyStart(j) <= r < BodyStart(j + 1) ensures j == i {
      assert ROWS_PER_CHUNK * j <= r - 2 < ROWS_PER_CHUNK * (j + 1);
    }
  }

  lemma SlabBreakFree(lines: seq<string>, i: nat)
    requires forall k :: 0 <= k < |lines| ==> BreakFree(lines[k])
    ensures forall k :: 0 <= k < |SlabLines(lines, i)| ==> BreakFree(SlabLines(lines, i)[k])
  {
    var head := lines[..Min(2, |lines|)];
    var body := lines[Min(BodyStart(i), |lines|)..Min(BodyStart(i + 1), |lines|)];
    assert forall k :: 0 <= k < |body| ==> body[k] == lines[Min(BodyStart(i), |lines|) + k];
  }

  lemma RowChunkText(b: Block, lines: seq<string>, i: nat, ctx: Context)
    ensures RowChunk(b, lines, BodyStart(i), ctx).text == Join(SlabLines(lines, i))
  {
    assert BodyStart(i) + ROWS_PER_CHUNK == BodyStart(i + 1);
  }

  /** A table chunk, split into lines again, is its header and rows; only an empty last row is lost. */
  lemma RowChunkReadsBack(b: Block, i: nat, ctx: Context)
    requires i < RowChunkCount(|SplitLines(b.text)|)
    ensures var slab := SlabLines(SplitLines(b.text), i);
            SplitLines(RowChunk(b, SplitLines(b.text), BodyStart(i), ctx).text) == Kept(slab)
  {
    var lines := SplitLines(b.text);
    var slab := SlabLines(lines, i);
    SlabBreakFree(lines, i);
    SplitJoin(slab);
    RowChunkText(b, lines, i, ctx);
  }

  // ---------------------------------------------------------------- oversize blocks

  ghost predicate GoodParts(parts: seq<string>) {
    forall i :: 0 <= i < |parts| ==> 0 < |parts[i]| <= 6000
  }

  /** No two neighbours would fit into one part. */
  ghost predicate NoTwoFit(parts: seq<string>) {
    forall i :: 0 <= i < |parts| - 1 ==> |parts[i]| + |parts[i + 1]| > 6000
  }

  lemma {:induction false} FragmentsConcat(sentence: string, offset: nat, part: string)
    requires |part| <= PART_LIMIT && offset <= |sentence|
    ensures var (done, open) := FragmentsFrom(sentence, offset, part);
            && Flatten(done) + open == part + sentence[offset..]
            && GoodParts(done) && |open| <= PART_LIMIT
            && (sentence[offset..] != "" ==> open != "")
    decreases |sentence| - offset
  {
    if offset < |sentence| {
      var next := Min(offset + PART_LIMIT, |sentence|);
      var fragment := sentence[offset..next];
      assert sentence[offset..] == fragment + sentence[next..];
      if next == |sentence| {
        assert forall p :: FragmentsFrom(sentence, offset + PART_LIMIT, p) == ([], p);
      } else {
        FragmentsConcat(sentence, next, if |part| + |fragment| > PART_LIMIT then fragment else part + fragment);
      }
      if |part| + |fragment| > PART_LIMIT {
        var (done, open) := FragmentsFrom(sentence, offset + PART_LIMIT, fragment);
        assert Flatten([part] + done) == part + Flatten(done);
        assert Flatten(done) + open == fragment + sentence[next..];
      } else {
        assert (part + fragment) + sentence[next..] == part + sentence[offset..];
      }
    }
  }

  lemma TakeSentenceConcat(part: string, sentence: string)
    requires |part| <= PART_LIMIT
    ensures var (done, open) := TakeSentence(part, sentence);
            && Flatten(done) + open == part + sentence
            && GoodParts(done) && |open| <= PART_LIMIT
            && (part + sentence != "" ==> open != "")
  {
    assert sentence[0..] == sentence;
    if |part| + |sentence| > PART_LIMIT && part != "" {
      FragmentsConcat(sentence, 0, "");
      var (done, open) := FragmentsFrom(sentence, 0, "");
      assert Flatten([part] + done) == part + Flatten(done);
      assert (part + Flatten(done)) + open == part + (Flatten(done) + open);
      assert "" + sentence == sentence;
    } else {
      FragmentsConcat(sentence, 0, part);
    }
  }

  lemma {:induction false} PartsConcat(sentences: seq<string>, part: string)
    requires |part| <= PART_LIMIT
    ensures Flatten(PartsFrom(sentences, part)) == part + Flatten(sentences)
    ensures GoodParts(PartsFrom(sentences, part))
    decreases |sentences|
  {
    if sentences == [] {
      if part != "" {
        assert Flatten([part]) == part + Flatten([]);
      }
    } else {
      var (done, open) := TakeSentence(part, sentences[0]);
      TakeSentenceConcat(part, sentences[0]);
      PartsConcat(sentences[1..], open);
      FlattenAppend(done, PartsFrom(sentences[1..], open));
      Reassociate(Flatten(done), open, part, sentences[0], Flatten(sentences[1..]));
    }
  }

  lemma Reassociate(done: string, open: string, part: string, s: string, rest: string)
    requires done + open == part + s
    ensures done + (open + rest) == part + (s + rest)
  {
    assert done + (open + rest) == (done + open) + rest;
    assert part + (s + rest) == (part + s) + rest;
  }

  /** The parts of an oversize block are its text, cut into non-empty pieces of bounded size. */
  lemma PartsExact(text: string)
    ensures Flatten(Parts(text)) == text
    ensures GoodParts(Parts(text)) && NoTwoFit(Parts(text))
  {
    SentencesConcat(text);
    PartsConcat(SplitSentences(text), "");
    PartsFull(SplitSentences(text), "");
  }

  /** What is emitted first begins with the part that was open. */
  ghost predicate Begins(done: seq<string>, open: string, part: string) {
    if done == [] then part <= open else part <= done[0]
  }

  lemma {:induction false} FragmentsBegin(sentence: string, offset: nat, part: string)
    ensures var (done, open) := FragmentsFrom(sentence, offset, part); Begins(done, open, part)
    decreases |sentence| - offset
  {
    if offset < |sentence| {
      var fragment := sentence[offset..Min(offset + PART_LIMIT, |sentence|)];
      if |part| + |fragment| <= PART_LIMIT {
        FragmentsBegin(sentence, offset + PART_LIMIT, part + fragment);
      }
    }
  }

  lemma {:induction false} PartsBegin(sentences: seq<string>, part: string)
    requires part != ""
    ensures PartsFrom(sentences, part) != [] && part <= PartsFrom(sentences, part)[0]
    decreases |sentences|
  {
    if sentences != [] {
      var (done, open) := TakeSentence(part, sentences[0]);
      FragmentsBegin(sentences[0], 0, part);
      if done == [] {
        assert Begins(done, open, part);
        PartsBegin(sentences[1..], open);
      }
    }
  }

  lemma {:induction false} FragmentsFull(sentence: string, offset: nat, part: string)
    ensures var (done, open) := FragmentsFrom(sentence, offset, part); NoTwoFit(done + [open])
    decreases |sentence| - offset
  {
    if offset < |sentence| {
      var fragment := sentence[offset..Min(offset + PART_LIMIT, |sentence|)];
      if |part| + |fragment| > PART_LIMIT {
        FragmentsFull(sentence, offset + PART_LIMIT, fragment);
        FragmentsBegin(sentence, offset + PART_LIMIT, fragment);
        var (done, open) := FragmentsFrom(sentence, offset + PART_LIMIT, fragment);
        NoTwoFitPrepend(part, done, open);
      } else {
        FragmentsFull(sentence, offset + PART_LIMIT, part + fragment);
      }
    }
  }

  lemma NoTwoFitPrepend(part: string, done: seq<string>, open: string)
    requires NoTwoFit(done + [open])
    requires |part| + |(done + [open])[0]| > 6000
    ensures NoTwoFit([part] + done + [open])
  {
    var all, later := [part] + done + [open], done + [open];
    assert forall i :: 0 < i < |all| ==> all[i] == later[i - 1];
  }

  lemma TakeFull(part: string, sentence: string)
    requires |part| <= PART_LIMIT
    ensures var (done, open) := TakeSentence(part, sentence); NoTwoFit(done + [open])
  {
    if |part| + |sentence| > PART_LIMIT && part != "" {
      var (done, open) := FragmentsFrom(sentence, 0, "");
      FragmentsFull(sentence, 0, "");
      FirstPiece(sentence);
      NoTwoFitPrepend(part, done, open);
    } else {
      FragmentsFull(sentence, 0, part);
    }
  }

  /** From an empty part on, the first thing emitted is the sentence, or a full part of it. */
  lemma {:induction false} FirstPiece(sentence: string)
    ensures var (done, open) := FragmentsFrom(sentence, 0, ""); |(done + [open])[0]| >= Min(|sentence|, PART_LIMIT)
  {
    if sentence != "" {
      var fragment := sentence[0..Min(PART_LIMIT, |sentence|)];
      assert "" + fragment == fragment;
      FragmentsBegin(sentence, PART_LIMIT, fragment);
    }
  }

  lemma {:induction false} PartsFull(sentences: seq<string>, part: string)
    requires |part| <= PART_LIMIT
    ensures NoTwoFit(PartsFrom(sentences, part))
    decreases |sentences|
  {
    if sentences != [] {
      var (done, open) := TakeSentence(part, sentences[0]);
      var rest := PartsFrom(sentences[1..], open);
      TakeSentenceConcat(part, sentences[0]);
      TakeFull(part, sentences[0]);
      PartsFull(sentences[1..], open);
      if open == "" {
        assert done == [];
        assert done + rest == rest;
      } else {
        PartsBegin(sentences[1..], open);
        NoTwoFitJoin(done, open, rest);
      }
    }
  }

  lemma NoTwoFitJoin(done: seq<string>, open: string, rest: seq<string>)
    requires NoTwoFit(done + [open]) && NoTwoFit(rest) && rest != [] && open <= rest[0]
    ensures NoTwoFit(done + rest)
  {
    var all, front := done + rest, done + [open];
    forall i | 0 <= i < |all| - 1 ensures |all[i]| + |all[i + 1]| > 6000 {
      if i < |done| {
        assert front[i] == all[i] && |front[i + 1]| <= |all[i + 1]|;
      } else {
        assert all[i] == rest[i - |done|] && all[i + 1] == rest[i - |done| + 1];
      }
    }
  }

  /** One step of the sentence loop: the part is flushed, or it grows. */
  lemma {:induction false} SentenceTaken(s: string, open: seq<string>)
    requires |s| <= PART_LIMIT && |Flatten(open)| <= PART_LIMIT
    ensures Flatten([s]) == s && Flatten(open + [s]) == Flatten(open) + s
    ensures TakeSentence(Flatten(open), s) ==
            if |Flatten(open)| + |s| > PART_LIMIT && Flatten(open) != "" then ([Flatten(open)], s)
            else ([], Flatten(open) + s)
  {
    var part := Flatten(open);
    FlattenAppend(open, [s]);
    assert Flatten([s]) == s + Flatten([]) && s + "" == s;
    if |part| + |s| > PART_LIMIT && part != "" {
      WholeFragment(s, "");
      assert [part] + [] == [part] && "" + s == s;
    } else {
      WholeFragment(s, part);
    }
  }

  /** `runs` cut `open + sentences` into consecutive runs, one per part, and each part is its run. */
  ghost predicate SentenceRuns(runs: seq<seq<string>>, open: seq<string>, sentences: seq<string>, parts: seq<string>) {
    && Flatten(runs) == open + sentences
    && |runs| == |parts| && (forall i :: 0 <= i < |parts| ==> parts[i] == Flatten(runs[i]))
    && (open != [] ==> runs != [] && runs[0] != [] && runs[0][0] == open[0])
    && FullRuns(runs, parts)
  }

  ghost predicate FullRuns(runs: seq<seq<string>>, parts: seq<string>)
    requires |runs| == |parts|
  {
    forall i :: 0 <= i < |parts| - 1 ==> FullBefore(parts[i], runs[i + 1])
  }

  /** The next run's first sentence would not fit this part. */
  ghost predicate FullBefore(part: string, next: seq<string>) {
    next != [] && |part| + |next[0]| > 6000
  }

  lemma {:induction false} FlushedFull(rest: seq<seq<string>>, open: seq<string>, s: string, parts: seq<string>)
    requires |rest| == |parts| && FullRuns(rest, parts) && |Flatten(open)| + |s| > PART_LIMIT
    requires rest != [] && rest[0] != [] && rest[0][0] == s
    ensures FullRuns([open] + rest, [Flatten(open)] + parts)
  {
    var runs, all := [open] + rest, [Flatten(open)] + parts;
    forall i | 0 <= i < |all| - 1 ensures FullBefore(all[i], runs[i + 1]) {
      assert runs[i + 1] == rest[i];
      if i > 0 {
        assert all[i] == parts[i - 1] && FullBefore(parts[i - 1], rest[i - 1 + 1]);
      }
    }
  }

  lemma {:induction false} FlushedRun(rest: seq<seq<string>>, open: seq<string>, s: string, sentences: seq<string>,
                                      parts: seq<string>)
    requires SentenceRuns(rest, [s], sentences, parts) && |Flatten(open)| + |s| > PART_LIMIT
    ensures SentenceRuns([open] + rest, open, [s] + sentences, [Flatten(open)] + parts)
  {
    assert ([open] + rest)[1..] == rest;
    assert open + ([s] + sentences) == open + Flatten(rest);
    FlushedFull(rest, open, s, parts);
  }

  lemma GrownRun(runs: seq<seq<string>>, open: seq<string>, s: string, sentences: seq<string>, parts: seq<string>)
    requires SentenceRuns(runs, open + [s], sentences, parts)
    ensures SentenceRuns(runs, open, [s] + sentences, parts)
  {
    assert (open + [s]) + sentences == open + ([s] + sentences);
  }

  /** Where every sentence fits a part, each part is a run of whole sentences, and a run ends only
      where its next sentence would not fit. */
  lemma {:induction false} PartsAreRuns(sentences: seq<string>, open: seq<string>)
    returns (runs: seq<seq<string>>)
    requires forall i :: 0 <= i < |sentences| ==> |sentences[i]| <= PART_LIMIT
    requires |Flatten(open)| <= PART_LIMIT && Flatten(open) + Flatten(sentences) != ""
    ensures SentenceRuns(runs, open, sentences, PartsFrom(sentences, Flatten(open)))
    decreases |sentences|
  {
    if sentences == [] {
      runs := [open];
      assert Flatten([open]) == open + Flatten([]);
    } else {
      var part, s, rest := Flatten(open), sentences[0], sentences[1..];
      SentenceTaken(s, open);
      SentenceStep(sentences, open);
      SentenceJoins(sentences, open);
      assert [s] + rest == sentences;
      if |part| + |s| > PART_LIMIT && part != "" {
        var later := PartsAreRuns(rest, [s]);
        runs := [open] + later;
        FlushedRun(later, open, s, rest, PartsFrom(rest, s));
      } else {
        runs := PartsAreRuns(rest, open + [s]);
        GrownRun(runs, open, s, rest, PartsFrom(rest, part + s));
      }
    }
  }

  /** How the loop goes on after one sentence. */
  lemma {:induction false} SentenceStep(sentences: seq<string>, open: seq<string>)
    requires sentences != [] && |sentences[0]| <= PART_LIMIT && |Flatten(open)| <= PART_LIMIT
    ensures var part, s := Flatten(open), sentences[0];
            PartsFrom(sentences, part) ==
            (if |part| + |s| > PART_LIMIT && part != "" then [part] + PartsFrom(sentences[1..], s)
             else PartsFrom(sentences[1..], part + s))
  {
    var part, s := Flatten(open), sentences[0];
    SentenceTaken(s, open);
    PartsFromNext(sentences, part);
    if !(|part| + |s| > PART_LIMIT && part != "") {
      assert [] + PartsFrom(sentences[1..], part + s) == PartsFrom(sentences[1..], part + s);
    }
  }

  lemma {:induction false} PartsFromNext(sentences: seq<string>, part: string)
    requires sentences != []
    ensures var (done, open) := TakeSentence(part, sentences[0]);
            PartsFrom(sentences, part) == done + PartsFrom(sentences[1..], open)
  {
  }

  lemma {:induction false} SentenceJoins(sentences: seq<string>, open: seq<string>)
    requires sentences != []
    ensures Flatten(open) + Flatten(sentences) == Flatten(open + [sentences[0]]) + Flatten(sentences[1..])
    ensures Flatten(sentences) == Flatten([sentences[0]]) + Flatten(sentences[1..])
  {
    var s := sentences[0];
    FlattenAppend(open, [s]);
    assert Flatten([s]) == s + Flatten([]) && s + "" == s;
    Associative(Flatten(open), s, Flatten(sentences[1..]));
  }

  lemma {:induction false} WholeFragment(s: string, part: string)
    requires |s| <= PART_LIMIT && (|part| + |s| <= PART_LIMIT || part == "")
    ensures FragmentsFrom(s, 0, part) == ([], part + s)
  {
    if s != "" {
      assert s[0..Min(0 + PART_LIMIT, |s|)] == s;
      assert FragmentsFrom(s, 0 + PART_LIMIT, part + s) == ([], part + s);
    } else {
      assert part + s == part;
    }
  }

  // ---------------------------------------------------------------- whole sentences

  /** Part `k` holds `s` in one piece, at its place `from` in the whole text. */
  ghost predicate HoldsAt(parts: seq<string>, k: nat, from: int, s: string) {
    && k < |parts| && |Flatten(parts[..k])| <= from
    && OccursAt(parts[k], s, from - |Flatten(parts[..k])|)
  }

  lemma {:induction false} HoldsLater(done: seq<string>, tail: seq<string>, k: nat, from: int, s: string)
    requires HoldsAt(tail, k, from, s)
    ensures HoldsAt(done + tail, |done| + k, |Flatten(done)| + from, s)
  {
    assert (done + tail)[..|done| + k] == done + tail[..k];
    FlattenAppend(done, tail[..k]);
  }

  /** The sentence just taken stays in one piece. */
  lemma FirstSentenceKept(sentences: seq<string>, part: string) returns (k: nat)
    requires sentences != [] && 0 < |sentences[0]| <= PART_LIMIT && |part| <= PART_LIMIT
    ensures HoldsAt(PartsFrom(sentences, part), k, |part|, sentences[0])
  {
    var s, rest := sentences[0], sentences[1..];
    if |part| + |s| > PART_LIMIT && part != "" {
      WholeFragment(s, "");
      assert "" + s == s;
      PartsBegin(rest, s);
      assert HoldsAt(PartsFrom(rest, s), 0, 0, s);
      assert Flatten([part]) == part + Flatten([]) == part;
      HoldsLater([part], PartsFrom(rest, s), 0, 0, s);
      assert [part] + [] == [part];
      k := 1;
    } else {
      WholeFragment(s, part);
      PartsBegin(rest, part + s);
      var parts := PartsFrom(rest, part + s);
      assert parts[0][..|part + s|] == part + s;
      assert parts[0][|part|..|part| + |s|] == s;
      assert [] + parts == parts;
      k := 0;
    }
  }

  /** A sentence that fits a part is never cut, whatever the length of the sentences around it. */
  lemma {:induction false} PartsKeepSentences(sentences: seq<string>, part: string, i: nat) returns (k: nat)
    requires |part| <= PART_LIMIT && i < |sentences| && 0 < |sentences[i]| <= PART_LIMIT
    ensures HoldsAt(PartsFrom(sentences, part), k, |part| + |Flatten(sentences[..i])|, sentences[i])
    decreases |sentences|
  {
    if i == 0 {
      k := FirstSentenceKept(sentences, part);
    } else {
      var (done, open) := TakeSentence(part, sentences[0]);
      var rest := sentences[1..];
      TakeSentenceConcat(part, sentences[0]);
      assert |Flatten(done)| + |open| == |part| + |sentences[0]|;
      var m := PartsKeepSentences(rest, open, i - 1);
      HoldsLater(done, PartsFrom(rest, open), m, |open| + |Flatten(rest[..i - 1])|, sentences[i]);
      assert sentences[..i][1..] == rest[..i - 1];
      k := |done| + m;
    }
  }

  /** So in an oversize block every sentence of at most 6000 characters stands whole in one part. */
  lemma SentencesKept(text: string, i: nat) returns (k: nat)
    requires i < |SplitSentences(text)| && 0 < |SplitSentences(text)[i]| <= PART_LIMIT
    ensures HoldsAt(Parts(text), k, |Flatten(SplitSentences(text)[..i])|, SplitSentences(text)[i])
  {
    k := PartsKeepSentences(SplitSentences(text), "", i);
  }

  // ---------------------------------------------------------------- main results

  lemma RowsFaithful(b: Block, ctx: Context)
    ensures FaithfulUnit(Rows(b), UnitChunks(Rows(b), ctx))
  {
    var lines := SplitLines(b.text);
    RowChunksExact(b, lines, 0, ctx);
    var cut := UnitChunks(Rows(b), ctx);
    forall i | 0 <= i < |cut| ensures FaithfulRows(b, lines, i, cut[i]) {
      assert cut[i] == RowChunk(b, lines, BodyStart(0 + i), ctx);
      RowChunkText(b, lines, i, ctx);
    }
  }

  lemma UnitFaithful(u: Unit, ctx: Context)
    requires SizedUnit(u)
    ensures FaithfulUnit(u, UnitChunks(u, ctx))
  {
    match u
    case Run(blocks) =>
    case Rows(b) => RowsFaithful(b, ctx);
    case Oversize(b) =>
      PartsExact(b.text);
      assert ChunkTexts(PartChunks(b, Parts(b.text), ctx)) == Parts(b.text);
  }

  function ParentLists(lists: seq<seq<Chunk>>, group: seq<Block>): (r: seq<seq<Chunk>>)
    ensures |r| == |lists|
    ensures forall i :: 0 <= i < |r| ==> r[i] == WithParents(lists[i], group)
  {
    seq(|lists|, i requires 0 <= i < |lists| => WithParents(lists[i], group))
  }

  lemma {:induction false} ParentListsFlatten(lists: seq<seq<Chunk>>, group: seq<Block>)
    ensures Flatten(ParentLists(lists, group)) == WithParents(Flatten(lists), group)
  {
    if lists != [] {
      ParentListsFlatten(lists[1..], group);
      assert ParentLists(lists, group)[1..] == ParentLists(lists[1..], group);
      assert WithParents(lists[0] + Flatten(lists[1..]), group)
          == WithParents(lists[0], group) + WithParents(Flatten(lists[1..]), group);
    }
  }

  lemma ParentKeepsFaithful(u: Unit, cut: seq<Chunk>, group: seq<Block>)
    requires FaithfulUnit(u, cut)
    ensures FaithfulUnit(u, WithParents(cut, group))
  {
    assert ChunkTexts(WithParents(cut, group)) == ChunkTexts(cut);
  }

  lemma UnitChunksParent(u: Unit, ctx: Context)
    ensures forall i :: 0 <= i < |UnitChunks(u, ctx)| ==>
              UnitChunks(u, ctx)[i].parentText == ctx.parent && UnitChunks(u, ctx)[i].locator.heading == ctx.heading
  {
    if u.Rows? {
      RowChunksExact(u.block, SplitLines(u.block.text), 0, ctx);
    }
  }

  lemma GroupFaithful(group: seq<Block>)
    requires group != []
    ensures FaithfulGroup(group, GroupChunks(group))
  {
    var ctx, units := ContextOf(group), UnitsFrom(group, []);
    var lists := UnitChunkLists(units, ctx);
    var cuts := ParentLists(lists, group);
    UnitsPartition(group, []);
    UnitsMaximal(group, []);
    assert [] + group == group;
    ParentListsFlatten(lists, group);
    forall u | 0 <= u < |units| ensures FaithfulUnit(units[u], cuts[u]) {
      assert units[u] in units;
      UnitFaithful(units[u], ctx);
      ParentKeepsFaithful(units[u], lists[u], group);
    }
    var chunks := GroupChunks(group);
    assert FaithfulCuts(group, chunks, units, cuts);
    forall i | 0 <= i < |chunks|
      ensures chunks[i].parentText == ctx.parent && chunks[i].locator.heading == ctx.heading
    {
      var c := Flatten(lists)[i];
      var u := InFlatten(c, lists);
      UnitChunksParent(units[u], ctx);
    }
  }

  /** The chunks of a document, group by group: the blocks at `kept` are all that hold more than
      spaces, they are grouped at headings and planned boundaries, and no group loses anything. */
  ghost predicate Lossless(blocks: seq<Block>, kept: seq<nat>, boundaries: set<string>, groups: seq<seq<Block>>,
                           lists: seq<seq<Chunk>>, chunks: seq<Chunk>)
  {
    && Selects(blocks, Flatten(groups), kept)
    && IsGrouping(groups, Flatten(groups), boundaries)
    && |lists| == |groups|
    && Flatten(lists) == chunks
    && forall g :: 0 <= g < |groups| ==> FaithfulGroup(groups[g], lists[g])
  }

  /** Segmentation is lossless: every block of the input with more than spaces is in exactly one
      group, in order, groups begin exactly at headings and planned boundaries, and the chunks of
      every group reproduce its blocks verbatim and in order. */
  lemma {:induction false} SegmentLossless(blocks: seq<Block>, kind: DocumentKind, plan: nat -> seq<string>)
    returns (kept: seq<nat>, boundaries: set<string>, groups: seq<seq<Block>>, lists: seq<seq<Chunk>>)
    requires Segmented(blocks, kind, plan).Ok?
    ensures Lossless(blocks, kept, boundaries, groups, lists, Segmented(blocks, kind, plan).value)
    ensures PlannedBoundaries(boundaries, Flatten(groups), kind, plan)
  {
    var clean := Usable(blocks);
    kept := UsableExact(blocks);
    boundaries := Boundaries(clean, kind, plan).value;
    groups := GroupsFrom(clean, [], boundaries);
    BoundariesMean(clean, kind, plan);
    GroupsExact(clean, [], boundaries);
    assert [] + clean == clean;
    lists := GroupChunkLists(groups);
    forall g | 0 <= g < |groups| ensures FaithfulGroup(groups[g], lists[g]) {
      GroupFaithful(groups[g]);
    }
  }

  /** Two blocks of the input with more than spaces share an id. */
  ghost predicate Duplicated(blocks: seq<Block>) {
    exists i, j :: 0 <= i < j < |blocks| && HasInk(blocks[i]) && HasInk(blocks[j]) && blocks[i].id == blocks[j].id
  }

  /** When segmentation refuses: nothing but spaces, two usable blocks with one id, or, for a case or a
      handover, an answer that names an id outside its batch of thirty usable blocks. */
  lemma {:induction false} SegmentRefuses(blocks: seq<Block>, kind: DocumentKind, plan: nat -> seq<string>)
    returns (clean: seq<Block>, kept: seq<nat>)
    ensures Selects(blocks, clean, kept)
    ensures var r := Segmented(blocks, kind, plan);
            && (r == Err(NoUsableContent) <==> forall i :: 0 <= i < |blocks| ==> !HasInk(blocks[i]))
            && (r == Err(DuplicateBlockIds) <==> Duplicated(blocks))
            && (r == Err(UnknownBoundary) <==>
                  !Duplicated(blocks) && (kind == Case || kind == Handover) && Misnamed(clean, plan))
  {
    clean := Usable(blocks);
    kept := UsableExact(blocks);
    BoundariesMean(clean, kind, plan);
    DuplicatesExact(blocks, clean, kept);
    EmptyExact(blocks, clean, kept);
    assert clean == [] ==> !Misnamed(clean, plan);
  }

  lemma EmptyExact(blocks: seq<Block>, clean: seq<Block>, kept: seq<nat>)
    requires Selects(blocks, clean, kept)
    ensures clean == [] <==> forall i :: 0 <= i < |blocks| ==> !HasInk(blocks[i])
    ensures clean == [] ==> !Duplicated(blocks)
  {
    if k :| 0 <= k < |blocks| && HasInk(blocks[k]) {
      assert k in kept && kept != [];
    }
    if clean != [] {
      assert kept[0] in kept && HasInk(blocks[kept[0]]);
    }
  }

  lemma DuplicatesExact(blocks: seq<Block>, clean: seq<Block>, kept: seq<nat>)
    requires Selects(blocks, clean, kept)
    ensures Duplicated(blocks) <==> !Distinct(Ids(clean))
  {
    if i, j :| 0 <= i < j < |blocks| && HasInk(blocks[i]) && HasInk(blocks[j]) && blocks[i].id == blocks[j].id {
      assert i in kept && j in kept;
      var a :| 0 <= a < |kept| && kept[a] == i;
      var b :| 0 <= b < |kept| && kept[b] == j;
      assert a < b && Ids(clean)[a] == Ids(clean)[b];
    }
    if !Distinct(Ids(clean)) {
      var a, b :| 0 <= a < b < |Ids(clean)| && Ids(clean)[a] == Ids(clean)[b];
      assert kept[a] in kept && kept[b] in kept;
      assert HasInk(blocks[kept[a]]) && HasInk(blocks[kept[b]]) && blocks[kept[a]].id == blocks[kept[b]].id;
    }
  }

  lemma {:induction false} TextsAtLeast(blocks: seq<Block>)
    requires forall b :: b in blocks ==> b.text != ""
    ensures TotalLength(Texts(blocks)) >= |blocks|
  {
    if blocks != [] {
      assert Texts(blocks)[1..] == Texts(blocks[1..]);
      TextsAtLeast(blocks[1..]);
    }
  }

  /** A non-table chunk of non-blank blocks is never empty and never exceeds 6999 characters. */
  lemma UnitSizeBound(u: Unit, cut: seq<Chunk>, c: Chunk)
    requires SizedUnit(u) && FaithfulUnit(u, cut) && c in cut
    requires forall b :: b in UnitBlocks(u) ==> b.text != ""
    ensures c.locator.rowStart == None ==> 0 < |c.text| <= 6999
  {
    match u
    case Run(blocks) =>
      TextsAtLeast(blocks);
      JoinLength(Texts(blocks));
      if |blocks| == 1 {
        assert Texts(blocks) == [blocks[0].text];
      }
    case Rows(_) =>
    case Oversize(_) =>
  }

  lemma {:induction false} UnitBlocksIn(units: seq<Unit>, k: nat)
    requires k < |units|
    ensures forall b :: b in UnitBlocks(units[k]) ==> b in BlocksOf(units)
  {
    if k > 0 {
      UnitBlocksIn(units[1..], k - 1);
    }
  }

  lemma {:induction false} FlattenContains<T>(parts: seq<seq<T>>, k: nat)
    requires k < |parts|
    ensures forall x :: x in parts[k] ==> x in Flatten(parts)
  {
    if k > 0 {
      FlattenContains(parts[1..], k - 1);
    }
  }

  /** Every chunk cut from prose stays within the bound, whatever the document. */
  lemma ChunkSizeBound(blocks: seq<Block>, kind: DocumentKind, plan: nat -> seq<string>, c: Chunk)
    requires Segmented(blocks, kind, plan).Ok? && c in Segmented(blocks, kind, plan).value
    ensures c.locator.rowStart == None ==> 0 < |c.text| <= 6999
  {
    var kept, boundaries, groups, lists := SegmentLossless(blocks, kind, plan);
    var g := InFlatten(c, lists);
    var units: seq<Unit>, cuts: seq<seq<Chunk>> :| FaithfulCuts(groups[g], lists[g], units, cuts);
    var u := InFlatten(c, cuts);
    UnitBlocksIn(units, u);
    FlattenContains(groups, g);
    forall b | b in Flatten(groups) ensures b.text != "" {
      var k :| 0 <= k < |kept| && Flatten(groups)[k] == b;
      assert kept[k] in kept && HasInk(blocks[kept[k]]);
    }
    assert units[u] in units;
    UnitSizeBound(units[u], cuts[u], c);
  }

  lemma UnitNotEmpty(u: Unit, cut: seq<Chunk>)
    requires SizedUnit(u) && FaithfulUnit(u, cut)
    ensures cut != []
  {
    if u.Oversize? {
      var texts := ChunkTexts(cut);
      assert texts != [];
    }
  }

  lemma {:induction false} SomethingKept(blocks: seq<Block>, kind: DocumentKind, plan: nat -> seq<string>,
                                         groups: seq<seq<Block>>, kept: seq<nat>)
    requires Segmented(blocks, kind, plan).Ok? && Selects(blocks, Flatten(groups), kept)
    ensures groups != []
  {
    var clean, other := SegmentRefuses(blocks, kind, plan);
    var i :| 0 <= i < |blocks| && HasInk(blocks[i]);
    assert i in kept;
  }

  /** A usable document yields at least one chunk. */
  lemma SegmentNotEmpty(blocks: seq<Block>, kind: DocumentKind, plan: nat -> seq<string>)
    requires Segmented(blocks, kind, plan).Ok?
    ensures Segmented(blocks, kind, plan).value != []
  {
    var kept, boundaries, groups, lists := SegmentLossless(blocks, kind, plan);
    SomethingKept(blocks, kind, plan, groups, kept);
    assert groups != [];
    var units: seq<Unit>, cuts: seq<seq<Chunk>> :| FaithfulCuts(groups[0], lists[0], units, cuts);
    assert units != [];
    assert units[0] in units && FaithfulUnit(units[0], cuts[0]);
    UnitNotEmpty(units[0], cuts[0]);
    assert cuts[0][0] in cuts[0];
    FlattenContains(cuts, 0);
    FlattenContains(lists, 0);
  }

  /** `n` one-character paragraphs with distinct ids. */
  function Letters(start: nat, n: nat): seq<Block> {
    seq(n, i requires 0 <= i < n => Block(Name(start + i), Paragraph, "x", 1, ""))
  }

  function Name(n: nat): string {
    seq(n, _ => 'b')
  }

  lemma LettersNext(start: nat, n: nat)
    requires n > 0
    ensures Letters(start, n)[1..] == Letters(start + 1, n - 1) && Letters(start, n)[0].text == "x"
    ensures Texts(Letters(start, n))[1..] == Texts(Letters(start + 1, n - 1))
  {
  }

  lemma {:induction false} LettersLength(start: nat, n: nat)
    ensures TotalLength(Texts(Letters(start, n))) == n
    decreases n
  {
    if n > 0 {
      LettersNext(start, n);
      LettersLength(start + 1, n - 1);
    }
  }

  lemma {:induction false} LettersUsable(start: nat, n: nat)
    ensures Usable(Letters(start, n)) == Letters(start, n)
    decreases n
  {
    if n > 0 {
      LettersNext(start, n);
      LettersUsable(start + 1, n - 1);
      assert !IsBlank("x") by {
        assert !IsSpace("x"[0]);
      }
    }
  }

  lemma LettersShift(done: nat, left: nat)
    requires left > 0
    ensures Letters(0, done) + [Letters(done, left)[0]] == Letters(0, done + 1)
    ensures Letters(done, left)[1..] == Letters(done + 1, left - 1)
  {
  }

  lemma {:induction false} LettersUnits(done: nat, left: nat)
    requires 0 < done + left <= BUFFER_LIMIT
    ensures UnitsFrom(Letters(done, left), Letters(0, done)) == [Run(Letters(0, done + left))]
    decreases left
  {
    if left > 0 {
      LettersShift(done, left);
      LettersLength(0, done);
      LettersUnits(done + 1, left - 1);
      assert TakeBlock(Letters(0, done), Letters(done, left)[0]) == ([], Letters(0, done + 1));
    }
  }

  lemma {:induction false} LettersGroups(done: nat, left: nat)
    requires 0 < done + left
    ensures GroupsFrom(Letters(done, left), Letters(0, done), {}) == [Letters(0, done + left)]
    decreases left
  {
    if left > 0 {
      LettersShift(done, left);
      LettersGroups(done + 1, left - 1);
    }
  }

  /** The bound is reached: 3500 one-character paragraphs become one chunk of 6999 characters. */
  lemma SizeBoundTight(plan: nat -> seq<string>)
    ensures var r := Segmented(Letters(0, BUFFER_LIMIT), Manual, plan);
            r.Ok? && |r.value| == 1 && r.value[0].locator.rowStart == None && |r.value[0].text| == 6999
  {
    var blocks := Letters(0, BUFFER_LIMIT);
    LettersLength(0, BUFFER_LIMIT);
    LettersUsable(0, BUFFER_LIMIT);
    assert Letters(0, 0) == [];
    LettersUnits(0, BUFFER_LIMIT);
    LettersGroups(0, BUFFER_LIMIT);
    forall i, j | 0 <= i < j < |Ids(blocks)| ensures Ids(blocks)[i] != Ids(blocks)[j] {
      assert Ids(blocks)[i] == Name(0 + i) && Ids(blocks)[j] == Name(0 + j);
    }
    var ctx := ContextOf(blocks);
    var lists := UnitChunkLists([Run(blocks)], ctx);
    assert lists == [[RunChunk(blocks, ctx)]];
    assert Flatten(lists) == [RunChunk(blocks, ctx)] + Flatten([]);
    assert GroupChunks(blocks) == WithParents([RunChunk(blocks, ctx)], blocks);
    assert GroupChunkLists([blocks]) == [GroupChunks(blocks)];
    assert Flatten([GroupChunks(blocks)]) == GroupChunks(blocks) + Flatten([]);
    JoinLength(Texts(blocks));
  }
}
