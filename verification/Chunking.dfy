/** Structure-first segmentation of parsed blocks into chunks. */
module Chunking {
  import opened Common
  import opened Text

  const BATCH: nat := 30
  const ROWS_PER_CHUNK: nat := 15
  const BUFFER_LIMIT: nat := 3500
  const PART_LIMIT: nat := 6000

  datatype Kind = Heading | Paragraph | Table | Image | ListItem

  datatype Block = Block(id: string, kind: Kind, text: string, page: nat, locator: string)

  datatype DocumentKind = Standard | Manual | Procedure | Case | Handover | Notice

  datatype ParentLocator = ParentLocator(blockIds: seq<string>, pages: seq<nat>, blocks: seq<string>)

  /** `rowStart` is present on table chunks, `blocks` is absent on parts of an oversize block,
      `parent` is filled in after the whole group was cut. */
  datatype Locator = Locator(blockIds: seq<string>, pages: seq<nat>, heading: string, rowStart: Option<nat>,
                             blocks: Option<seq<string>>, parent: Option<ParentLocator>)

  datatype Chunk = Chunk(text: string, parentText: string, locator: Locator)

  datatype SegmentError = NoUsableContent | DuplicateBlockIds | UnknownBoundary

  // ---------------------------------------------------------------- projections of block lists

  function Texts(blocks: seq<Block>): (r: seq<string>)
    ensures |r| == |blocks|
    ensures forall i :: 0 <= i < |r| ==> r[i] == blocks[i].text
  {
    seq(|blocks|, i requires 0 <= i < |blocks| => blocks[i].text)
  }

  function Ids(blocks: seq<Block>): (r: seq<string>)
    ensures |r| == |blocks|
    ensures forall i :: 0 <= i < |r| ==> r[i] == blocks[i].id
  {
    seq(|blocks|, i requires 0 <= i < |blocks| => blocks[i].id)
  }

  function Locators(blocks: seq<Block>): (r: seq<string>)
    ensures |r| == |blocks|
    ensures forall i :: 0 <= i < |r| ==> r[i] == blocks[i].locator
  {
    seq(|blocks|, i requires 0 <= i < |blocks| => blocks[i].locator)
  }

  function IdSet(blocks: seq<Block>): set<string> {
    set b | b in blocks :: b.id
  }

  function Insert(page: nat, pages: seq<nat>): (r: seq<nat>) {
    if pages == [] || page < pages[0] then [page] + pages
    else if page == pages[0] then pages
    else [pages[0]] + Insert(page, pages[1..])
  }

  /** `sorted({b.page for b in blocks})`. */
  function SortedPages(blocks: seq<Block>): seq<nat> {
    if blocks == [] then [] else Insert(blocks[0].page, SortedPages(blocks[1..]))
  }

  ghost predicate Increasing(pages: seq<nat>) {
    forall i, j :: 0 <= i < j < |pages| ==> pages[i] < pages[j]
  }

  lemma {:induction false} InsertMembers(page: nat, pages: seq<nat>)
    ensures forall p :: p in Insert(page, pages) <==> p == page || p in pages
  {
    if pages != [] && page > pages[0] {
      InsertMembers(page, pages[1..]);
      assert forall p :: p in pages <==> p == pages[0] || p in pages[1..];
    }
  }

  lemma {:induction false} InsertSorted(page: nat, pages: seq<nat>)
    requires Increasing(pages)
    ensures Increasing(Insert(page, pages))
  {
    if pages != [] && page > pages[0] {
      var rest := Insert(page, pages[1..]);
      InsertSorted(page, pages[1..]);
      InsertMembers(page, pages[1..]);
      forall j | 0 <= j < |rest| ensures pages[0] < rest[j] {
        assert rest[j] in rest;
        if rest[j] != page {
          var k :| 0 <= k < |pages[1..]| && pages[1..][k] == rest[j];
        }
      }
    }
  }

  /** The page list of a locator is strictly increasing and names exactly the pages of its blocks. */
  lemma {:induction false} SortedPagesExact(blocks: seq<Block>)
    ensures Increasing(SortedPages(blocks))
    ensures forall p :: p in SortedPages(blocks) <==> exists b :: b in blocks && b.page == p
  {
    if blocks != [] {
      SortedPagesExact(blocks[1..]);
      InsertSorted(blocks[0].page, SortedPages(blocks[1..]));
      InsertMembers(blocks[0].page, SortedPages(blocks[1..]));
      assert forall b :: b in blocks <==> b == blocks[0] || b in blocks[1..];
    }
  }

  // ---------------------------------------------------------------- usable content, boundaries, groups

  function Usable(blocks: seq<Block>): seq<Block> {
    if blocks == [] then []
    else (if IsBlank(blocks[0].text) then [] else [blocks[0]]) + Usable(blocks[1..])
  }

  /** Some character of the text is not a space. */
  predicate HasInk(b: Block) {
    exists c :: 0 <= c < |b.text| && !IsSpace(b.text[c])
  }

  /** `clean` are the blocks of the input at the positions `kept`: all that hold more than spaces, in order. */
  ghost predicate Selects(blocks: seq<Block>, clean: seq<Block>, kept: seq<nat>) {
    Picks(blocks, clean, kept) && forall i: nat :: i < |blocks| ==> (i in kept <==> HasInk(blocks[i]))
  }

  lemma {:induction false} UsableExact(blocks: seq<Block>) returns (kept: seq<nat>)
    ensures Selects(blocks, Usable(blocks), kept)
  {
    if blocks == [] {
      kept := [];
    } else {
      var rest := UsableExact(blocks[1..]);
      kept := SelectsLater(blocks, rest);
    }
  }

  lemma InkExact(b: Block)
    ensures HasInk(b) <==> !IsBlank(b.text)
  {
  }

  lemma SelectsLater(blocks: seq<Block>, rest: seq<nat>) returns (kept: seq<nat>)
    requires blocks != [] && Selects(blocks[1..], Usable(blocks[1..]), rest)
    ensures Selects(blocks, Usable(blocks), kept)
  {
    var clean := Usable(blocks[1..]);
    assert [blocks[0]] + blocks[1..] == blocks;
    InkExact(blocks[0]);
    PicksLater(blocks[0], blocks[1..], clean, rest);
    kept := if HasInk(blocks[0]) then [0] + Later(rest) else Later(rest);
    assert [] + clean == clean;
    forall i: nat | i < |blocks| ensures i in kept <==> HasInk(blocks[i]) {
      InLater(rest, i);
      if i > 0 {
        assert blocks[i] == blocks[1..][i - 1];
      }
    }
  }

  predicate PlansBoundaries(kind: DocumentKind) {
    kind == Case || kind == Handover
  }

  function Batch(clean: seq<Block>, start: nat): seq<Block>
    requires start <= |clean|
  {
    if start + BATCH <= |clean| then clean[start..start + BATCH] else clean[start..]
  }

  predicate AnswersKnown(clean: seq<Block>, start: nat, plan: nat -> seq<string>)
    requires start <= |clean|
  {
    forall id :: id in plan(start) ==> id in IdSet(Batch(clean, start))
  }

  /** The union of the model's answers, one per batch; `plan(start)` answers the batch at `start`. */
  function BoundariesFrom(clean: seq<Block>, start: nat, plan: nat -> seq<string>, found: set<string>)
    : Result<set<string>, SegmentError>
    decreases |clean| - start
  {
    if start >= |clean| then Ok(found)
    else if !AnswersKnown(clean, start, plan) then Err(UnknownBoundary)
    else BoundariesFrom(clean, start + BATCH, plan, found + set id | id in plan(start))
  }

  function Boundaries(clean: seq<Block>, kind: DocumentKind, plan: nat -> seq<string>)
    : Result<set<string>, SegmentError>
  {
    if PlansBoundaries(kind) then BoundariesFrom(clean, 0, plan, {}) else Ok({})
  }

  /** Where the k-th batch after `start` begins. */
  function BatchStart(start: nat, k: nat): nat {
    start + BATCH * k
  }

  ghost predicate AllAnswersKnown(clean: seq<Block>, start: nat, plan: nat -> seq<string>) {
    forall k: nat :: BatchStart(start, k) < |clean| ==> AnswersKnown(clean, BatchStart(start, k), plan)
  }

  ghost predicate Named(clean: seq<Block>, start: nat, plan: nat -> seq<string>, id: string) {
    exists k: nat :: BatchStart(start, k) < |clean| && id in plan(BatchStart(start, k))
  }

  lemma AnswersKnownStep(clean: seq<Block>, start: nat, plan: nat -> seq<string>)
    requires start < |clean|
    ensures AllAnswersKnown(clean, start, plan) <==>
              AnswersKnown(clean, start, plan) && AllAnswersKnown(clean, start + BATCH, plan)
  {
    assert BatchStart(start, 0) == start;
    var next := start + BATCH;
    if AllAnswersKnown(clean, start, plan) {
      forall k: nat | BatchStart(next, k) < |clean|
        ensures AnswersKnown(clean, BatchStart(next, k), plan)
      {
        assert BatchStart(next, k) == BatchStart(start, k + 1);
      }
    }
    if AnswersKnown(clean, start, plan) && AllAnswersKnown(clean, start + BATCH, plan) {
      forall k: nat | BatchStart(start, k) < |clean| ensures AnswersKnown(clean, BatchStart(start, k), plan) {
        if k > 0 {
          assert BatchStart(start, k) == BatchStart(next, k - 1);
        }
      }
    }
  }

  lemma NamedStep(clean: seq<Block>, start: nat, plan: nat -> seq<string>, id: string)
    requires start < |clean|
    ensures Named(clean, start, plan, id) <==> id in plan(start) || Named(clean, start + BATCH, plan, id)
  {
    assert BatchStart(start, 0) == start;
    var next := start + BATCH;
    if k: nat :| BatchStart(next, k) < |clean| && id in plan(BatchStart(next, k)) {
      assert BatchStart(next, k) == BatchStart(start, k + 1);
    }
    if k: nat :| BatchStart(start, k) < |clean| && id in plan(BatchStart(start, k)) {
      if k > 0 {
        assert BatchStart(start, k) == BatchStart(next, k - 1);
      }
    }
  }

  /** The answers are refused exactly when some batch names an id that is not its own;
      otherwise the boundaries are exactly the ids named. */
  lemma {:induction false} BoundariesExact(clean: seq<Block>, start: nat, plan: nat -> seq<string>, found: set<string>)
    ensures BoundariesFrom(clean, start, plan, found).Ok? <==> AllAnswersKnown(clean, start, plan)
    ensures BoundariesFrom(clean, start, plan, found).Ok? ==>
              forall id :: id in BoundariesFrom(clean, start, plan, found).value <==>
                  id in found || Named(clean, start, plan, id)
    decreases |clean| - start
  {
    if start < |clean| {
      AnswersKnownStep(clean, start, plan);
      BoundariesExact(clean, start + BATCH, plan, found + set id | id in plan(start));
      forall id { NamedStep(clean, start, plan, id); }
    }
  }

  /** Some batch of thirty blocks was answered with this id. */
  ghost predicate Asked(clean: seq<Block>, plan: nat -> seq<string>, id: string) {
    exists k: nat :: Thirty(k) < |clean| && id in plan(Thirty(k))
  }

  function Thirty(k: nat): nat { 30 * k }

  /** The batch that begins at `30 * k` has a block of this id. */
  ghost predicate InBatch(clean: seq<Block>, k: nat, id: string) {
    exists i :: Thirty(k) <= i < Thirty(k) + 30 && i < |clean| && clean[i].id == id
  }

  /** The boundaries of a case or handover are exactly the ids answered, one answer per batch; those of
      other documents are none, and nothing the model says matters. */
  ghost predicate PlannedBoundaries(boundaries: set<string>, clean: seq<Block>, kind: DocumentKind,
                                    plan: nat -> seq<string>)
  {
    forall id :: id in boundaries <==> (kind == Case || kind == Handover) && Asked(clean, plan, id)
  }

  /** Some answer names an id that is not in its batch. */
  ghost predicate Misnamed(clean: seq<Block>, plan: nat -> seq<string>) {
    exists k: nat, id :: Thirty(k) < |clean| && id in plan(Thirty(k)) && !InBatch(clean, k, id)
  }

  lemma BatchExact(clean: seq<Block>, k: nat, id: string)
    requires Thirty(k) <= |clean|
    ensures id in IdSet(Batch(clean, Thirty(k))) <==> InBatch(clean, k, id)
  {
    var batch := Batch(clean, Thirty(k));
    if i :| Thirty(k) <= i < Thirty(k) + 30 && i < |clean| && clean[i].id == id {
      assert batch[i - Thirty(k)] == clean[i] && clean[i] in batch;
    }
    if id in IdSet(batch) {
      var b :| b in batch && b.id == id;
      var j :| 0 <= j < |batch| && batch[j] == b;
      assert clean[Thirty(k) + j].id == id;
    }
  }

  lemma BoundariesMean(clean: seq<Block>, kind: DocumentKind, plan: nat -> seq<string>)
    ensures var r := Boundaries(clean, kind, plan);
            && (r.Err? <==> (kind == Case || kind == Handover) && Misnamed(clean, plan))
            && (r.Err? ==> r.error == UnknownBoundary)
            && (r.Ok? ==> PlannedBoundaries(r.value, clean, kind, plan))
  {
    BoundariesExact(clean, 0, plan, {});
    BoundaryError(clean, 0, plan, {});
    assert forall k: nat :: BatchStart(0, k) == Thirty(k);
    forall k: nat, id | Thirty(k) < |clean| { BatchExact(clean, k, id); }
    forall id ensures Named(clean, 0, plan, id) <==> Asked(clean, plan, id) {
      if k: nat :| BatchStart(0, k) < |clean| && id in plan(BatchStart(0, k)) {
        assert Thirty(k) < |clean|;
      }
      if k: nat :| Thirty(k) < |clean| && id in plan(Thirty(k)) {
        assert BatchStart(0, k) < |clean|;
      }
    }
    MisnamedExact(clean, plan);
  }

  lemma {:induction false} BoundaryError(clean: seq<Block>, start: nat, plan: nat -> seq<string>, found: set<string>)
    ensures var r := BoundariesFrom(clean, start, plan, found); r.Err? ==> r.error == UnknownBoundary
    decreases |clean| - start
  {
    if start < |clean| {
      BoundaryError(clean, start + BATCH, plan, found + set id | id in plan(start));
    }
  }

  lemma MisnamedExact(clean: seq<Block>, plan: nat -> seq<string>)
    ensures AllAnswersKnown(clean, 0, plan) <==> !Misnamed(clean, plan)
  {
    if AllAnswersKnown(clean, 0, plan) {
      forall k: nat, id | Thirty(k) < |clean| && id in plan(Thirty(k)) ensures InBatch(clean, k, id) {
        assert BatchStart(0, k) == Thirty(k);
        BatchExact(clean, k, id);
      }
    }
    if !Misnamed(clean, plan) {
      forall k: nat | BatchStart(0, k) < |clean| ensures AnswersKnown(clean, BatchStart(0, k), plan) {
        assert BatchStart(0, k) == Thirty(k);
        forall id | id in plan(Thirty(k)) ensures id in IdSet(Batch(clean, Thirty(k))) {
          BatchExact(clean, k, id);
        }
      }
    }
  }

  predicate Cuts(block: Block, boundaries: set<string>) {
    block.kind == Heading || block.id in boundaries
  }

  function GroupsFrom(rest: seq<Block>, current: seq<Block>, boundaries: set<string>): seq<seq<Block>>
    decreases |rest|
  {
    if rest == [] then (if current == [] then [] else [current])
    else if Cuts(rest[0], boundaries) && current != [] then
      [current] + GroupsFrom(rest[1..], [rest[0]], boundaries)
    else GroupsFrom(rest[1..], current + [rest[0]], boundaries)
  }

  /** Groups concatenate to the content and are cut exactly at headings and boundary ids. */
  ghost predicate IsGrouping(groups: seq<seq<Block>>, clean: seq<Block>, boundaries: set<string>) {
    && Flatten(groups) == clean
    && (forall g :: 0 <= g < |groups| ==> groups[g] != [])
    && (forall g :: 1 <= g < |groups| ==> groups[g][0].kind == Heading || groups[g][0].id in boundaries)
    && (forall g, i :: 0 <= g < |groups| && 1 <= i < |groups[g]| ==>
          groups[g][i].kind != Heading && groups[g][i].id !in boundaries)
  }

  lemma {:induction false} GroupsExact(rest: seq<Block>, current: seq<Block>, boundaries: set<string>)
    requires forall i :: 1 <= i < |current| ==> !Cuts(current[i], boundaries)
    ensures IsGrouping(GroupsFrom(rest, current, boundaries), current + rest, boundaries)
    ensures current != [] ==> GroupsFrom(rest, current, boundaries)[0][0] == current[0]
    decreases |rest|
  {
    if rest == [] {
      assert Flatten([current]) == current + Flatten([]);
    } else if Cuts(rest[0], boundaries) && current != [] {
      GroupsExact(rest[1..], [rest[0]], boundaries);
      assert [rest[0]] + rest[1..] == rest;
    } else {
      GroupsExact(rest[1..], current + [rest[0]], boundaries);
      assert current + rest == current + [rest[0]] + rest[1..];
    }
  }

  // ---------------------------------------------------------------- cutting one group

  /** What becomes of consecutive blocks: one buffered run, one table, or one oversize block. */
  datatype Unit = Run(blocks: seq<Block>) | Rows(block: Block) | Oversize(block: Block)

  function UnitBlocks(u: Unit): seq<Block> {
    match u
    case Run(blocks) => blocks
    case Rows(b) => [b]
    case Oversize(b) => [b]
  }

  function Flush(buffer: seq<Block>): seq<Unit> {
    if buffer == [] then [] else [Run(buffer)]
  }

  /** The units one more block completes, and the buffer it leaves. */
  function TakeBlock(buffer: seq<Block>, b: Block): (seq<Unit>, seq<Block>) {
    if b.kind == Table then (Flush(buffer) + [Rows(b)], [])
    else if |b.text| > PART_LIMIT then (Flush(buffer) + [Oversize(b)], [])
    else if TotalLength(Texts(buffer)) + |b.text| > BUFFER_LIMIT then (Flush(buffer), [b])
    else ([], buffer + [b])
  }

  function UnitsFrom(rest: seq<Block>, buffer: seq<Block>): seq<Unit>
    decreases |rest|
  {
    if rest == [] then Flush(buffer)
    else
      var (units, buffer') := TakeBlock(buffer, rest[0]);
      units + UnitsFrom(rest[1..], buffer')
  }

  datatype Context = Context(parent: string, heading: string)

  function ContextOf(group: seq<Block>): Context
    requires group != []
  {
    Context(Join(Texts(group)), if group[0].kind == Heading then group[0].text else "")
  }

  function RunChunk(buffer: seq<Block>, ctx: Context): Chunk {
    Chunk(Join(Texts(buffer)), ctx.parent,
          Locator(Ids(buffer), SortedPages(buffer), ctx.heading, None, Some(Locators(buffer)), None))
  }

  function RowChunk(block: Block, lines: seq<string>, offset: nat, ctx: Context): Chunk {
    var header := lines[..Min(2, |lines|)];
    var body := lines[Min(offset, |lines|)..Min(offset + ROWS_PER_CHUNK, |lines|)];
    Chunk(Join(header + body), ctx.parent,
          Locator([block.id], [block.page], ctx.heading, Some(offset), Some([block.locator]), None))
  }

  function RowChunksFrom(block: Block, lines: seq<string>, offset: nat, ctx: Context): seq<Chunk>
    decreases Max(3, |lines|) - offset
  {
    if offset >= Max(3, |lines|) then []
    else [RowChunk(block, lines, offset, ctx)] + RowChunksFrom(block, lines, offset + ROWS_PER_CHUNK, ctx)
  }

  /** The parts that cutting `sentence` from `offset` on completes, and the unfinished part. */
  function FragmentsFrom(sentence: string, offset: nat, part: string): (seq<string>, string)
    decreases |sentence| - offset
  {
    if offset >= |sentence| then ([], part)
    else
      var fragment := sentence[offset..Min(offset + PART_LIMIT, |sentence|)];
      if |part| + |fragment| > PART_LIMIT then
        var (done, open) := FragmentsFrom(sentence, offset + PART_LIMIT, fragment);
        ([part] + done, open)
      else FragmentsFrom(sentence, offset + PART_LIMIT, part + fragment)
  }

  /** The parts one more sentence completes, and the part it leaves unfinished. */
  function TakeSentence(part: string, sentence: string): (seq<string>, string) {
    if |part| + |sentence| > PART_LIMIT && part != "" then
      var (done, open) := FragmentsFrom(sentence, 0, "");
      ([part] + done, open)
    else FragmentsFrom(sentence, 0, part)
  }

  function PartsFrom(sentences: seq<string>, part: string): seq<string>
    decreases |sentences|
  {
    if sentences == [] then (if part == "" then [] else [part])
    else
      var (done, open) := TakeSentence(part, sentences[0]);
      done + PartsFrom(sentences[1..], open)
  }

  function Parts(text: string): seq<string> {
    PartsFrom(SplitSentences(text), "")
  }

  function PartChunk(block: Block, part: string, ctx: Context): Chunk {
    Chunk(part, ctx.parent, Locator([block.id], [block.page], ctx.heading, None, None, None))
  }

  function PartChunks(block: Block, parts: seq<string>, ctx: Context): (r: seq<Chunk>)
    ensures |r| == |parts|
    ensures forall i :: 0 <= i < |r| ==> r[i] == PartChunk(block, parts[i], ctx)
  {
    seq(|parts|, i requires 0 <= i < |parts| => PartChunk(block, parts[i], ctx))
  }

  function UnitChunks(u: Unit, ctx: Context): seq<Chunk> {
    match u
    case Run(blocks) => [RunChunk(blocks, ctx)]
    case Rows(b) => RowChunksFrom(b, SplitLines(b.text), 2, ctx)
    case Oversize(b) => PartChunks(b, Parts(b.text), ctx)
  }

  function UnitChunkLists(units: seq<Unit>, ctx: Context): (r: seq<seq<Chunk>>)
    ensures |r| == |units|
  {
    seq(|units|, i requires 0 <= i < |units| => UnitChunks(units[i], ctx))
  }

  function AllUnitChunks(units: seq<Unit>, ctx: Context): seq<Chunk> {
    Flatten(UnitChunkLists(units, ctx))
  }

  lemma AllUnitChunksAppend(units: seq<Unit>, more: seq<Unit>, ctx: Context)
    ensures AllUnitChunks(units + more, ctx) == AllUnitChunks(units, ctx) + AllUnitChunks(more, ctx)
  {
    var a, b := UnitChunkLists(units, ctx), UnitChunkLists(more, ctx);
    var all := UnitChunkLists(units + more, ctx);
    forall k | 0 <= k < |all| ensures all[k] == (a + b)[k] {
    }
    assert all == a + b;
    FlattenAppend(a, b);
  }

  function WithParent(chunk: Chunk, group: seq<Block>): Chunk {
    chunk.(locator := chunk.locator.(parent :=
    Some(ParentLocator(Ids(group), SortedPages(group), Locators(group)))))
  }

  function WithParents(chunks: seq<Chunk>, group: seq<Block>): (r: seq<Chunk>)
    ensures |r| == |chunks|
    ensures forall i :: 0 <= i < |r| ==> r[i] == WithParent(chunks[i], group)
  {
    seq(|chunks|, i requires 0 <= i < |chunks| => WithParent(chunks[i], group))
  }

  function GroupChunks(group: seq<Block>): seq<Chunk>
    requires group != []
  {
    WithParents(AllUnitChunks(UnitsFrom(group, []), ContextOf(group)), group)
  }

  function GroupChunkLists(groups: seq<seq<Block>>): (r: seq<seq<Chunk>>)
    requires forall g :: 0 <= g < |groups| ==> groups[g] != []
    ensures |r| == |groups|
  {
    seq(|groups|, g requires 0 <= g < |groups| => GroupChunks(groups[g]))
  }

  function AllGroupChunks(groups: seq<seq<Block>>): seq<Chunk>
    requires forall g :: 0 <= g < |groups| ==> groups[g] != []
  {
    Flatten(GroupChunkLists(groups))
  }

  lemma {:induction false} GroupsNotEmpty(clean: seq<Block>, boundaries: set<string>)
    ensures forall g :: 0 <= g < |GroupsFrom(clean, [], boundaries)| ==> GroupsFrom(clean, [], boundaries)[g] != []
  {
    GroupsExact(clean, [], boundaries);
  }

  /** What `segment` returns. */
  ghost function Segmented(blocks: seq<Block>, kind: DocumentKind, plan: nat -> seq<string>)
    : Result<seq<Chunk>, SegmentError>
  {
    var clean := Usable(blocks);
    if clean == [] then Err(NoUsableContent)
    else if !Distinct(Ids(clean)) then Err(DuplicateBlockIds)
    else
      match Boundaries(clean, kind, plan)
      case Err(e) => Err(e)
      case Ok(boundaries) =>
        GroupsNotEmpty(clean, boundaries);
        Ok(AllGroupChunks(GroupsFrom(clean, [], boundaries)))
  }

  // ---------------------------------------------------------------- the algorithm

  method CutTable(block: Block, ctx: Context) returns (chunks: seq<Chunk>)
    ensures chunks == UnitChunks(Rows(block), ctx)
  {
    var lines := SplitLines(block.text);
    chunks := [];
    var offset := 2;
    while offset < Max(3, |lines|)
      invariant offset >= 2
      invariant chunks + RowChunksFrom(block, lines, offset, ctx) == RowChunksFrom(block, lines, 2, ctx)
    {
      chunks := chunks + [RowChunk(block, lines, offset, ctx)];
      offset := offset + ROWS_PER_CHUNK;
    }
  }

  lemma {:induction false} PartsNext(sentences: seq<string>, i: nat, part: string, emitted: seq<string>)
    requires i < |sentences|
    ensures var (done, open) := TakeSentence(part, sentences[i]);
            emitted + PartsFrom(sentences[i..], part) == (emitted + done) + PartsFrom(sentences[i + 1..], open)
  {
    var (done, open) := TakeSentence(part, sentences[i]);
    assert sentences[i..][0] == sentences[i] && sentences[i..][1..] == sentences[i + 1..];
    Associative(emitted, done, PartsFrom(sentences[i + 1..], open));
  }

  method CutOversize(block: Block, ctx: Context) returns (chunks: seq<Chunk>)
    ensures chunks == UnitChunks(Oversize(block), ctx)
  {
    var sentences := SplitSentences(block.text);
    ghost var emitted := [];
    var part := "";
    chunks := [];
    for i := 0 to |sentences|
      invariant chunks == PartChunks(block, emitted, ctx)
      invariant Parts(block.text) == emitted + PartsFrom(sentences[i..], part)
    {
      PartsNext(sentences, i, part, emitted);
      chunks, part, emitted := AddSentence(block, chunks, part, sentences[i], ctx, emitted);
    }
    if part != "" {
      chunks := chunks + [PartChunk(block, part, ctx)];
      emitted := emitted + [part];
    }
  }

  method AddSentence(block: Block, chunks: seq<Chunk>, part: string, sentence: string, ctx: Context,
                     ghost emitted: seq<string>)
    returns (chunks': seq<Chunk>, part': string, ghost emitted': seq<string>)
    requires chunks == PartChunks(block, emitted, ctx)
    ensures var (done, open) := TakeSentence(part, sentence); emitted' == emitted + done && part' == open
    ensures chunks' == PartChunks(block, emitted', ctx)
  {
    chunks', part', emitted' := chunks, part, emitted;
    if |part| + |sentence| > PART_LIMIT && part != "" {
      chunks' := chunks' + [PartChunk(block, part, ctx)];
      emitted' := emitted' + [part];
      part' := "";
    }
    ghost var (done, open) := FragmentsFrom(sentence, 0, part');
    ghost var before := emitted';
    assert emitted + ([part] + done) == (emitted + [part]) + done;
    var offset := 0;
    while offset < |sentence|
      invariant chunks' == PartChunks(block, emitted', ctx)
      invariant var (d, o) := FragmentsFrom(sentence, offset, part'); before + done == emitted' + d && open == o
    {
      var fragment := sentence[offset..Min(offset + PART_LIMIT, |sentence|)];
      if |part'| + |fragment| > PART_LIMIT {
        chunks' := chunks' + [PartChunk(block, part', ctx)];
        emitted' := emitted' + [part'];
        part' := "";
      }
      part' := part' + fragment;
      assert "" + fragment == fragment;
      offset := offset + PART_LIMIT;
    }
  }

  method CutGroup(group: seq<Block>) returns (chunks: seq<Chunk>)
    requires group != []
    ensures chunks == GroupChunks(group)
  {
    var ctx := ContextOf(group);
    chunks := CutBlocks(group, ctx);
    chunks := AttachParents(chunks, group);
  }

  lemma {:induction false} UnitsNext(group: seq<Block>, i: nat, buffer: seq<Block>, done: seq<Unit>)
    requires i < |group|
    ensures var (units, rest) := TakeBlock(buffer, group[i]);
            done + UnitsFrom(group[i..], buffer) == (done + units) + UnitsFrom(group[i + 1..], rest)
  {
    var (units, rest) := TakeBlock(buffer, group[i]);
    assert group[i..][0] == group[i] && group[i..][1..] == group[i + 1..];
    Associative(done, units, UnitsFrom(group[i + 1..], rest));
  }

  method CutBlocks(group: seq<Block>, ctx: Context) returns (chunks: seq<Chunk>)
    ensures chunks == AllUnitChunks(UnitsFrom(group, []), ctx)
  {
    chunks := [];
    var buffer: seq<Block> := [];
    ghost var done: seq<Unit> := [];
    for i := 0 to |group|
      invariant UnitsFrom(group, []) == done + UnitsFrom(group[i..], buffer)
      invariant chunks == AllUnitChunks(done, ctx)
    {
      UnitsNext(group, i, buffer, done);
      chunks, buffer, done := AddBlock(chunks, buffer, group[i], ctx, done);
    }
    chunks, done := AppendBuffer(chunks, buffer, ctx, done);
  }

  method AddBlock(chunks: seq<Chunk>, buffer: seq<Block>, block: Block, ctx: Context, ghost done: seq<Unit>)
    returns (chunks': seq<Chunk>, buffer': seq<Block>, ghost done': seq<Unit>)
    requires chunks == AllUnitChunks(done, ctx)
    ensures var (units, rest) := TakeBlock(buffer, block); done' == done + units && buffer' == rest
    ensures chunks' == AllUnitChunks(done', ctx)
  {
    if block.kind == Table {
      chunks', done' := AppendBuffer(chunks, buffer, ctx, done);
      buffer' := [];
      var rows := CutTable(block, ctx);
      chunks', done' := AppendUnit(chunks', rows, Rows(block), ctx, done');
    } else if |block.text| > PART_LIMIT {
      chunks', done' := AppendBuffer(chunks, buffer, ctx, done);
      buffer' := [];
      var parts := CutOversize(block, ctx);
      chunks', done' := AppendUnit(chunks', parts, Oversize(block), ctx, done');
    } else {
      chunks', buffer', done' := chunks, buffer, done;
      if TotalLength(Texts(buffer)) + |block.text| > BUFFER_LIMIT {
        chunks', done' := AppendBuffer(chunks, buffer, ctx, done);
        buffer' := [];
      }
      buffer' := buffer' + [block];
    }
  }

  method AttachParents(cut: seq<Chunk>, group: seq<Block>) returns (chunks: seq<Chunk>)
    ensures chunks == WithParents(cut, group)
  {
    chunks := cut;
    var i := 0;
    while i < |chunks|
      invariant 0 <= i <= |chunks| == |cut|
      invariant forall k :: 0 <= k < i ==> chunks[k] == WithParent(cut[k], group)
      invariant forall k :: i <= k < |chunks| ==> chunks[k] == cut[k]
    {
      chunks := chunks[i := WithParent(chunks[i], group)];
      i := i + 1;
    }
  }

  method AppendUnit(chunks: seq<Chunk>, more: seq<Chunk>, ghost unit: Unit, ctx: Context, ghost done: seq<Unit>)
    returns (r: seq<Chunk>, ghost done': seq<Unit>)
    requires chunks == AllUnitChunks(done, ctx) && more == UnitChunks(unit, ctx)
    ensures done' == done + [unit] && r == chunks + more && r == AllUnitChunks(done', ctx)
  {
    r, done' := chunks + more, done + [unit];
    AllUnitChunksAppend(done, [unit], ctx);
    assert UnitChunkLists([unit], ctx) == [more];
    assert Flatten([more]) == more + Flatten([]);
  }

  method AppendBuffer(chunks: seq<Chunk>, buffer: seq<Block>, ctx: Context, ghost done: seq<Unit>)
    returns (r: seq<Chunk>, ghost done': seq<Unit>)
    requires chunks == AllUnitChunks(done, ctx)
    ensures done' == done + Flush(buffer) && r == AllUnitChunks(done', ctx)
  {
    r, done' := chunks, done;
    if buffer != [] {
      r, done' := AppendUnit(chunks, [RunChunk(buffer, ctx)], Run(buffer), ctx, done);
    }
  }

  method FindBoundaries(clean: seq<Block>, kind: DocumentKind, plan: nat -> seq<string>)
    returns (r: Result<set<string>, SegmentError>)
    ensures r == Boundaries(clean, kind, plan)
  {
    var boundaries: set<string> := {};
    if PlansBoundaries(kind) {
      var start := 0;
      while start < |clean|
        invariant Boundaries(clean, kind, plan) == BoundariesFrom(clean, start, plan, boundaries)
        decreases |clean| - start
      {
        if !AnswersKnown(clean, start, plan) {
          return Err(UnknownBoundary);
        }
        boundaries := boundaries + set id | id in plan(start);
        start := start + BATCH;
      }
    }
    r := Ok(boundaries);
  }

  method FormGroups(clean: seq<Block>, boundaries: set<string>) returns (groups: seq<seq<Block>>)
    ensures groups == GroupsFrom(clean, [], boundaries)
  {
    groups := [];
    var current: seq<Block> := [];
    for i := 0 to |clean|
      invariant GroupsFrom(clean, [], boundaries) == groups + GroupsFrom(clean[i..], current, boundaries)
    {
      var block := clean[i];
      assert clean[i..][0] == block && clean[i..][1..] == clean[i + 1..];
      if Cuts(block, boundaries) && current != [] {
        assert GroupsFrom(clean[i..], current, boundaries) ==
                 [current] + GroupsFrom(clean[i + 1..], [block], boundaries);
        groups := groups + [current];
        current := [];
      }
      current := current + [block];
      assert [] + [block] == [block];
    }
    if current != [] {
      groups := groups + [current];
    }
  }

  /** `segment`: the parsed blocks, the document kind, and the model's answer for the batch
      that begins at a given position. */
  method Segment(blocks: seq<Block>, kind: DocumentKind, plan: nat -> seq<string>)
    returns (r: Result<seq<Chunk>, SegmentError>)
    ensures r == Segmented(blocks, kind, plan)
  {
    var clean := Usable(blocks);
    if clean == [] {
      return Err(NoUsableContent);
    }
    DistinctCount(Ids(clean));
    if |set id | id in Ids(clean)| != |clean| {
      return Err(DuplicateBlockIds);
    }
    var planned := FindBoundaries(clean, kind, plan);
    if planned.Err? {
      return Err(planned.error);
    }
    var boundaries := planned.value;
    var groups := FormGroups(clean, boundaries);
    GroupsNotEmpty(clean, boundaries);
    var chunks := CutGroups(groups);
    r := Ok(chunks);
  }

  method CutGroups(groups: seq<seq<Block>>) returns (chunks: seq<Chunk>)
    requires forall g :: 0 <= g < |groups| ==> groups[g] != []
    ensures chunks == AllGroupChunks(groups)
  {
    chunks := [];
    ghost var lists := GroupChunkLists(groups);
    for g := 0 to |groups|
      invariant chunks == Flatten(lists[..g])
    {
      var more := CutGroup(groups[g]);
      FlattenNext(lists, g);
      chunks := chunks + more;
    }
    assert lists[..|groups|] == lists;
  }

  /** `len(set(xs)) == len(xs)` is the test for distinct elements. */
  lemma {:induction false} DistinctCount(xs: seq<string>)
    ensures |set x | x in xs| == |xs| <==> Distinct(xs)
    ensures |set x | x in xs| <= |xs|
  {
    if xs != [] {
      var init, last := xs[..|xs| - 1], xs[|xs| - 1];
      DistinctCount(init);
      assert (set x | x in xs) == (set x | x in init) + {last};
      DistinctLast(init, last);
      assert xs == init + [last];
    }
  }

  lemma DistinctLast(init: seq<string>, last: string)
    ensures Distinct(init + [last]) <==> Distinct(init) && last !in init
  {
    var xs := init + [last];
    if last in init {
      var i :| 0 <= i < |init| && init[i] == last;
      assert xs[i] == xs[|init|];
    } else {
      assert Distinct(xs) ==> Distinct(init) by {
        assert forall i :: 0 <= i < |init| ==> xs[i] == init[i];
      }
    }
  }
}
