/** Answers over the knowledge base: what a citation quotes in any reachable state of ingestion. */
module Grounding {
  import opened Common
  import opened Answers
  import opened Text
  import IndexAgreement
  import Ingestion
  import Lifecycle
  import Publication
  import Retrieval

  /** The chunk table as retrieval reads it, in any order. */
  ghost predicate ChunkTable(w: Ingestion.World, table: seq<Retrieval.Row>) {
    Retrieval.UniqueIds(table) && forall row :: row in table ==> ChunkRow(w, row)
  }

  ghost predicate ChunkRow(w: Ingestion.World, row: Retrieval.Row) {
    && row.version in w.versions && row.id.ChunkId? && row.id.version == row.version
    && row.id.ordinal < |w.versions[row.version].chunks|
    && row.text == w.versions[row.version].chunks[row.id.ordinal].text
    && row.parentText == w.versions[row.version].chunks[row.id.ordinal].parentText
  }

  /** The visible versions: published ones, each under its generation. */
  ghost predicate PublishedScope(w: Ingestion.World, visible: Retrieval.Scope) {
    forall v :: v in visible ==>
      && v in w.versions && w.versions[v].status == Publication.Published && visible[v] == w.versions[v].generation
  }

  /** The citation names a chunk of a published version's current segmentation and quotes its text, or
      that of the group of blocks it was cut from, word for word. */
  ghost predicate QuotesCurrent(w: Ingestion.World, c: Citation) {
    && c.evidence.ChunkId? && c.evidence.version in w.versions
    && var r := w.versions[c.evidence.version];
    && r.status == Publication.Published && IndexAgreement.FromArtifact(r)
    && c.evidence.ordinal < |r.chunks|
    && var chunk := r.chunks[c.evidence.ordinal];
    Contains(chunk.text, c.quote) || Contains(chunk.parentText, c.quote)
  }

  lemma {:induction false} VisibleQuote(events: seq<Ingestion.Event>, table: seq<Retrieval.Row>,
                                        visible: Retrieval.Scope, c: Citation)
    requires ChunkTable(Ingestion.Run(Ingestion.EMPTY, events), table)
    requires PublishedScope(Ingestion.Run(Ingestion.EMPTY, events), visible)
    requires FromVisible(c, table, visible)
    ensures QuotesCurrent(Ingestion.Run(Ingestion.EMPTY, events), c)
  {
    var row :| row in table && row.version in visible && row.id == c.evidence
               && (Contains(row.text, c.quote) || Contains(row.parentText, c.quote));
    assert ChunkRow(Ingestion.Run(Ingestion.EMPTY, events), row);
    Lifecycle.PublishedContent(events, row.version);
  }

  /** In every state that ingestion, corrections, reviews and publications can reach: whatever the
      indexes, the reranker and the model return, each quote of each claim of a returned answer is
      text of the current segmentation of a published version. */
  method AnswerFromKnowledge(ghost events: seq<Ingestion.Event>, table: seq<Retrieval.Row>, visible: Retrieval.Scope,
                             lanes: seq<Retrieval.Lane>, rerank: seq<nat>, global: bool, limit: nat,
                             draft: seq<Retrieval.Evidence> -> Answer, check: Answer -> Verification)
    returns (r: Result<Answer, AnswerError>)
    requires limit >= 1
    requires ChunkTable(Ingestion.Run(Ingestion.EMPTY, events), table)
    requires PublishedScope(Ingestion.Run(Ingestion.EMPTY, events), visible)
    ensures r.Ok? ==>
              forall claim, c :: claim in r.value.claims && c in claim.citations ==>
                QuotesCurrent(Ingestion.Run(Ingestion.EMPTY, events), c)
    ensures r.Ok? ==> forall claim :: claim in r.value.claims ==> claim.citations != []
  {
    ghost var retrieved, best;
    r, retrieved, best := AnswerQuestion(table, visible, lanes, rerank, global, limit, draft, check);
    if r.Ok? {
      forall claim, c | claim in r.value.claims && c in claim.citations
        ensures QuotesCurrent(Ingestion.Run(Ingestion.EMPTY, events), c)
      {
        VisibleQuote(events, table, visible, c);
      }
    }
  }
}
