/** Answers: every claim must quote retrieved evidence word for word. */
module Answers {
  import opened Common
  import opened Retrieval
  import opened Text

  datatype Citation = Citation(evidence: ChunkId, quote: string)

  datatype Claim = Claim(text: string, citations: seq<Citation>)

  datatype Answer = Answer(claims: seq<Claim>, conflicts: seq<string>, unknowns: seq<string>, refused: bool)

  datatype Verification = Verification(supported: bool, issues: seq<string>)

  datatype AnswerError = FabricatedCitation | Retrieving(error: RetrievalError)

  ghost predicate Cited(c: Citation, evidence: seq<Evidence>) {
    exists k :: 0 <= k < |evidence| && evidence[k].id == c.evidence && Contains(evidence[k].text, c.quote)
  }

  /** At least one citation, and every citation a verbatim substring of the evidence it names. */
  ghost predicate Grounded(claim: Claim, evidence: seq<Evidence>) {
    claim.citations != [] && forall c :: c in claim.citations ==> Cited(c, evidence)
  }

  const NO_EVIDENCE := Answer([], [], ["no accessible evidence"], true)

  /** `grounded_answer`: `drafted` is whatever the model answered, `check` whatever it verified. */
  method GroundedAnswer(evidence: seq<Evidence>, drafted: Answer, check: Verification)
    returns (r: Result<Answer, AnswerError>)
    requires Distinct(EvidenceIds(evidence))
    ensures evidence == [] ==>
              r.Ok? && r.value.claims == [] && r.value.conflicts == [] && r.value.refused && |r.value.unknowns| == 1
    ensures r.Ok? && evidence != [] && (drafted.claims == [] || check.supported) ==> r.value == drafted
    ensures r.Ok? ==> forall claim :: claim in r.value.claims ==> Grounded(claim, evidence)
    ensures r.Ok? && r.value.claims != [] ==> r.value == drafted && check.supported
    ensures r.Ok? && evidence != [] && drafted.claims != [] && !check.supported ==>
              r.value.refused && r.value.claims == [] && r.value.conflicts == check.issues && |r.value.unknowns| == 1
    // Nothing faithful is turned away.
    ensures r.Err? <==> evidence != [] && exists claim :: claim in drafted.claims && !Grounded(claim, evidence)
  {
    if evidence == [] {
      return Ok(NO_EVIDENCE);
    }
    for i := 0 to |drafted.claims|
      invariant forall k :: 0 <= k < i ==> Grounded(drafted.claims[k], evidence)
    {
      var claim := drafted.claims[i];
      if claim.citations == [] {
        assert claim in drafted.claims && !Grounded(claim, evidence);
        return Err(FabricatedCitation);
      }
      for j := 0 to |claim.citations|
        invariant forall k :: 0 <= k < j ==> Cited(claim.citations[k], evidence)
      {
        var c := claim.citations[j];
        if k: nat :| k < |evidence| && evidence[k].id == c.evidence {
          if !Contains(evidence[k].text, c.quote) {
            OnlyEvidence(evidence, k, c);
            assert c in claim.citations && claim in drafted.claims && !Grounded(claim, evidence);
            return Err(FabricatedCitation);
          }
        } else {
          assert !Cited(c, evidence);
          assert c in claim.citations && claim in drafted.claims && !Grounded(claim, evidence);
          return Err(FabricatedCitation);
        }
      }
    }
    if drafted.claims != [] && !check.supported {
      return Ok(Answer([], check.issues, ["evidence check failed"], true));
    }
    return Ok(drafted);
  }

  lemma OnlyEvidence(evidence: seq<Evidence>, k: nat, c: Citation)
    requires Distinct(EvidenceIds(evidence)) && k < |evidence| && evidence[k].id == c.evidence
    requires !Contains(evidence[k].text, c.quote)
    ensures !Cited(c, evidence)
  {
    forall j | 0 <= j < |evidence| && evidence[j].id == c.evidence ensures j == k {
      assert EvidenceIds(evidence)[j] == EvidenceIds(evidence)[k];
    }
  }

  /** A quote from stored text of a version the asker may see. */
  ghost predicate FromVisible(c: Citation, table: seq<Row>, visible: Scope) {
    exists row :: row in table && row.version in visible && row.id == c.evidence
                  && (Contains(row.text, c.quote) || Contains(row.parentText, c.quote))
  }

  /** Retrieval and answering together: whatever the indexes, the reranker and the model return,
      every claim quotes the stored text of visible versions. */
  method AnswerQuestion(table: seq<Row>, visible: Scope, lanes: seq<Lane>, rerank: seq<nat>, global: bool, limit: nat,
                        draft: seq<Evidence> -> Answer, check: Answer -> Verification)
    returns (r: Result<Answer, AnswerError>, ghost retrieved: Result<seq<Evidence>, RetrievalError>,
             ghost best: seq<ChunkId>)
    requires limit >= 1 && UniqueIds(table)
    ensures global ==> retrieved == if |Visible(table, visible)| > 1000 then Err(ScopeTooLarge)
                                    else Ok(Chosen(Visible(table, visible), true, limit))
    ensures !global ==>
              BestIds(lanes, visible, best) && retrieved == FusedEvidence(table, visible, best, rerank, limit)
    ensures retrieved.Err? ==> r == Err(Retrieving(retrieved.error))
    ensures retrieved.Ok? ==>
              var evidence := retrieved.value;
              (r.Err? <==> evidence != []
                           && exists claim :: claim in draft(evidence).claims && !Grounded(claim, evidence))
    ensures r.Ok? && r.value.claims != [] ==>
              retrieved.Ok? && r.value == draft(retrieved.value) && check(r.value).supported
    ensures r.Ok? ==>
              forall claim, c :: claim in r.value.claims && c in claim.citations ==> FromVisible(c, table, visible)
    ensures r.Ok? ==> forall claim :: claim in r.value.claims ==> claim.citations != []
    ensures visible == map[] ==> r.Ok? && r.value.claims == [] && r.value.refused
  {
    var outcome, ids := Retrieve(table, visible, lanes, rerank, global, limit);
    retrieved, best := outcome, ids;
    if outcome.Err? {
      return Err(Retrieving(outcome.error)), outcome, ids;
    }
    var evidence := outcome.value;
    var drafted := draft(evidence);
    r := GroundedAnswer(evidence, drafted, check(drafted));
    if r.Ok? {
      forall claim, c | claim in r.value.claims && c in claim.citations ensures FromVisible(c, table, visible) {
        assert Grounded(claim, evidence);
        CitedVisible(c, evidence, table, visible);
      }
    }
  }

  lemma CitedVisible(c: Citation, evidence: seq<Evidence>, table: seq<Row>, visible: Scope)
    requires Cited(c, evidence) && Sourced(evidence, table, visible)
    ensures FromVisible(c, table, visible)
  {
    var k :| 0 <= k < |evidence| && evidence[k].id == c.evidence && Contains(evidence[k].text, c.quote);
    assert FromRow(evidence[k], table, visible);
    var row :| row in table && row.version in visible && Says(evidence[k], row);
  }
}
