/** Effective intervals of a document's published versions, and which versions a reader may see. */
module Publication {
  import opened Common

  type DocumentId = nat

  datatype Status = Uploading | Uploaded | Processing | Failed | Review | Approved | Rejected | Published | Withdrawn

  /** Half open; no end means in force until further notice. */
  datatype Period = Period(from: int, to: Option<int>)

  predicate NonEmpty(p: Period) {
    p.to.Some? ==> p.from < p.to.value
  }

  predicate InForce(p: Period, at: int) {
    p.from <= at && (p.to.None? || p.to.value > at)
  }

  predicate Apart(p: Period, q: Period) {
    (p.to.Some? && p.to.value <= q.from) || (q.to.Some? && q.to.value <= p.from)
  }

  /** Apart is exactly: no instant lies in both. */
  lemma ApartExact(p: Period, q: Period)
    requires NonEmpty(p) && NonEmpty(q)
    ensures Apart(p, q) <==> forall at :: !(InForce(p, at) && InForce(q, at))
  {
    if !Apart(p, q) {
      var at := if p.from <= q.from then q.from else p.from;
      assert InForce(p, at) && InForce(q, at);
    }
  }

  /** An earlier publication ends where the new one begins. */
  function Truncated(p: Period, from: int): Period {
    if p.to.None? || p.to.value > from then p.(to := Some(from)) else p
  }

  /** Publishing a period after earlier ones keeps all of them apart and non-empty. */
  lemma TruncatedApart(p: Period, q: Period, next: Period)
    requires NonEmpty(p) && NonEmpty(q) && Apart(p, q) && p.from < next.from && q.from < next.from
    ensures NonEmpty(Truncated(p, next.from)) && Apart(Truncated(p, next.from), next)
    ensures Apart(Truncated(p, next.from), Truncated(q, next.from))
    ensures forall at :: InForce(Truncated(p, next.from), at) <==> InForce(p, at) && at < next.from
  {
  }

  datatype PublishError = NotReady | NotAfterPublished

  class KnowledgeVersion {
    const id: VersionId
    const document: DocumentId
    var status: Status
    var effectiveFrom: int
    var effectiveTo: Option<int>
    var indexesReady: bool

    constructor (id: VersionId, document: DocumentId, effectiveFrom: int, effectiveTo: Option<int>)
      ensures this.id == id && this.document == document && status == Uploading && !indexesReady
      ensures Effective() == Period(effectiveFrom, effectiveTo)
    {
      this.id, this.document := id, document;
      this.effectiveFrom, this.effectiveTo := effectiveFrom, effectiveTo;
      status, indexesReady := Uploading, false;
    }

    ghost function Effective(): Period
      reads this
    {
      Period(effectiveFrom, effectiveTo)
    }

    /** `others` are the other published versions of the document. A refusal in the middle of the
        loop is rolled back: their ends are as they were. */
    method Publish(others: seq<KnowledgeVersion>, ghost was: seq<Period>) returns (r: Result<(), PublishError>)
      requires Distinct(others) && this !in others && |was| == |others|
      requires forall i :: 0 <= i < |others| ==> was[i] == others[i].Effective()
      modifies this`status, set row | row in others
      ensures r == Err(NotReady) <==> !(old(status) == Approved && indexesReady)
      ensures r == Err(NotAfterPublished) <==>
                old(status) == Approved && indexesReady && exists p :: p in was && p.from >= effectiveFrom
      ensures r.Err? ==> status == old(status) && forall i :: 0 <= i < |others| ==> others[i].Effective() == was[i]
      ensures r.Ok? ==> status == Published
      ensures r.Ok? ==> forall i :: 0 <= i < |others| ==> others[i].Effective() == Truncated(was[i], effectiveFrom)
      ensures forall i :: 0 <= i < |others| ==> others[i].status == old(others[i].status)
    {
      if status != Approved || !indexesReady {
        return Err(NotReady);
      }
      var saved := Ends(others);
      for i := 0 to |others|
        invariant status == old(status)
        invariant forall k :: 0 <= k < i ==>
                    others[k].Effective() == Truncated(was[k], effectiveFrom) && was[k].from < effectiveFrom
        invariant forall k :: i <= k < |others| ==> others[k].Effective() == was[k]
        invariant forall k :: 0 <= k < |others| ==> others[k].status == old(others[k].status)
      {
        var previous := others[i];
        if previous.effectiveFrom >= effectiveFrom {
          assert was[i] in was;
          Rollback(others, saved);
          return Err(NotAfterPublished);
        }
        if previous.effectiveTo.None? || previous.effectiveTo.value > effectiveFrom {
          previous.effectiveTo := Some(effectiveFrom);
        }
      }
      status := Published;
      return Ok(());
    }
  }

  method Ends(rows: seq<KnowledgeVersion>) returns (ends: seq<Option<int>>)
    ensures |ends| == |rows| && forall i :: 0 <= i < |rows| ==> ends[i] == rows[i].effectiveTo
  {
    ends := [];
    for i := 0 to |rows|
      invariant |ends| == i && forall k :: 0 <= k < i ==> ends[k] == rows[k].effectiveTo
    {
      ends := ends + [rows[i].effectiveTo];
    }
  }

  /** The session's rollback: the rows have the ends they had in the database. */
  method Rollback(rows: seq<KnowledgeVersion>, ends: seq<Option<int>>)
    requires Distinct(rows) && |ends| == |rows|
    modifies set row | row in rows
    ensures forall i :: 0 <= i < |rows| ==> rows[i].Effective() == Period(old(rows[i].effectiveFrom), ends[i])
    ensures forall i :: 0 <= i < |rows| ==> rows[i].status == old(rows[i].status)
  {
    for i := 0 to |rows|
      invariant forall k :: 0 <= k < i ==> rows[k].effectiveTo == ends[k]
      invariant forall k :: 0 <= k < |rows| ==>
                  rows[k].effectiveFrom == old(rows[k].effectiveFrom) && rows[k].status == old(rows[k].status)
    {
      rows[i].effectiveTo := ends[i];
    }
  }

  // ---------------------------------------------------------------- the reader's side

  const SCOPE_LIMIT: nat := 2000

  datatype Row = Row(id: VersionId, document: DocumentId, status: Status, period: Period, equipment: seq<string>)

  /** `at` is the asked-for instant, or now. */
  datatype Search = Search(versionIds: seq<VersionId>, at: int, equipmentModel: string)

  datatype ScopeError = ScopeTooLarge

  predicate Selected(row: Row, search: Search) {
    && row.status == Published
    && if search.versionIds != [] then row.id in search.versionIds else InForce(row.period, search.at)
  }

  predicate Fits(row: Row, search: Search) {
    search.equipmentModel == "" || row.equipment == [] || search.equipmentModel in row.equipment
  }

  predicate Shown(row: Row, search: Search, authorized: Row -> bool) {
    Selected(row, search) && authorized(row) && Fits(row, search)
  }

  function ShownRows(rows: seq<Row>, search: Search, authorized: Row -> bool): seq<Row> {
    if rows == [] then []
    else
      var before := ShownRows(rows[..|rows| - 1], search, authorized);
      var last := rows[|rows| - 1];
      if Shown(last, search, authorized) then before + [last] else before
  }

  method VisibleVersions(rows: seq<Row>, search: Search, authorized: Row -> bool)
    returns (r: Result<seq<Row>, ScopeError>)
    ensures |ShownRows(rows, search, authorized)| > 2000 ==> r == Err(ScopeTooLarge)
    ensures |ShownRows(rows, search, authorized)| <= 2000 ==> r == Ok(ShownRows(rows, search, authorized))
  {
    var visible := [];
    for i := 0 to |rows|
      invariant visible == ShownRows(rows[..i], search, authorized)
    {
      var row := rows[i];
      assert rows[..i + 1][..i] == rows[..i];
      if !Selected(row, search) || !authorized(row) {
        continue;
      }
      if search.equipmentModel != "" && row.equipment != [] && search.equipmentModel !in row.equipment {
        continue;
      }
      visible := visible + [row];
    }
    assert rows[..|rows|] == rows;
    if |visible| > SCOPE_LIMIT {
      return Err(ScopeTooLarge);
    }
    return Ok(visible);
  }

  /** Published, named by the search or, if it names none, in force at its instant; authorized; and for
      the equipment asked for, if any, unless it is for all. */
  ghost predicate Readable(row: Row, search: Search, authorized: Row -> bool) {
    && row.status == Published && authorized(row)
    && (search.versionIds != [] ==> row.id in search.versionIds)
    && (search.versionIds == [] ==>
          row.period.from <= search.at && (row.period.to.Some? ==> search.at < row.period.to.value))
    && (search.equipmentModel != "" && row.equipment != [] ==> search.equipmentModel in row.equipment)
  }

  /** Shown are exactly the readable rows, in the order of the table. */
  lemma {:induction false} ShownExact(rows: seq<Row>, search: Search, authorized: Row -> bool)
    returns (kept: seq<nat>)
    ensures Picks(rows, ShownRows(rows, search, authorized), kept)
    ensures forall i: nat :: i < |rows| ==> (i in kept <==> Readable(rows[i], search, authorized))
  {
    if rows == [] {
      kept := [];
    } else {
      var n := |rows| - 1;
      var before := ShownExact(rows[..n], search, authorized);
      kept := ShownLast(rows, search, authorized, before);
    }
  }

  lemma ShownLast(rows: seq<Row>, search: Search, authorized: Row -> bool, before: seq<nat>) returns (kept: seq<nat>)
    requires rows != [] && Picks(rows[..|rows| - 1], ShownRows(rows[..|rows| - 1], search, authorized), before)
    requires forall i: nat :: i < |rows| - 1 ==> (i in before <==> Readable(rows[..|rows| - 1][i], search, authorized))
    ensures Picks(rows, ShownRows(rows, search, authorized), kept)
    ensures forall i: nat :: i < |rows| ==> (i in kept <==> Readable(rows[i], search, authorized))
  {
    var n := |rows| - 1;
    PicksMore(rows, ShownRows(rows[..n], search, authorized), before);
    kept := if Shown(rows[n], search, authorized) then before + [n] else before;
    forall i: nat | i < |rows| ensures i in kept <==> Readable(rows[i], search, authorized) {
      assert i < n ==> rows[..n][i] == rows[i];
      assert n !in before by {
        assert forall k :: 0 <= k < |before| ==> before[k] < n;
      }
    }
  }

  /** What every reachable state keeps, read off a table of version rows. */
  ghost predicate DisjointPublications(rows: seq<Row>) {
    && (forall row :: row in rows ==> NonEmpty(row.period))
    && (forall i, j :: 0 <= i < j < |rows| && rows[i].document == rows[j].document
                       && rows[i].status == Published && rows[j].status == Published ==>
          Apart(rows[i].period, rows[j].period))
  }

  /** A search at an instant, naming no versions, sees at most one version of each document. */
  lemma {:induction false} OneVersionPerDocument(rows: seq<Row>, search: Search, authorized: Row -> bool)
    requires DisjointPublications(rows) && search.versionIds == []
    ensures forall i, j :: 0 <= i < j < |ShownRows(rows, search, authorized)| ==>
              ShownRows(rows, search, authorized)[i].document != ShownRows(rows, search, authorized)[j].document
  {
    var shown := ShownRows(rows, search, authorized);
    var kept := ShownExact(rows, search, authorized);
    forall i, j | 0 <= i < j < |shown| ensures shown[i].document != shown[j].document {
      assert kept[i] in kept && kept[j] in kept;
      assert rows[kept[i]] in rows && rows[kept[j]] in rows;
      ApartExact(rows[kept[i]].period, rows[kept[j]].period);
      assert InForce(rows[kept[i]].period, search.at) && InForce(rows[kept[j]].period, search.at);
    }
  }
}
