/** The numbered events of an answer run, and clients that follow them across reconnections. */
module EventStream {
  import opened Common
  import opened Jobs

  const PAGE: nat := 100

  datatype Row = Row(sequence: nat, kind: string, payload: string)

  /** The sequences are exactly 1, 2, ... in the order of the appends. */
  predicate Numbered(rows: seq<Row>) {
    forall i :: 0 <= i < |rows| ==> rows[i].sequence == i + 1
  }

  function Page(rows: seq<Row>, cursor: nat): seq<Row> {
    if cursor >= |rows| then []
    else if cursor + PAGE <= |rows| then rows[cursor..cursor + PAGE]
    else rows[cursor..]
  }

  class KnowledgeRun {
    var nextSequence: nat
    var rows: seq<Row>

    ghost predicate Valid()
      reads this
    {
      Numbered(rows) && nextSequence == |rows| + 1
    }

    constructor ()
      ensures Valid() && rows == []
    {
      nextSequence, rows := 1, [];
    }

    /** `append_event`, under the lock of the run row. */
    method Append(kind: string, payload: string)
      requires Valid()
      modifies this
      ensures Valid()
      ensures rows == old(rows) + [Row(old(nextSequence), kind, payload)]
    {
      var sequence := nextSequence;
      nextSequence := nextSequence + 1;
      rows := rows + [Row(sequence, kind, payload)];
    }

    /** The stream's query: later than the cursor, in order, at most a page. */
    method Read(cursor: nat) returns (page: seq<Row>)
      requires Valid()
      ensures page == Page(rows, cursor)
      ensures page == rows[Min(cursor, |rows|)..Min(cursor + 100, |rows|)]
    {
      page := [];
      var i := 0;
      while i < |rows| && |page| < PAGE
        invariant i <= |rows|
        invariant page == if i <= cursor then [] else rows[cursor..i]
        invariant |page| <= PAGE
      {
        if rows[i].sequence > cursor {
          page := page + [rows[i]];
        }
        i := i + 1;
      }
    }
  }

  // ---------------------------------------------------------------- appends, polls, reconnections

  /** A client that asked for events later than `after`. On the server's side of a connection, `cursor`
      is the last event sent and `seen` the run's status as read at the start of this round; `closed`
      says that the stream ended the connection with a final status. */
  datatype Client = Client(after: nat, received: seq<Row>, cursor: Option<nat>, seen: Option<Status>, closed: bool)

  datatype State = State(rows: seq<Row>, status: Status, client: Client)

  datatype Event =
    | Append(batch: seq<(string, string)>)       // the appends of one transaction
    | SetStatus(status: Status)
    | Connect                                    // with the last id received, if any
    | Look                                       // a round reads the run's status
    | Poll(sent: nat)                            // and then events; the client gets the first `sent` of them
    | Drop

  function Appended(rows: seq<Row>, batch: seq<(string, string)>): seq<Row>
    decreases |batch|
  {
    if batch == [] then rows
    else Appended(rows + [Row(|rows| + 1, batch[0].0, batch[0].1)], batch[1..])
  }

  function LastId(client: Client): nat {
    if client.received == [] then 0 else client.received[|client.received| - 1].sequence
  }

  function Polled(s: State, sent: nat): State {
    if s.client.cursor.None? || s.client.seen.None? then s
    else
      var page := Page(s.rows, s.client.cursor.value);
      if sent < |page| then
        s.(client := s.client.(received := s.client.received + page[..sent], cursor := None, seen := None))
      else
        var client := s.client.(received := s.client.received + page, seen := None);
        if Terminal(s.client.seen.value) && |page| < PAGE then
          s.(client := client.(cursor := None, closed := true))
        else if page == [] then s.(client := client)
        else s.(client := client.(cursor := Some(page[|page| - 1].sequence)))
  }

  function Apply(s: State, e: Event): State {
    match e
    case Append(batch) => s.(rows := Appended(s.rows, batch))
    case SetStatus(status) => s.(status := status)                // a retried run leaves its terminal status
    case Connect =>
      s.(client := s.client.(cursor := Some(Max(s.client.after, LastId(s.client))), seen := None, closed := false))
    case Look => if s.client.cursor.None? then s else s.(client := s.client.(seen := Some(s.status)))
    case Poll(sent) => Polled(s, sent)
    case Drop => s.(client := s.client.(cursor := None, seen := None))
  }

  function Run(s: State, events: seq<Event>): State
    decreases |events|
  {
    if events == [] then s else Run(Apply(s, events[0]), events[1..])
  }

  function Begin(after: nat): State {
    State([], Queued, Client(after, [], None, None, false))
  }

  /** The client holds the events after `after`, none missing and none twice. */
  predicate Follows(s: State) {
    var c := s.client;
    && Numbered(s.rows)
    && Received(s.rows, c.after, c.received)
    && (c.cursor.Some? ==> c.cursor.value == c.after + |c.received|)
  }

  lemma {:induction false} AppendedNumbered(rows: seq<Row>, batch: seq<(string, string)>)
    requires Numbered(rows)
    ensures Numbered(Appended(rows, batch)) && rows <= Appended(rows, batch)
    ensures |Appended(rows, batch)| == |rows| + |batch|
    decreases |batch|
  {
    if batch != [] {
      AppendedNumbered(rows + [Row(|rows| + 1, batch[0].0, batch[0].1)], batch[1..]);
    }
  }

  predicate Received(rows: seq<Row>, after: nat, received: seq<Row>) {
    received != [] ==> after + |received| <= |rows| && received == rows[after..after + |received|]
  }

  lemma Stretch<T>(s: seq<T>, a: nat, b: nat, c: nat)
    requires a <= b <= c <= |s|
    ensures s[a..b] + s[b..c] == s[a..c]
  {
  }

  lemma PagePrefix(rows: seq<Row>, cursor: nat, n: nat)
    requires 0 < n <= |Page(rows, cursor)|
    ensures cursor + n <= |rows| && Page(rows, cursor)[..n] == rows[cursor..cursor + n]
    ensures Page(rows, cursor)[n - 1] == rows[cursor + n - 1]
  {
  }

  /** Any prefix of a page continues what was received before. */
  lemma PageContinues(rows: seq<Row>, after: nat, received: seq<Row>, n: nat)
    requires Numbered(rows) && Received(rows, after, received)
    requires n <= |Page(rows, after + |received|)|
    ensures Received(rows, after, received + Page(rows, after + |received|)[..n])
    ensures n > 0 ==> Page(rows, after + |received|)[n - 1].sequence == after + |received| + n
  {
    var at := after + |received|;
    if n > 0 {
      PagePrefix(rows, at, n);
      Stretch(rows, after, at, at + n);
    }
  }

  lemma ReceivedMonotone(rows: seq<Row>, more: seq<Row>, after: nat, received: seq<Row>)
    requires rows <= more && Received(rows, after, received)
    ensures Received(more, after, received)
  {
    if received != [] {
      assert rows[after..after + |received|] == more[after..after + |received|];
    }
  }

  lemma PollFollows(s: State, sent: nat)
    requires Follows(s)
    ensures Follows(Polled(s, sent)) && s.client.received <= Polled(s, sent).client.received
  {
    var c := s.client;
    if c.cursor.Some? && c.seen.Some? {
      var page := Page(s.rows, c.cursor.value);
      if sent < |page| {
        PageContinues(s.rows, c.after, c.received, sent);
      } else {
        WholePageFollows(s, sent);
      }
    }
  }

  lemma WholePageFollows(s: State, sent: nat)
    requires Follows(s) && s.client.cursor.Some? && s.client.seen.Some?
    requires sent >= |Page(s.rows, s.client.cursor.value)|
    ensures Follows(Polled(s, sent)) && s.client.received <= Polled(s, sent).client.received
  {
    var c := s.client;
    var page := Page(s.rows, c.cursor.value);
    PageContinues(s.rows, c.after, c.received, |page|);
    assert page[..|page|] == page;
  }

  lemma ApplyFollows(s: State, e: Event)
    requires Follows(s)
    ensures Follows(Apply(s, e)) && s.rows <= Apply(s, e).rows && Apply(s, e).client.after == s.client.after
    ensures s.client.received <= Apply(s, e).client.received
  {
    match e
    case Append(batch) =>
      AppendedNumbered(s.rows, batch);
      ReceivedMonotone(s.rows, Appended(s.rows, batch), s.client.after, s.client.received);
    case Poll(sent) => PollFollows(s, sent);
    case _ =>
  }

  /** Over any interleaving of appends, polls, disconnections in the middle of a page and
      reconnections: the sequences are 1, 2, ..., and what the client received is the unbroken
      stretch of them right after its starting point. */
  lemma {:induction false} GapFree(s: State, events: seq<Event>)
    requires Follows(s)
    ensures Follows(Run(s, events)) && s.rows <= Run(s, events).rows
    ensures s.client.received <= Run(s, events).client.received
    decreases |events|
  {
    if events != [] {
      ApplyFollows(s, events[0]);
      GapFree(Apply(s, events[0]), events[1..]);
    }
  }

  lemma {:induction false} DeliveredInOrder(after: nat, events: seq<Event>)
    ensures var s := Run(Begin(after), events);
            && (forall i :: 0 <= i < |s.rows| ==> s.rows[i].sequence == i + 1)
            && (forall i :: 0 <= i < |s.client.received| ==>
                  s.client.received[i].sequence == after + i + 1 && s.client.received[i] in s.rows)
  {
    GapFree(Begin(after), events);
    AfterKept(Begin(after), events);
    var s := Run(Begin(after), events);
    forall i | 0 <= i < |s.client.received| ensures s.client.received[i] == s.rows[after + i] {
    }
  }

  lemma {:induction false} AfterKept(s: State, events: seq<Event>)
    ensures Run(s, events).client.after == s.client.after
    decreases |events|
  {
    if events != [] {
      AfterKept(Apply(s, events[0]), events[1..]);
    }
  }

  // ---------------------------------------------------------------- the end of a stream

  /** How many events the client has not received. */
  function Missing(s: State): int {
    if s.client.after >= |s.rows| then 0 else |s.rows| - s.client.after - |s.client.received|
  }

  predicate Closes(s: State, e: Event) {
    !s.client.closed && Apply(s, e).client.closed
  }

  /** A stream that ends by itself has delivered everything there was. */
  lemma ClosingPollDeliversAll(s: State, sent: nat)
    requires Follows(s) && Closes(s, Poll(sent))
    ensures Missing(Apply(s, Poll(sent))) == 0 && s.client.seen.Some? && Terminal(s.client.seen.value)
  {
  }

  /** Reconnecting with the last id brings the rest: once a round returns less than a page in full,
      nothing is missing. */
  lemma {:induction false} ReconnectCatchesUp(s: State, sent: nat)
    requires Follows(s)
    requires var c := Apply(s, Connect);
             var page := Page(c.rows, c.client.cursor.value);
             |page| < PAGE && |page| <= sent
    ensures Missing(Run(s, [Connect, Look, Poll(sent)])) == 0
  {
    ApplyFollows(s, Connect);
    RunSome(s, Connect, [Look, Poll(sent)]);
  }

  /** The transactions that change the run; the other events are the client's and its connection's. */
  predicate IsCommit(e: Event) {
    e.Append? || e.SetStatus?
  }

  function Commits(events: seq<Event>): seq<Event>
    decreases |events|
  {
    if events == [] then []
    else if IsCommit(events[0]) then [events[0]] + Commits(events[1..])
    else Commits(events[1..])
  }

  function AppendCount(events: seq<Event>): nat
    decreases |events|
  {
    if events == [] then 0 else (if events[0].Append? then |events[0].batch| else 0) + AppendCount(events[1..])
  }

  lemma {:induction false} RunConcat(s: State, first: seq<Event>, second: seq<Event>)
    ensures Run(s, first + second) == Run(Run(s, first), second)
    decreases |first|
  {
    if first == [] {
      assert first + second == second;
    } else {
      assert (first + second)[1..] == first[1..] + second;
      RunConcat(Apply(s, first[0]), first[1..], second);
    }
  }

  lemma {:induction false} CommitsConcat(first: seq<Event>, second: seq<Event>)
    ensures Commits(first + second) == Commits(first) + Commits(second)
    decreases |first|
  {
    if first == [] {
      assert first + second == second;
    } else {
      assert (first + second)[1..] == first[1..] + second;
      CommitsConcat(first[1..], second);
      Associative([first[0]], Commits(first[1..]), Commits(second));
    }
  }

  lemma {:induction false} AppendCountConcat(first: seq<Event>, second: seq<Event>)
    ensures AppendCount(first + second) == AppendCount(first) + AppendCount(second)
    decreases |first|
  {
    if first == [] {
      assert first + second == second;
    } else {
      assert (first + second)[1..] == first[1..] + second;
      AppendCountConcat(first[1..], second);
    }
  }

  /** Whatever the client does, the commits alone decide the events of the run and its status. */
  lemma {:induction false} CommitsDecide(s: State, t: State, events: seq<Event>)
    requires s.rows == t.rows && s.status == t.status
    ensures Run(s, events).rows == Run(t, Commits(events)).rows
    ensures Run(s, events).status == Run(t, Commits(events)).status
    decreases |events|
  {
    if events != [] {
      var s' := Apply(s, events[0]);
      if IsCommit(events[0]) {
        CommitsDecide(s', Apply(t, events[0]), events[1..]);
        assert Commits(events)[1..] == Commits(events[1..]);
      } else {
        CommitsDecide(s', t, events[1..]);
      }
    }
  }

  lemma {:induction false} RowCount(s: State, events: seq<Event>)
    requires Numbered(s.rows)
    ensures |Run(s, events).rows| == |s.rows| + AppendCount(events)
    decreases |events|
  {
    if events != [] {
      if events[0].Append? {
        AppendedNumbered(s.rows, events[0].batch);
      }
      RowCount(Apply(s, events[0]), events[1..]);
    }
  }

  lemma {:induction false} AppendCountCommits(events: seq<Event>)
    ensures AppendCount(events) == AppendCount(Commits(events))
    decreases |events|
  {
    if events != [] {
      AppendCountCommits(events[1..]);
      if IsCommit(events[0]) {
        assert Commits(events)[1..] == Commits(events[1..]);
      }
    }
  }

  predicate StaysAway(events: seq<Event>) {
    forall i :: 0 <= i < |events| ==> !events[i].Connect?
  }

  lemma {:induction false} AwayReceivesNothing(s: State, events: seq<Event>)
    requires s.client.cursor.None? && StaysAway(events)
    ensures Run(s, events).client.received == s.client.received
    decreases |events|
  {
    if events != [] {
      assert StaysAway(events[1..]) by {
        assert forall i :: 0 <= i < |events[1..]| ==> events[1..][i] == events[i + 1];
      }
      AwayReceivesNothing(Apply(s, events[0]), events[1..]);
    }
  }

  /** A client without a connection that does not come back misses exactly what is appended later. */
  lemma {:induction false} ClosedMissesLaterAppends(s: State, events: seq<Event>)
    requires Follows(s) && s.client.after <= |s.rows| && s.client.cursor.None? && StaysAway(events)
    ensures Missing(Run(s, events)) == Missing(s) + AppendCount(Commits(events))
  {
    AwayReceivesNothing(s, events);
    AfterKept(s, events);
    RowCount(s, events);
    AppendCountCommits(events);
  }

  lemma {:induction false} AwayMissing(s: State, events: seq<Event>)
    requires Follows(s) && s.client.cursor.None? && StaysAway(events)
    requires s.client.after + |s.client.received| == Max(s.client.after, |s.rows|)
    ensures var t := Run(s, events);
            s.client.after < |t.rows| ==> (Missing(t) == 0 <==> AppendCount(Commits(events)) == 0)
  {
    AfterKept(s, events);
    AwayReceivesNothing(s, events);
    RowCount(s, events);
    AppendCountCommits(events);
  }

  lemma {:induction false} LastAppendCounts(commits: seq<Event>)
    requires commits != [] ==> commits[|commits| - 1].Append? && commits[|commits| - 1].batch != []
    ensures AppendCount(commits) == 0 <==> commits == []
  {
    if commits != [] {
      var last := |commits| - 1;
      assert commits == commits[..last] + [commits[last]];
      AppendCountConcat(commits[..last], [commits[last]]);
    }
  }

  lemma {:induction false} CommitsAround(pre: seq<Event>, poll: Event, post: seq<Event>)
    requires poll.Poll?
    ensures Commits(pre + ([poll] + post)) == Commits(pre) + Commits(post)
  {
    CommitsConcat(pre, [poll] + post);
    assert ([poll] + post)[1..] == post;
  }

  /** The closing round against the run's last commit: a client that stays away once its stream has
      ended holds every event exactly when the stream ended after all commits. */
  lemma {:induction false} CompleteAfterLastCommit(after: nat, pre: seq<Event>, sent: nat, post: seq<Event>)
    requires Closes(Run(Begin(after), pre), Poll(sent)) && StaysAway(post)
    requires var commits := Commits(pre + ([Poll(sent)] + post));
             commits != [] && commits[|commits| - 1].Append? && commits[|commits| - 1].batch != []
    ensures var s := Run(Begin(after), pre + ([Poll(sent)] + post));
            after < |s.rows| ==> (Missing(s) == 0 <==> Commits(pre) == Commits(pre + ([Poll(sent)] + post)))
  {
    var s1 := Run(Begin(after), pre);
    var s2 := Apply(s1, Poll(sent));
    RunConcat(Begin(after), pre, [Poll(sent)] + post);
    RunOne(s1, Poll(sent), post);
    GapFree(Begin(after), pre);
    ApplyFollows(s1, Poll(sent));
    AfterKept(Begin(after), pre);
    AwayMissing(s2, post);
    CommitsAround(pre, Poll(sent), post);
    LastAppendCounts(Commits(post));
  }

  lemma {:induction false} RunOne(s: State, e: Event, rest: seq<Event>)
    ensures Run(s, [e] + rest) == Run(Apply(s, e), rest)
  {
    assert ([e] + rest)[1..] == rest;
  }

  /** Two or three further steps, one by one. */
  lemma {:induction false} RunSome(s: State, e: Event, rest: seq<Event>)
    requires 2 <= |rest| <= 3
    ensures Run(s, [e] + rest) == Run(Apply(Apply(Apply(s, e), rest[0]), rest[1]), rest[2..])
    ensures |rest| == 3 ==> Run(s, [e] + rest) == Apply(Apply(Apply(Apply(s, e), rest[0]), rest[1]), rest[2])
    ensures |rest| == 2 ==> Run(s, [e] + rest) == Apply(Apply(Apply(s, e), rest[0]), rest[1])
  {
    RunOne(s, e, rest);
    assert rest == [rest[0]] + rest[1..];
    RunOne(Apply(s, e), rest[0], rest[1..]);
    assert rest[1..] == [rest[1]] + rest[2..];
    RunOne(Apply(Apply(s, e), rest[0]), rest[1], rest[2..]);
    if |rest| == 3 {
      assert rest[2..][1..] == [];
    }
  }

  predicate AllCommits(events: seq<Event>) {
    forall i :: 0 <= i < |events| ==> IsCommit(events[i])
  }

  lemma {:induction false} CommitsKeepClient(s: State, commits: seq<Event>)
    requires AllCommits(commits)
    ensures Run(s, commits).client == s.client
    decreases |commits|
  {
    if commits != [] {
      assert AllCommits(commits[1..]) by {
        assert forall i :: 0 <= i < |commits[1..]| ==> commits[1..][i] == commits[i + 1];
      }
      CommitsKeepClient(Apply(s, commits[0]), commits[1..]);
    }
  }

  lemma {:induction false} EndsBetween(s: State, status: Status, batch: seq<(string, string)>)
    requires s.client == Client(0, [], Some(0), None, false)
    requires Numbered(s.rows) && |s.rows| < PAGE && Terminal(status)
    ensures var t := Run(s, [SetStatus(status)] + [Look, Poll(PAGE), Append(batch)]);
            t.client.closed && t.client.received == s.rows && Missing(t) == |batch|
  {
    RunSome(s, SetStatus(status), [Look, Poll(PAGE), Append(batch)]);
    var s1 := Apply(Apply(s, SetStatus(status)), Look);
    var page := Page(s.rows, 0);
    assert page == s.rows && [] + page == page;
    assert Apply(s1, Poll(PAGE)).client == Client(0, s.rows, None, None, true);
    AppendedNumbered(s.rows, batch);
  }

  /** Wherever a final status is committed before the last events, a round between the two ends
      the stream without them, and the client holds what was written before. */
  lemma {:induction false} StreamMayEndEarly(before: seq<Event>, status: Status, batch: seq<(string, string)>)
    requires AllCommits(before) && AppendCount(before) < PAGE && Terminal(status)
    ensures var round := [Look, Poll(PAGE), Append(batch)];
            var s := Run(Begin(0), [Connect] + (before + ([SetStatus(status)] + round)));
            && s.client.closed
            && s.client.received == Run(Begin(0), before).rows
            && Missing(s) == |batch|
  {
    var s0 := Apply(Begin(0), Connect);
    var s1 := Run(s0, before);
    var rest := [SetStatus(status)] + [Look, Poll(PAGE), Append(batch)];
    RunOne(Begin(0), Connect, before + rest);
    RunConcat(s0, before, rest);
    CommitsKeepClient(s0, before);
    RowCount(s0, before);
    AllCommitsCommits(before);
    CommitsDecide(s0, Begin(0), before);
    GapFree(s0, before);
    EndsBetween(s1, status, batch);
  }

  lemma {:induction false} AllCommitsCommits(events: seq<Event>)
    requires AllCommits(events)
    ensures Commits(events) == events
    decreases |events|
  {
    if events != [] {
      assert AllCommits(events[1..]) by {
        assert forall i :: 0 <= i < |events[1..]| ==> events[1..][i] == events[i + 1];
      }
      AllCommitsCommits(events[1..]);
    }
  }

  // ---------------------------------------------------------------- what a client can tell

  predicate RowsWithout(rows: seq<Row>, kind: string) {
    forall i :: 0 <= i < |rows| ==> rows[i].kind != kind
  }

  predicate BatchWithout(batch: seq<(string, string)>, kind: string) {
    forall i :: 0 <= i < |batch| ==> batch[i].0 != kind
  }

  predicate CommitsWithout(commits: seq<Event>, kind: string) {
    forall i :: 0 <= i < |commits| ==>
      IsCommit(commits[i]) && (commits[i].Append? ==> BatchWithout(commits[i].batch, kind))
  }

  /** A transaction's events follow the rows there are, with the next numbers, their kinds and their
      payloads, in order. */
  lemma {:induction false} AppendedRows(rows: seq<Row>, batch: seq<(string, string)>)
    ensures |Appended(rows, batch)| == |rows| + |batch| && Appended(rows, batch)[..|rows|] == rows
    ensures forall i :: 0 <= i < |batch| ==>
              Appended(rows, batch)[|rows| + i] == Row(|rows| + i + 1, batch[i].0, batch[i].1)
    decreases |batch|
  {
    if batch != [] {
      var more := rows + [Row(|rows| + 1, batch[0].0, batch[0].1)];
      var all := Appended(more, batch[1..]);
      AppendedRows(more, batch[1..]);
      forall i | 0 <= i < |batch| ensures all[|rows| + i] == Row(|rows| + i + 1, batch[i].0, batch[i].1) {
        if i == 0 {
          assert all[|rows|] == all[..|more|][|rows|] == more[|rows|];
        } else {
          assert batch[i] == batch[1..][i - 1];
          assert all[|more| + (i - 1)] == Row(|more| + (i - 1) + 1, batch[1..][i - 1].0, batch[1..][i - 1].1);
        }
      }
      assert rows == more[..|rows|] == all[..|more|][..|rows|];
    }
  }

  /** The rows after `commits`: those before and new ones, none of the kind if the commits have none. */
  lemma {:induction false} CommittedRows(s: State, commits: seq<Event>, kind: string)
    requires CommitsWithout(commits, kind)
    ensures |Run(s, commits).rows| >= |s.rows| && Run(s, commits).rows[..|s.rows|] == s.rows
    ensures RowsWithout(Run(s, commits).rows[|s.rows|..], kind)
    decreases |commits|
  {
    if commits != [] {
      assert CommitsWithout(commits[1..], kind) by {
        assert forall i :: 0 <= i < |commits[1..]| ==> commits[1..][i] == commits[i + 1];
      }
      var s' := Apply(s, commits[0]);
      if commits[0].Append? {
        AppendedRows(s.rows, commits[0].batch);
      }
      CommittedRows(s', commits[1..], kind);
      var rows := Run(s, commits).rows;
      assert rows[..|s'.rows|] == s'.rows;
      forall i | |s.rows| <= i < |rows| ensures rows[i].kind != kind {
        if i < |s'.rows| {
          assert rows[i] == s'.rows[i];
          assert commits[0].Append?;
          assert s'.rows[|s.rows| + (i - |s.rows|)].kind == commits[0].batch[i - |s.rows|].0;
        } else {
          assert rows[i] == rows[|s'.rows|..][i - |s'.rows|];
        }
      }
    }
  }

  /** One transaction appends an event of a kind of its own; `rows` are all rows, its event is the one before `n`. */
  predicate MarkedAt(rows: seq<Row>, n: nat, kind: string) {
    && 0 < n <= |rows|
    && forall i :: 0 <= i < |rows| ==> (rows[i].kind == kind <==> i == n - 1)
  }

  lemma FinalRow(s: State, before: seq<Event>, batch: seq<(string, string)>, final: (string, string), tail: seq<Event>)
    returns (n: nat)
    requires s.rows == []
    requires CommitsWithout(before, final.0) && BatchWithout(batch, final.0) && CommitsWithout(tail, final.0)
    ensures n == |Run(s, before).rows| + |batch| + 1
    ensures MarkedAt(Run(s, before + ([Append(batch + [final])] + tail)).rows, n, final.0)
    ensures tail == [] ==> n == |Run(s, before + ([Append(batch + [final])] + tail)).rows|
  {
    var s1 := Run(s, before);
    var s2 := Apply(s1, Append(batch + [final]));
    RunConcat(s, before, [Append(batch + [final])] + tail);
    RunOne(s1, Append(batch + [final]), tail);
    CommittedRows(s, before, final.0);
    AppendedRows(s1.rows, batch + [final]);
    CommittedRows(s2, tail, final.0);
    n := |s2.rows|;
    var rows := Run(s2, tail).rows;
    forall i | 0 <= i < |rows| ensures rows[i].kind == final.0 <==> i == n - 1 {
      if i < |s1.rows| {
        assert rows[i] == s2.rows[i] == s1.rows[i];
        assert s1.rows[i] == s1.rows[0..][i];
      } else if i < n {
        assert rows[i] == s2.rows[|s1.rows| + (i - |s1.rows|)];
        assert (batch + [final])[i - |s1.rows|].0 == rows[i].kind;
      } else {
        assert rows[i] == rows[n..][i - n];
      }
    }
  }

  /** What a client can tell, over every interleaving: however the run got there (failed attempts,
      retries, a superseded worker's stage events before or after), the client holds everything up to
      the final event exactly when it received an event of that kind. */
  lemma {:induction false} FinalEventMeansAll(after: nat, events: seq<Event>, before: seq<Event>,
                                              batch: seq<(string, string)>, final: (string, string), tail: seq<Event>)
    requires Commits(events) == before + ([Append(batch + [final])] + tail)
    requires CommitsWithout(before, final.0) && BatchWithout(batch, final.0) && CommitsWithout(tail, final.0)
    ensures var s := Run(Begin(after), events);
            var n := |Run(Begin(after), before).rows| + |batch| + 1;
            && (after < n ==>
                 (after + |s.client.received| >= n
                  <==> exists i :: 0 <= i < |s.client.received| && s.client.received[i].kind == final.0))
            && (tail == [] ==> n == |s.rows|)
  {
    var s := Run(Begin(after), events);
    var n := FinalRow(Begin(after), before, batch, final, tail);
    CommitsDecide(Begin(after), Begin(after), events);
    GapFree(Begin(after), events);
    AfterKept(Begin(after), events);
    var got := s.client.received;
    assert forall i :: 0 <= i < |got| ==> got[i] == s.rows[after + i];
    if after < n && after + |got| >= n {
      assert got[n - 1 - after].kind == final.0;
    }
  }

  /** And where that transaction is the run's last, the client misses nothing exactly when the last
      event it received is of that kind. */
  lemma {:induction false} CompleteExactly(after: nat, events: seq<Event>, before: seq<Event>,
                                           batch: seq<(string, string)>, final: (string, string))
    requires Commits(events) == before + ([Append(batch + [final])] + [])
    requires CommitsWithout(before, final.0) && BatchWithout(batch, final.0)
    ensures var s := Run(Begin(after), events);
            after < |s.rows| ==> (Missing(s) == 0 <==> LastKind(s.client, final.0))
  {
    var s := Run(Begin(after), events);
    var n := FinalRow(Begin(after), before, batch, final, []);
    CommitsDecide(Begin(after), Begin(after), events);
    GapFree(Begin(after), events);
    AfterKept(Begin(after), events);
    var got := s.client.received;
    assert forall i :: 0 <= i < |got| ==> got[i] == s.rows[after + i];
  }

  predicate LastKind(client: Client, kind: string) {
    client.received != [] && client.received[|client.received| - 1].kind == kind
  }

  // ---------------------------------------------------------------- the answer worker

  function Claims(claims: seq<string>): (batch: seq<(string, string)>)
    ensures |batch| == |claims| && BatchWithout(batch, "completed")
    ensures forall i :: 0 <= i < |batch| ==> batch[i] == ("verified_claim", claims[i])
  {
    seq(|claims|, i requires 0 <= i < |claims| => ("verified_claim", claims[i]))
  }

  const STAGES: seq<Event> := [SetStatus(Running), Append([("retrieving", "")]), Append([("generating", "")])]

  /** The transactions of a successful answer, in the order they commit: the final status goes
      in before the claims and the completion event. */
  function AnswerCommits(claims: seq<string>): seq<Event> {
    STAGES + [SetStatus(Succeeded)] + ([Append(Claims(claims) + [("completed", "")])] + [])
  }

  /** An attempt that yields no answer: its worker dies, or its failure handler commits the run's
      status and, unless it dies in between, the error event. */
  datatype Attempt =
    | Died(done: nat)
    | GaveUp(done: nat, status: Status, reported: bool)

  function AttemptCommits(attempt: Attempt): seq<Event> {
    STAGES[..Min(attempt.done, 3)]
    + if attempt.Died? then []
      else [SetStatus(attempt.status)] + if attempt.reported then [Append([("error", "")])] else []
  }

  /** Attempts before the current one; a retry sets the run back to queued. */
  function Earlier(attempts: seq<Attempt>): seq<Event> {
    if attempts == [] then [] else AttemptCommits(attempts[0]) + [SetStatus(Queued)] + Earlier(attempts[1..])
  }

  lemma WithoutConcat(first: seq<Event>, second: seq<Event>, kind: string)
    requires CommitsWithout(first, kind) && CommitsWithout(second, kind)
    ensures CommitsWithout(first + second, kind)
  {
  }

  lemma {:induction false} EarlierWithout(attempts: seq<Attempt>, kind: string)
    requires kind != "retrieving" && kind != "generating"
    requires kind == "error" ==> forall i :: 0 <= i < |attempts| ==> attempts[i].GaveUp? ==> !attempts[i].reported
    ensures CommitsWithout(Earlier(attempts), kind)
  {
    if attempts != [] {
      assert forall i :: 0 <= i < |attempts[1..]| ==> attempts[1..][i] == attempts[i + 1];
      EarlierWithout(attempts[1..], kind);
      WithoutConcat(AttemptCommits(attempts[0]) + [SetStatus(Queued)], Earlier(attempts[1..]), kind);
    }
  }

  /** Over every interleaving of a run that is answered, after any number of failed attempts, with its
      client: the client misses nothing exactly when the last event it received is the completion. */
  lemma {:induction false} AnswerComplete(after: nat, events: seq<Event>, attempts: seq<Attempt>, claims: seq<string>)
    requires Commits(events) == Earlier(attempts) + AnswerCommits(claims)
    ensures var s := Run(Begin(after), events);
            && s.status == Succeeded
            && (after < |s.rows| ==> (Missing(s) == 0 <==> LastKind(s.client, "completed")))
  {
    var before := Earlier(attempts) + (STAGES + [SetStatus(Succeeded)]);
    var last := [Append(Claims(claims) + [("completed", "")])];
    EarlierWithout(attempts, "completed");
    WithoutConcat(Earlier(attempts), STAGES + [SetStatus(Succeeded)], "completed");
    Associative(Earlier(attempts), STAGES + [SetStatus(Succeeded)], last + []);
    CompleteExactly(after, events, before, Claims(claims), ("completed", ""));
    CommitsDecide(Begin(after), Begin(after), events);
    StatusBeforeLast(Begin(after), Earlier(attempts) + STAGES, Succeeded, last[0]);
    assert Commits(events) == Earlier(attempts) + STAGES + [SetStatus(Succeeded), last[0]];
  }

  /** And it then holds the claims of the answer in order, each with its payload, and the completion
      after them, if it asked for them all. */
  lemma {:induction false} AnswerDelivered(after: nat, events: seq<Event>, attempts: seq<Attempt>, claims: seq<string>)
    requires Commits(events) == Earlier(attempts) + AnswerCommits(claims)
    requires after + |claims| < |Run(Begin(after), events).rows|
    requires LastKind(Run(Begin(after), events).client, "completed")
    ensures var got := Run(Begin(after), events).client.received;
            var first := |got| - |claims| - 1;
            && first >= 0
            && (forall i :: 0 <= i < |claims| ==>
                  got[first + i].kind == "verified_claim" && got[first + i].payload == claims[i])
            && got[first + |claims|].kind == "completed"
  {
    var s := Run(Begin(after), events);
    AnswerComplete(after, events, attempts, claims);
    GapFree(Begin(after), events);
    AfterKept(Begin(after), events);
    var k := AnswerRows(after, events, attempts, claims);
    var got := s.client.received;
    assert |got| == |s.rows| - after && got == s.rows[after..];
    var first := |got| - |claims| - 1;
    forall i | 0 <= i < |claims|
      ensures got[first + i].kind == "verified_claim" && got[first + i].payload == claims[i]
    {
      assert got[first + i] == s.rows[k + i];
    }
    assert got[first + |claims|] == s.rows[k + |claims|];
  }

  lemma {:induction false} AnswerRows(after: nat, events: seq<Event>, attempts: seq<Attempt>, claims: seq<string>)
    returns (k: nat)
    requires Commits(events) == Earlier(attempts) + AnswerCommits(claims)
    ensures var rows := Run(Begin(after), events).rows;
            && k + |claims| + 1 == |rows| && rows[k + |claims|].kind == "completed"
            && forall j :: k <= j < k + |claims| ==> rows[j] == Row(j + 1, "verified_claim", claims[j - k])
  {
    var before := Earlier(attempts) + (STAGES + [SetStatus(Succeeded)]);
    var batch := Claims(claims) + [("completed", "")];
    Associative(Earlier(attempts), STAGES + [SetStatus(Succeeded)], [Append(batch)] + []);
    CommitsDecide(Begin(after), Begin(after), events);
    RunConcat(Begin(after), before, [Append(batch)] + []);
    var s1 := Run(Begin(after), before);
    RunOne(s1, Append(batch), []);
    AppendedRows(s1.rows, batch);
    k := |s1.rows|;
    var rows := Run(Begin(after), events).rows;
    assert rows == Appended(s1.rows, batch);
    forall j | k <= j < k + |claims| ensures rows[j] == Row(j + 1, "verified_claim", claims[j - k]) {
      assert batch[j - k] == ("verified_claim", claims[j - k]);
      assert rows[k + (j - k)] == Row(k + (j - k) + 1, batch[j - k].0, batch[j - k].1);
    }
    assert batch[|claims|].0 == "completed";
  }

  lemma {:induction false} StatusBeforeLast(s: State, commits: seq<Event>, status: Status, last: Event)
    requires last.Append?
    ensures Run(s, commits + [SetStatus(status), last]).status == status
  {
    RunConcat(s, commits, [SetStatus(status), last]);
    var s1 := Run(s, commits);
    assert [SetStatus(status), last] == [SetStatus(status)] + [last];
    RunOne(s1, SetStatus(status), [last]);
    assert [last] + [] == [last];
    RunOne(Apply(s1, SetStatus(status)), last, []);
  }

  /** In terms of the commits: a client that does not come back after its stream has ended has the
      answer exactly when the closing round came after the last of the five. */
  lemma {:induction false} AnswerCompleteAfterFifth(pre: seq<Event>, sent: nat, post: seq<Event>, claims: seq<string>)
    requires Commits(pre + ([Poll(sent)] + post)) == AnswerCommits(claims)
    requires Closes(Run(Begin(0), pre), Poll(sent)) && StaysAway(post)
    ensures Missing(Run(Begin(0), pre + ([Poll(sent)] + post))) == 0 <==> |Commits(pre)| == 5
  {
    var events := pre + ([Poll(sent)] + post);
    CommitsConcat(pre, [Poll(sent)] + post);
    assert |Commits(pre)| == 5 ==> Commits(pre) == Commits(events);
    CompleteAfterLastCommit(0, pre, sent, post);
    CommitsDecide(Begin(0), Begin(0), events);
    RowCount(Begin(0), AnswerCommits(claims));
    AppendCountConcat(STAGES + [SetStatus(Succeeded)], [Append(Claims(claims) + [("completed", "")])] + []);
  }

  /** The failure path: while no earlier attempt reported an error, the client misses nothing exactly
      when the last event it received is the error. */
  lemma {:induction false} FailureComplete(after: nat, events: seq<Event>, attempts: seq<Attempt>, done: nat,
                                           status: Status)
    requires Commits(events) == Earlier(attempts) + AttemptCommits(GaveUp(done, status, true))
    requires forall i :: 0 <= i < |attempts| ==> attempts[i].GaveUp? ==> !attempts[i].reported
    ensures var s := Run(Begin(after), events);
            && s.status == status
            && (after < |s.rows| ==> (Missing(s) == 0 <==> LastKind(s.client, "error")))
  {
    var before := Earlier(attempts) + (STAGES[..Min(done, 3)] + [SetStatus(status)]);
    FailureShape(attempts, done, status);
    EarlierWithout(attempts, "error");
    WithoutConcat(Earlier(attempts), STAGES[..Min(done, 3)] + [SetStatus(status)], "error");
    CompleteExactly(after, events, before, [], ("error", ""));
    CommitsDecide(Begin(after), Begin(after), events);
    StatusBeforeLast(Begin(after), Earlier(attempts) + STAGES[..Min(done, 3)], status, Append([("error", "")]));
  }

  lemma {:induction false} FailureShape(attempts: seq<Attempt>, done: nat, status: Status)
    ensures var commits := Earlier(attempts) + AttemptCommits(GaveUp(done, status, true));
            var stages := STAGES[..Min(done, 3)];
            && commits == (Earlier(attempts) + (stages + [SetStatus(status)])) + ([Append([] + [("error", "")])] + [])
            && commits == Earlier(attempts) + stages + [SetStatus(status), Append([("error", "")])]
  {
    var stages, error := STAGES[..Min(done, 3)], [Append([("error", "")])];
    assert [] + [("error", "")] == [("error", "")];
    assert AttemptCommits(GaveUp(done, status, true)) == stages + ([SetStatus(status)] + error);
    assert error + [] == error && [SetStatus(status)] + error == [SetStatus(status), error[0]];
    Associative(Earlier(attempts), stages, [SetStatus(status)] + error);
    Associative(stages, [SetStatus(status)], error);
    Associative(Earlier(attempts), stages + [SetStatus(status)], error);
  }

  /** A worker that dies between its last two commits leaves a run that has succeeded and whose
      completion nobody is ever sent: neither a claim nor a completion event exists. */
  lemma {:induction false} DiedBeforeCompletion(after: nat, events: seq<Event>, attempts: seq<Attempt>)
    requires Commits(events) == Earlier(attempts) + (STAGES + [SetStatus(Succeeded)])
    ensures var s := Run(Begin(after), events);
            && s.status == Succeeded
            && RowsWithout(s.rows, "completed") && RowsWithout(s.rows, "verified_claim")
            && RowsWithout(s.client.received, "completed") && RowsWithout(s.client.received, "verified_claim")
  {
    var s := Run(Begin(after), events);
    CommitsDecide(Begin(after), Begin(after), events);
    RunConcat(Begin(after), Earlier(attempts) + STAGES, [SetStatus(Succeeded)]);
    assert Commits(events) == Earlier(attempts) + STAGES + [SetStatus(Succeeded)];
    RunOne(Run(Begin(after), Earlier(attempts) + STAGES), SetStatus(Succeeded), []);
    assert [SetStatus(Succeeded)] + [] == [SetStatus(Succeeded)];
    NoRowOf(after, events, attempts, "completed");
    NoRowOf(after, events, attempts, "verified_claim");
  }

  lemma {:induction false} NoRowOf(after: nat, events: seq<Event>, attempts: seq<Attempt>, kind: string)
    requires Commits(events) == Earlier(attempts) + (STAGES + [SetStatus(Succeeded)])
    requires kind != "retrieving" && kind != "generating" && kind != "error"
    ensures RowsWithout(Run(Begin(after), events).rows, kind)
    ensures RowsWithout(Run(Begin(after), events).client.received, kind)
  {
    var s := Run(Begin(after), events);
    CommitsDecide(Begin(after), Begin(after), events);
    EarlierWithout(attempts, kind);
    WithoutConcat(Earlier(attempts), STAGES + [SetStatus(Succeeded)], kind);
    CommittedRows(Begin(after), Commits(events), kind);
    assert s.rows[0..] == s.rows;
    GapFree(Begin(after), events);
    AfterKept(Begin(after), events);
    assert forall i :: 0 <= i < |s.client.received| ==> s.client.received[i] == s.rows[after + i];
  }
}
