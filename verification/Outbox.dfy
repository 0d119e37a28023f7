/** The transactional outbox: batches, attempts, back-off. */
module Outbox {
  import opened Common

  const MAX_DELAY: nat := 3600

  datatype Status = Pending | Published | Failed

  datatype Message = Message(status: Status, availableAt: int, attempts: nat)

  function Pow2(n: nat): nat {
    if n == 0 then 1 else 2 * Pow2(n - 1)
  }

  /** How long a message waits after its `n`-th failed attempt. */
  function Delay(base: nat, n: nat): nat
    requires n >= 1
  {
    Min(base * Pow2(n - 1), MAX_DELAY)
  }

  predicate Due(m: Message, now: int) {
    m.status == Pending && m.availableAt <= now
  }

  function Attempted(m: Message, now: int, sent: bool, maxAttempts: nat, base: nat): Message {
    var n := m.attempts + 1;
    if sent then Message(Published, m.availableAt, n)
    else if n >= maxAttempts then Message(Failed, m.availableAt, n)
    else Message(Pending, now + Delay(base, n), n)
  }

  /** The rows a pass takes: due, not held by another publisher, oldest first, until the batch is full. */
  function Selected(rows: seq<Message>, now: int, skipped: set<nat>, batch: nat): seq<nat> {
    if rows == [] then []
    else
      var last := |rows| - 1;
      var older := Selected(rows[..last], now, skipped, batch);
      if Due(rows[last], now) && last !in skipped && |older| < batch then older + [last] else older
  }

  lemma {:induction false} SelectedFacts(rows: seq<Message>, now: int, skipped: set<nat>, batch: nat)
    ensures var s := Selected(rows, now, skipped, batch);
            && |s| <= batch
            && (forall k :: 0 <= k < |s| ==>
                  && s[k] < |rows| && s[k] !in skipped
                  && rows[s[k]].status == Pending && rows[s[k]].availableAt <= now)
            && (forall j, k :: 0 <= j < k < |s| ==> s[j] < s[k])
            && (forall i: nat :: i < |rows| && rows[i].status == Pending && rows[i].availableAt <= now
                                 && i !in skipped && i !in s ==>
                  |s| == batch && forall k :: 0 <= k < |s| ==> s[k] < i)
  {
    if rows != [] {
      SelectedFacts(rows[..|rows| - 1], now, skipped, batch);
    }
  }

  /** What one publisher pass makes of the table: exactly the selected rows are tried. */
  ghost predicate PassResult(rows: seq<Message>, rows': seq<Message>, now: int, skipped: set<nat>, sent: nat -> bool,
                             batch: nat, maxAttempts: nat, base: nat)
  {
    && |rows'| == |rows|
    && forall i :: 0 <= i < |rows| ==>
         rows'[i] == if i in Selected(rows, now, skipped, batch)
                     then Attempted(rows[i], now, sent(i), maxAttempts, base) else rows[i]
  }

  function Tried(rows: seq<Message>, taken: seq<nat>, now: int, sent: nat -> bool, maxAttempts: nat, base: nat)
    : (r: seq<Message>)
    requires forall k :: 0 <= k < |taken| ==> taken[k] < |rows|
    ensures |r| == |rows|
  {
    if taken == [] then rows
    else
      var last := |taken| - 1;
      var i := taken[last];
      Tried(rows, taken[..last], now, sent, maxAttempts, base)[i := Attempted(rows[i], now, sent(i), maxAttempts, base)]
  }

  lemma {:induction false} TriedExact(rows: seq<Message>, taken: seq<nat>, now: int, sent: nat -> bool,
                                      maxAttempts: nat, base: nat)
    requires forall k :: 0 <= k < |taken| ==> taken[k] < |rows|
    ensures forall i :: 0 <= i < |rows| ==>
              Tried(rows, taken, now, sent, maxAttempts, base)[i] ==
              if i in taken then Attempted(rows[i], now, sent(i), maxAttempts, base) else rows[i]
  {
    if taken != [] {
      var last := |taken| - 1;
      TriedExact(rows, taken[..last], now, sent, maxAttempts, base);
      assert taken == taken[..last] + [taken[last]];
    }
  }

  /** The table, oldest row first. */
  class TaskOutbox {
    var rows: seq<Message>

    /** `publish_pending_outbox`; `sent(i)` says whether sending row `i` succeeds. */
    method PublishPending(now: int, skipped: set<nat>, sent: nat -> bool, batch: nat, maxAttempts: nat, base: nat)
      returns (published: nat)
      modifies this
      ensures PassResult(old(rows), rows, now, skipped, sent, batch, maxAttempts, base)
      ensures published == |set i | i in Selected(old(rows), now, skipped, batch) && sent(i)|
    {
      var selected := Select(now, skipped, batch);
      SelectedFacts(rows, now, skipped, batch);
      ghost var was := rows;
      published := 0;
      for k := 0 to |selected|
        invariant |rows| == |was|
        invariant rows == Tried(was, selected[..k], now, sent, maxAttempts, base)
        invariant published == |set i | i in selected[..k] && sent(i)|
      {
        var i := selected[k];
        TriedExact(was, selected[..k], now, sent, maxAttempts, base);
        assert selected[..k + 1][..k] == selected[..k];
        assert rows[i] == was[i];
        var row, ok := AttemptSend(rows[i], now, sent(i), maxAttempts, base);
        SentNext(selected, k, sent);
        rows := rows[i := row];
        if ok {
          published := published + 1;
        }
      }
      assert selected[..|selected|] == selected;
      TriedExact(was, selected, now, sent, maxAttempts, base);
    }

    static method AttemptSend(m: Message, now: int, accepted: bool, maxAttempts: nat, base: nat)
      returns (m': Message, ok: bool)
      ensures m' == Attempted(m, now, accepted, maxAttempts, base) && ok == accepted
      ensures m'.attempts == m.attempts + 1
      ensures accepted ==> m'.status == Published && m'.availableAt == m.availableAt
      ensures !accepted && m.attempts + 1 >= maxAttempts ==> m'.status == Failed && m'.availableAt == m.availableAt
      ensures !accepted && m.attempts + 1 < maxAttempts ==>
                m'.status == Pending && m'.availableAt == now + Delay(base, m.attempts + 1)
    {
      ok := accepted;
      m' := m.(attempts := m.attempts + 1);
      if accepted {
        m' := m'.(status := Published);
      } else if m'.attempts >= maxAttempts {
        m' := m'.(status := Failed);
      } else {
        var delay := Min(base * Pow2(m'.attempts - 1), MAX_DELAY);
        m' := m'.(status := Pending, availableAt := now + delay);
      }
    }

    method Select(now: int, skipped: set<nat>, batch: nat) returns (selected: seq<nat>)
      ensures selected == Selected(rows, now, skipped, batch)
    {
      selected := [];
      for i := 0 to |rows|
        invariant selected == Selected(rows[..i], now, skipped, batch)
      {
        assert rows[..i + 1][..i] == rows[..i];
        if rows[i].status == Pending && rows[i].availableAt <= now && i !in skipped && |selected| < batch {
          selected := selected + [i];
        }
      }
      assert rows[..|rows|] == rows;
    }
  }

  lemma SentNext(selected: seq<nat>, k: nat, sent: nat -> bool)
    requires k < |selected| && selected[k] !in selected[..k]
    ensures |set i | i in selected[..k + 1] && sent(i)| ==
            |set i | i in selected[..k] && sent(i)| + if sent(selected[k]) then 1 else 0
  {
    var before := set i | i in selected[..k] && sent(i);
    assert (set i | i in selected[..k + 1] && sent(i)) == if sent(selected[k]) then before + {selected[k]} else before;
  }

  // ---------------------------------------------------------------- accounting over any passes

  /** A pending message has attempts left, a failed one has used them all. */
  ghost predicate Accounted(m: Message, maxAttempts: nat) {
    match m.status
    case Pending => m.attempts < maxAttempts
    case Published => 1 <= m.attempts <= maxAttempts
    case Failed => m.attempts == maxAttempts
  }

  /** One publisher pass, and the rows that were written since the pass before it. */
  datatype Pass = Pass(now: int, skipped: set<nat>, sent: nat -> bool, batch: nat, added: seq<Message>)

  predicate Fresh(m: Message) {
    m.status == Pending && m.attempts == 0
  }

  /** A history of inserts and passes over one table. */
  ghost predicate History(tables: seq<seq<Message>>, passes: seq<Pass>, maxAttempts: nat, base: nat) {
    && |tables| == |passes| + 1
    && forall k :: 0 <= k < |passes| ==> Passed(tables[k], tables[k + 1], passes[k], maxAttempts, base)
  }

  ghost predicate Passed(rows: seq<Message>, rows': seq<Message>, p: Pass, maxAttempts: nat, base: nat) {
    && (forall i :: 0 <= i < |p.added| ==> Fresh(p.added[i]))
    && PassResult(rows + p.added, rows', p.now, p.skipped, p.sent, p.batch, maxAttempts, base)
  }

  /** One pass moves a row that is accounted for to a row that is, and leaves finished rows alone. */
  lemma PassedRow(rows: seq<Message>, rows': seq<Message>, p: Pass, maxAttempts: nat, base: nat, i: nat)
    requires Passed(rows, rows', p, maxAttempts, base) && maxAttempts >= 1
    requires i < |rows + p.added| && Accounted((rows + p.added)[i], maxAttempts)
    ensures i < |rows'| && Accounted(rows'[i], maxAttempts)
    ensures (rows + p.added)[i].status != Pending ==> rows'[i] == (rows + p.added)[i]
    ensures || rows'[i] == (rows + p.added)[i]
            || rows'[i] == Attempted((rows + p.added)[i], p.now, p.sent(i), maxAttempts, base)
  {
    SelectedFacts(rows + p.added, p.now, p.skipped, p.batch);
  }

  /** Over any inserts and passes every message stays accounted for. */
  lemma {:induction false} AccountedForever(tables: seq<seq<Message>>, passes: seq<Pass>, maxAttempts: nat, base: nat,
                                            k: nat)
    requires History(tables, passes, maxAttempts, base) && k <= |passes| && maxAttempts >= 1
    requires forall i :: 0 <= i < |tables[0]| ==> Accounted(tables[0][i], maxAttempts)
    ensures forall i :: 0 <= i < |tables[k]| ==> Accounted(tables[k][i], maxAttempts)
  {
    if k > 0 {
      AccountedForever(tables, passes, maxAttempts, base, k - 1);
      var rows, p := tables[k - 1], passes[k - 1];
      assert Passed(rows, tables[k - 1 + 1], p, maxAttempts, base);
      forall i | 0 <= i < |tables[k]| ensures Accounted(tables[k][i], maxAttempts) {
        PassedRow(rows, tables[k], p, maxAttempts, base, i);
      }
    }
  }

  /** Rows are never dropped, and one that left the pending state is never touched again. */
  lemma {:induction false} FinishedForever(tables: seq<seq<Message>>, passes: seq<Pass>, maxAttempts: nat, base: nat,
                                           j: nat, k: nat)
    requires History(tables, passes, maxAttempts, base) && j <= k <= |passes| && maxAttempts >= 1
    requires forall i :: 0 <= i < |tables[0]| ==> Accounted(tables[0][i], maxAttempts)
    ensures |tables[j]| <= |tables[k]|
    ensures forall i :: 0 <= i < |tables[j]| && tables[j][i].status != Pending ==> tables[k][i] == tables[j][i]
    decreases k - j
  {
    if j < k {
      FinishedForever(tables, passes, maxAttempts, base, j, k - 1);
      AccountedForever(tables, passes, maxAttempts, base, k - 1);
      var rows, p := tables[k - 1], passes[k - 1];
      assert Passed(rows, tables[k - 1 + 1], p, maxAttempts, base);
      forall i | 0 <= i < |tables[j]| && tables[j][i].status != Pending ensures tables[k][i] == tables[j][i] {
        PassedRow(rows, tables[k], p, maxAttempts, base, i);
      }
    }
  }

  lemma {:induction false} Pow2Monotone(m: nat, n: nat)
    requires m <= n
    ensures 1 <= Pow2(m) <= Pow2(n)
  {
    if m < n {
      Pow2Monotone(m, n - 1);
    } else if m > 0 {
      Pow2Monotone(m - 1, n - 1);
    }
  }

  /** Delays never shrink. */
  lemma DelayMonotone(base: nat, m: nat, n: nat)
    requires 1 <= m <= n
    ensures Delay(base, m) <= Delay(base, n) <= 3600
  {
    Pow2Monotone(m - 1, n - 1);
    assert base * Pow2(m - 1) <= base * Pow2(n - 1);
  }

  /** The first delay is the base, each further one twice the one before, but none more than an hour. */
  lemma {:induction false} DelayDoubles(base: nat, n: nat)
    requires n >= 1
    ensures Delay(base, 1) == Min(base, 3600)
    ensures Delay(base, n + 1) == Min(2 * Delay(base, n), 3600)
  {
    assert Pow2(0) == 1;
    assert base * Pow2(n) == 2 * (base * Pow2(n - 1));
  }

  // ---------------------------------------------------------------- waiting

  /** All the waiting of a message before its `n`-th attempt. */
  function TotalDelay(base: nat, n: nat): nat {
    if n <= 1 then 0 else TotalDelay(base, n - 1) + Delay(base, n - 1)
  }

  /** The total wait is at most an hour per retry, and at least the first delay for each. */
  lemma {:induction false} TotalDelayBound(base: nat, n: nat)
    requires n >= 1
    ensures Min(base, 3600) * (n - 1) <= TotalDelay(base, n) <= 3600 * (n - 1)
  {
    if n > 1 {
      TotalDelayBound(base, n - 1);
      DelayMonotone(base, 1, n - 1);
      OneMore(Min(base, MAX_DELAY), n);
    }
  }

  lemma OneMore(x: nat, n: nat)
    requires n > 1
    ensures x * (n - 1) == x * (n - 2) + x
  {
  }

  /** How far ahead a pass pushed a row: a failed attempt that leaves it pending sets its next time. */
  function Pushed(before: Message, after: Message, now: int): int {
    if after.status == Pending && after.attempts == before.attempts + 1 then after.availableAt - now else 0
  }

  /** The delay that the first `k` passes added to row `i`. */
  ghost function AddedDelay(tables: seq<seq<Message>>, passes: seq<Pass>, k: nat, i: nat): int
    requires |tables| == |passes| + 1 && k <= |passes|
  {
    if k == 0 then 0
    else
      var before := tables[k - 1] + passes[k - 1].added;
      AddedDelay(tables, passes, k - 1, i)
      + if i < |before| && i < |tables[k]| then Pushed(before[i], tables[k][i], passes[k - 1].now) else 0
  }

  /** The waiting behind a row's attempts: its last attempt added none if it ended the row. */
  function Waited(m: Message, base: nat): nat {
    if m.status == Pending then TotalDelay(base, m.attempts + 1) else TotalDelay(base, m.attempts)
  }

  /** What row `i` had waited before the history began; a row written later had not waited at all. */
  function WaitedBefore(tables: seq<seq<Message>>, i: nat, base: nat): nat
    requires tables != []
  {
    if i < |tables[0]| then Waited(tables[0][i], base) else 0
  }

  /** One attempt pushes a row by exactly what it then has waited more. */
  lemma PushedExact(m: Message, now: int, sent: bool, maxAttempts: nat, base: nat)
    requires m.status == Pending
    ensures var after := Attempted(m, now, sent, maxAttempts, base);
            Pushed(m, after, now) == Waited(after, base) - Waited(m, base)
  {
    assert TotalDelay(base, m.attempts + 2) == TotalDelay(base, m.attempts + 1) + Delay(base, m.attempts + 1);
  }

  /** The passes add to a row exactly the delays of its failed attempts. */
  lemma {:induction false} AddedDelayExact(tables: seq<seq<Message>>, passes: seq<Pass>, maxAttempts: nat, base: nat,
                                           k: nat, i: nat)
    requires History(tables, passes, maxAttempts, base) && k <= |passes| && maxAttempts >= 1
    requires forall r :: 0 <= r < |tables[0]| ==> Accounted(tables[0][r], maxAttempts)
    ensures AddedDelay(tables, passes, k, i) ==
            if i < |tables[k]| then Waited(tables[k][i], base) - WaitedBefore(tables, i, base) else 0
  {
    if k > 0 {
      var rows, p := tables[k - 1], passes[k - 1];
      AddedDelayExact(tables, passes, maxAttempts, base, k - 1, i);
      AccountedForever(tables, passes, maxAttempts, base, k - 1);
      FinishedForever(tables, passes, maxAttempts, base, 0, k - 1);
      assert Passed(rows, tables[k - 1 + 1], p, maxAttempts, base);
      if i < |rows + p.added| {
        var m := (rows + p.added)[i];
        PassedRow(rows, tables[k], p, maxAttempts, base, i);
        if m.status == Pending {
          PushedExact(m, p.now, p.sent(i), maxAttempts, base);
        }
        assert i >= |rows| ==> Fresh(m) && Waited(m, base) == 0;
      }
    }
  }

  /** So no message is ever delayed by more than an hour per retry, in all. */
  lemma {:induction false} AddedDelayBound(tables: seq<seq<Message>>, passes: seq<Pass>, maxAttempts: nat, base: nat,
                                           k: nat, i: nat)
    requires History(tables, passes, maxAttempts, base) && k <= |passes| && maxAttempts >= 1
    requires forall r :: 0 <= r < |tables[0]| ==> Accounted(tables[0][r], maxAttempts)
    ensures AddedDelay(tables, passes, k, i) <= 3600 * (maxAttempts - 1)
  {
    AddedDelayExact(tables, passes, maxAttempts, base, k, i);
    AccountedForever(tables, passes, maxAttempts, base, k);
    if i < |tables[k]| {
      var m := tables[k][i];
      var n := if m.status == Pending then m.attempts + 1 else m.attempts;
      TotalDelayBound(base, n);
      assert MAX_DELAY * (n - 1) <= MAX_DELAY * (maxAttempts - 1);
    }
  }
}
