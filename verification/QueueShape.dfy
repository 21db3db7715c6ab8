/**
 The shape of one hook's queue rows: positions 1, 2, 3, ... in insertion order, first the rows that
 were handed the lock, then the rows that still wait.
 */
module QueueShape {
  import opened Options
  import opened Database

  /** How many rows have left the waiting state, if the rows are shaped. */
  function Split(rows: seq<QueueEntry>): nat {
    |rows| - CountWaiting(rows)
  }

  predicate Shaped(rows: seq<QueueEntry>) {
    forall i :: 0 <= i < |rows| ==> rows[i].position == i + 1 && rows[i].status == if i < Split(rows) then Ready else Waiting
  }

  /** The executions that wait, in position order. */
  function WaitingIds(rows: seq<QueueEntry>): seq<Id> {
    seq(CountWaiting(rows), i requires 0 <= i < CountWaiting(rows) => rows[Split(rows) + i].execution)
  }

  lemma {:induction false} CountOfSplit(rows: seq<QueueEntry>, split: nat)
    requires split <= |rows|
    requires forall i :: 0 <= i < |rows| ==> (rows[i].status == Waiting <==> split <= i)
    ensures CountWaiting(rows) == |rows| - split
  {
    if rows != [] {
      var init := rows[..|rows| - 1];
      assert forall i :: 0 <= i < |init| ==> init[i] == rows[i];
      CountOfSplit(init, if split < |rows| then split else split - 1);
    }
  }

  lemma LastPosition(rows: seq<QueueEntry>)
    requires Shaped(rows)
    ensures MaxPosition(rows) == |rows|
  {
    if rows != [] {
      assert rows[|rows| - 1].position == |rows|;
    }
  }

  lemma CountAppend(rows: seq<QueueEntry>, row: QueueEntry)
    ensures CountWaiting(rows + [row]) == CountWaiting(rows) + if row.status == Waiting then 1 else 0
  {
    var after := rows + [row];
    assert after[..|after| - 1] == rows && after[|after| - 1] == row;
  }

  /** enqueue gives the next position and joins the waiting suffix. */
  lemma EnqueueKeepsShape(rows: seq<QueueEntry>, id: Id)
    requires Shaped(rows)
    ensures MaxPosition(rows) == |rows|
    ensures var after := rows + [QueueEntry(id, MaxPosition(rows) + 1, Waiting)];
            && Shaped(after)
            && CountWaiting(after) == CountWaiting(rows) + 1
            && WaitingIds(after) == WaitingIds(rows) + [id]
  {
    LastPosition(rows);
    CountAppend(rows, QueueEntry(id, |rows| + 1, Waiting));
  }

  /** peek_next finds the first row of the waiting suffix. */
  lemma PeekIsSplit(rows: seq<QueueEntry>)
    requires Shaped(rows)
    ensures PeekNext(rows) == if CountWaiting(rows) == 0 then None else Some(Split(rows))
  {
    if CountWaiting(rows) > 0 {
      assert rows[Split(rows)].status == Waiting;
      var next := PeekNext(rows).value;
      assert rows[next].position <= rows[Split(rows)].position;
    }
  }

  /** mark_ready on that row moves it to the ready prefix. */
  lemma ReadyKeepsShape(rows: seq<QueueEntry>)
    requires Shaped(rows) && CountWaiting(rows) > 0
    ensures rows[Split(rows)].status == Waiting
    ensures var after := rows[Split(rows) := rows[Split(rows)].(status := Ready)];
            && Shaped(after)
            && CountWaiting(after) == CountWaiting(rows) - 1
            && WaitingIds(rows) == [rows[Split(rows)].execution] + WaitingIds(after)
  {
    var after := rows[Split(rows) := rows[Split(rows)].(status := Ready)];
    CountOfSplit(after, Split(rows) + 1);
  }

  lemma WaitingRow(rows: seq<QueueEntry>, i: nat)
    requires Shaped(rows) && i < |rows| && rows[i].status == Waiting
    ensures rows[i].execution in WaitingIds(rows)
  {
    assert WaitingIds(rows)[i - Split(rows)] == rows[i].execution;
  }

  /** expire_for_execution changes no row unless the execution waits. */
  lemma NothingToExpire(rows: seq<QueueEntry>, id: Id)
    requires Shaped(rows) && id !in WaitingIds(rows)
    ensures ExpireRows(rows, id) == rows
  {
    forall i | 0 <= i < |rows| ensures ExpireRow(rows[i], id) == rows[i] {
      if rows[i].status == Waiting {
        WaitingRow(rows, i);
      }
    }
  }
}
