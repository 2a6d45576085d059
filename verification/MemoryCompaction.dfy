/**
  Whether a caller of packages/memory/src/index.ts can tell that a scope was compacted: the comment on
  `MemoryRetention` says that without a ceiling nobody can. Reads alone cannot; a later put can, if it names
  a row that compaction took. The theorems say exactly which puts can, and that nothing else does.
 */
module MemoryCompaction {
  import opened Wrappers
  import opened Text
  import opened Memories
  import opened MemoryTheorems

  /** A row that no read returns unless it asks for superseded rows. */
  predicate Unreadable(memory: Memory, scope: Scope, now: int)
  {
    memory.scope == scope && (memory.supersededBy.Some? || Expired(memory, now))
  }

  /** The same table with and without some rows of `gone`, all of them unreadable since `now`. */
  ghost predicate Mirrors(full: Rows, lean: Rows, gone: set<Id>, scope: Scope, now: int)
  {
    (forall id :: id in lean ==> id !in gone && id in full && lean[id] == full[id])
    && forall id :: id in full && id !in lean ==> id in gone && Unreadable(full[id], scope, now)
  }

  function Reclaimed(rows: Rows, scope: Scope, retention: Retention, now: int): set<Id>
  {
    rows.Keys - Compacted(rows, scope, retention, now).Keys
  }

  lemma CompactionMirrors(rows: Rows, scope: Scope, retention: Retention, now: int)
    requires retention.maxPerScope <= 0
    ensures Mirrors(rows, Compacted(rows, scope, retention, now), Reclaimed(rows, scope, retention, now), scope, now)
  {
  }

  /** Rows that differ only in unreadable ones read alike, at any later time, in any scope. */
  lemma MirrorsReadAlike(full: Rows, lean: Rows, gone: set<Id>, scope: Scope, now: int, read: Scope, later: int)
    requires Mirrors(full, lean, gone, scope, now) && now <= later
    ensures Visible(full, read, later, false) == Visible(lean, read, later, false)
  {
  }

  // ----- an operation that names none of the rows

  lemma ExpiryMirrors(full: Rows, lean: Rows, gone: set<Id>, scope: Scope, now: int, other: Scope, later: int)
    requires Mirrors(full, lean, gone, scope, now) && now <= later
    ensures Mirrors(ExpiryPhase(full, other, later), ExpiryPhase(lean, other, later), gone, scope, now)
  {
  }

  /** Once the expired rows are gone, the missing ones name nothing. */
  lemma NamedAlike(full: Rows, lean: Rows, gone: set<Id>, scope: Scope, now: int, other: Scope, later: int, id: Id)
    requires Mirrors(full, lean, gone, scope, now) && now <= later
    ensures Named(ExpiryPhase(full, other, later), other, id) <==> Named(ExpiryPhase(lean, other, later), other, id)
  {
    var before, after := ExpiryPhase(full, other, later), ExpiryPhase(lean, other, later);
    if Named(before, other, id) {
      var x :| x in before && Live(before, other, x) && before[x].supersedesId == Some(id);
      assert x in after && Live(after, other, x);
    }
    if Named(after, other, id) {
      var x :| x in after && Live(after, other, x) && after[x].supersedesId == Some(id);
      assert x in before && Live(before, other, x);
    }
  }

  lemma CompactionKeepsMirror(full: Rows, lean: Rows, gone: set<Id>, scope: Scope, now: int, other: Scope,
                              retention: Retention, later: int)
    requires Mirrors(full, lean, gone, scope, now) && now <= later && retention.maxPerScope <= 0
    ensures Mirrors(Compacted(full, other, retention, later), Compacted(lean, other, retention, later), gone, scope, now)
  {
    ExpiryMirrors(full, lean, gone, scope, now, other, later);
    forall id ensures Named(ExpiryPhase(full, other, later), other, id) <==> Named(ExpiryPhase(lean, other, later), other, id) {
      NamedAlike(full, lean, gone, scope, now, other, later, id);
    }
  }

  predicate Names(put: Put, freshId: Id, gone: set<Id>)
  {
    PutId(put, freshId) in gone || (put.supersedesId.Some? && put.supersedesId.value in gone)
  }

  lemma WriteKeepsMirror(full: Rows, lean: Rows, gone: set<Id>, scope: Scope, now: int, id: Id, memory: Memory)
    requires Mirrors(full, lean, gone, scope, now) && id !in gone
    ensures Mirrors(full[id := memory], lean[id := memory], gone, scope, now)
    ensures Mirrors(full - {id}, lean - {id}, gone, scope, now)
  {
  }

  lemma SupersedeKeepsMirror(full: Rows, lean: Rows, gone: set<Id>, scope: Scope, now: int, target: Id, other: Scope, heir: Id, later: int)
    requires Mirrors(full, lean, gone, scope, now) && target !in gone
    ensures Live(full, other, target) <==> Live(lean, other, target)
    ensures Mirrors(Superseded(full, target, other, heir, later), Superseded(lean, target, other, heir, later), gone, scope, now)
  {
  }

  lemma SameRefusal(full: Rows, lean: Rows, gone: set<Id>, scope: Scope, now: int, put: Put, freshId: Id, later: int)
    requires Mirrors(full, lean, gone, scope, now) && !Names(put, freshId, gone)
    ensures PutRefusal(full, put) == PutRefusal(lean, put)
    ensures PutRow(full, put, PutId(put, freshId), later) == PutRow(lean, put, PutId(put, freshId), later)
  {
  }

  /** A put that names no missing row is accepted or refused alike, and leaves the tables as alike as before. */
  lemma PutKeepsMirror(full: Rows, lean: Rows, gone: set<Id>, scope: Scope, now: int, put: Put, freshId: Id,
                       retention: Retention, later: int)
    requires Mirrors(full, lean, gone, scope, now) && now <= later && retention.maxPerScope <= 0
    requires !Names(put, freshId, gone)
    ensures PutRows(full, put, freshId, retention, later).1 == PutRows(lean, put, freshId, retention, later).1
    ensures Mirrors(PutRows(full, put, freshId, retention, later).0, PutRows(lean, put, freshId, retention, later).0, gone, scope, now)
  {
    SameRefusal(full, lean, gone, scope, now, put, freshId, later);
    if PutRefusal(full, put).None? {
      var id := PutId(put, freshId);
      var row := PutRow(full, put, id, later);
      WriteKeepsMirror(full, lean, gone, scope, now, id, row);
      var wideAfter, leanAfter := full[id := row], lean[id := row];
      if put.supersedesId.None? {
        CompactionKeepsMirror(wideAfter, leanAfter, gone, scope, now, put.scope, retention, later);
      } else {
        var target := put.supersedesId.value;
        SupersedeKeepsMirror(wideAfter, leanAfter, gone, scope, now, target, put.scope, id, later);
        WriteKeepsMirror(wideAfter, leanAfter, gone, scope, now, id, row);
        CompactionKeepsMirror(Superseded(wideAfter, target, put.scope, id, later), Superseded(leanAfter, target, put.scope, id, later),
                              gone, scope, now, put.scope, retention, later);
      }
    }
  }

  // ----- any list of later operations that name none of the rows

  /** What an operation answers: whether a put was accepted, whether a delete found its row. */
  function Answer(rows: Rows, operation: Operation, retention: Retention, now: int): bool
  {
    match operation
    case PutOperation(put, freshId) => PutRows(rows, put, freshId, retention, now).1
    case DeleteOperation(id, scope) => id in rows && rows[id].scope == scope
    case _ => true
  }

  function RowsFrom(rows: Rows, operations: seq<(Operation, int)>, retention: Retention): Rows
    decreases |operations|
  {
    if operations == [] then rows
    else RowsFrom(Apply(rows, operations[0].0, retention, operations[0].1), operations[1..], retention)
  }

  function Answers(rows: Rows, operations: seq<(Operation, int)>, retention: Retention): seq<bool>
    decreases |operations|
  {
    if operations == [] then []
    else [Answer(rows, operations[0].0, retention, operations[0].1)]
         + Answers(Apply(rows, operations[0].0, retention, operations[0].1), operations[1..], retention)
  }

  predicate Spares(operation: Operation, gone: set<Id>)
  {
    match operation
    case PutOperation(put, freshId) => !Names(put, freshId, gone)
    case DeleteOperation(id, scope) => id !in gone
    case _ => true
  }

  ghost predicate AllSpare(operations: seq<(Operation, int)>, gone: set<Id>, now: int)
  {
    forall i :: 0 <= i < |operations| ==> operations[i].1 >= now && Spares(operations[i].0, gone)
  }

  lemma OperationKeepsMirror(full: Rows, lean: Rows, gone: set<Id>, scope: Scope, now: int, operation: Operation,
                             retention: Retention, later: int)
    requires Mirrors(full, lean, gone, scope, now) && now <= later && retention.maxPerScope <= 0 && Spares(operation, gone)
    ensures Answer(full, operation, retention, later) == Answer(lean, operation, retention, later)
    ensures Mirrors(Apply(full, operation, retention, later), Apply(lean, operation, retention, later), gone, scope, now)
  {
    match operation
    case PutOperation(put, freshId) => PutKeepsMirror(full, lean, gone, scope, now, put, freshId, retention, later);
    case DeleteOperation(id, other) => WriteKeepsMirror(full, lean, gone, scope, now, id, Memory(other, [], None, None, None, 0, 0));
    case ClearOperation(other) =>
    case CompactOperation(other) => CompactionKeepsMirror(full, lean, gone, scope, now, other, retention, later);
  }

  lemma {:induction false} RunKeepsMirror(full: Rows, lean: Rows, gone: set<Id>, scope: Scope, now: int,
                                          operations: seq<(Operation, int)>, retention: Retention)
    requires Mirrors(full, lean, gone, scope, now) && retention.maxPerScope <= 0 && AllSpare(operations, gone, now)
    ensures Answers(full, operations, retention) == Answers(lean, operations, retention)
    ensures Mirrors(RowsFrom(full, operations, retention), RowsFrom(lean, operations, retention), gone, scope, now)
    decreases |operations|
  {
    if operations != [] {
      var (operation, later) := operations[0];
      assert Spares(operations[0].0, gone) && operations[0].1 >= now;
      OperationKeepsMirror(full, lean, gone, scope, now, operation, retention, later);
      RunKeepsMirror(Apply(full, operation, retention, later), Apply(lean, operation, retention, later), gone, scope, now,
                     operations[1..], retention);
    }
  }

  /**
    Without a ceiling, compacting a scope changes nothing that later operations answer and nothing that
    later reads return, in any scope, as long as no put and no delete names a row that was taken.
   */
  lemma CompactionIsInvisible(rows: Rows, scope: Scope, retention: Retention, now: int, operations: seq<(Operation, int)>,
                              read: Scope, later: int)
    requires retention.maxPerScope <= 0 && now <= later
    requires AllSpare(operations, Reclaimed(rows, scope, retention, now), now)
    ensures var lean := Compacted(rows, scope, retention, now);
            Answers(rows, operations, retention) == Answers(lean, operations, retention)
            && Visible(RowsFrom(rows, operations, retention), read, later, false)
               == Visible(RowsFrom(lean, operations, retention), read, later, false)
  {
    var lean := Compacted(rows, scope, retention, now);
    var gone := Reclaimed(rows, scope, retention, now);
    CompactionMirrors(rows, scope, retention, now);
    RunKeepsMirror(rows, lean, gone, scope, now, operations, retention);
    MirrorsReadAlike(RowsFrom(rows, operations, retention), RowsFrom(lean, operations, retention), gone, scope, now, read, later);
  }

  // ----- a put that names one of the rows

  /** The row that a put supersedes is there, in its scope, not superseded, and not the row it writes. */
  predicate TargetReady(rows: Rows, put: Put)
  {
    put.supersedesId.Some? ==>
      Live(rows, put.scope, put.supersedesId.value) && put.supersedesId != put.id
  }

  /** The row that a put overwrites, if any, is in its scope and not superseded. */
  predicate IdReady(rows: Rows, put: Put)
  {
    put.id.Some? && put.id.value in rows ==> Live(rows, put.scope, put.id.value)
  }

  /** When a put is accepted. */
  lemma AcceptedIff(rows: Rows, put: Put, freshId: Id, retention: Retention, now: int)
    requires freshId !in rows
    ensures PutRows(rows, put, freshId, retention, now).1 <==> IdReady(rows, put) && TargetReady(rows, put)
  {
  }

  /** Compaction makes a put that was acceptable unacceptable exactly when it took its target: one that had expired unsuperseded. */
  lemma CompactionRefusesIff(rows: Rows, scope: Scope, retention: Retention, now: int, put: Put, freshId: Id, later: int)
    requires retention.maxPerScope <= 0 && freshId !in rows
    ensures var gone := Reclaimed(rows, scope, retention, now);
            PutRows(rows, put, freshId, retention, later).1
            && !PutRows(Compacted(rows, scope, retention, now), put, freshId, retention, later).1
            <==> IdReady(rows, put) && TargetReady(rows, put) && put.supersedesId.Some? && put.supersedesId.value in gone
    ensures PutRows(rows, put, freshId, retention, later).1 && put.supersedesId.Some?
            && put.supersedesId.value in Reclaimed(rows, scope, retention, now) ==>
        Expired(rows[put.supersedesId.value], now)
  {
    AcceptedIff(rows, put, freshId, retention, later);
    AcceptedIff(Compacted(rows, scope, retention, now), put, freshId, retention, later);
    CompactionMirrors(rows, scope, retention, now);
  }

  /** It makes a put that was unacceptable acceptable exactly when it took the row under the put's own id, which refused it. */
  lemma CompactionAcceptsIff(rows: Rows, scope: Scope, retention: Retention, now: int, put: Put, freshId: Id, later: int)
    requires retention.maxPerScope <= 0 && freshId !in rows
    ensures var lean := Compacted(rows, scope, retention, now);
            !PutRows(rows, put, freshId, retention, later).1 && PutRows(lean, put, freshId, retention, later).1
            <==> put.id.Some? && put.id.value in Reclaimed(rows, scope, retention, now)
                 && !IdReady(rows, put) && TargetReady(lean, put)
  {
    AcceptedIff(rows, put, freshId, retention, later);
    AcceptedIff(Compacted(rows, scope, retention, now), put, freshId, retention, later);
    CompactionMirrors(rows, scope, retention, now);
  }

  /** A put accepted either way writes the same row exactly when it does not revive a taken id under another creation time. */
  lemma CompactionRewritesIff(rows: Rows, scope: Scope, retention: Retention, now: int, put: Put, freshId: Id, later: int)
    requires retention.maxPerScope <= 0 && freshId !in rows
    ensures PutRow(rows, put, PutId(put, freshId), later)
            == PutRow(Compacted(rows, scope, retention, now), put, PutId(put, freshId), later)
            <==> put.id.None? || put.id.value !in Reclaimed(rows, scope, retention, now) || rows[put.id.value].createdAt == later
  {
    CompactionMirrors(rows, scope, retention, now);
  }

  // ----- a table on which it shows

  /** A row that will expire, and one that was superseded by a row which no longer names it. */
  const TABLE: Rows := map[
    [1] := Memory(0, [], Some(5), None, None, 1, 1),
    [2] := Memory(0, [], None, None, Some([3]), 2, 3),
    [3] := Memory(0, [], None, None, None, 3, 4)]

  /** The four puts that lead to it; the last writes the third row again, without the name. */
  const TABLE_HISTORY: seq<(Operation, int)> := [
    (PutOperation(Put(Some([1]), 0, [], Some(5), None), [9]), 1),
    (PutOperation(Put(Some([2]), 0, [], None, None), [9]), 2),
    (PutOperation(Put(Some([3]), 0, [], None, Some([2])), [9]), 3),
    (PutOperation(Put(Some([3]), 0, [], None, None), [9]), 4)]

  lemma OneMore(operations: seq<(Operation, int)>, n: nat, retention: Retention, rows: Rows)
    requires n < |operations| && RowsAfter(operations[..n], retention) == Some(rows)
    requires operations[n].0.PutOperation? ==> operations[n].0.freshId !in rows
    ensures RowsAfter(operations[..n + 1], retention) == Some(Apply(rows, operations[n].0, retention, operations[n].1))
  {
    assert operations[..n + 1][..n] == operations[..n];
  }

  predicate Stays(memory: Memory, retention: Retention, now: int)
  {
    !Expired(memory, now) && (memory.supersededBy.Some? ==> memory.updatedAt > now - retention.maxAgeDays * DAY_MS)
  }

  /** Compaction that finds nothing expired and nothing superseded long enough ago. */
  lemma NothingToTake(rows: Rows, scope: Scope, retention: Retention, now: int)
    requires retention.maxPerScope <= 0
    requires forall id :: id in rows ==> Stays(rows[id], retention, now)
    ensures Compacted(rows, scope, retention, now) == rows
  {
    assert ExpiryPhase(rows, scope, now) == rows;
  }

  const ONE_ROW: Rows := map[[1] := Memory(0, [], Some(5), None, None, 1, 1)]

  const TWO_ROWS: Rows := map[
    [1] := Memory(0, [], Some(5), None, None, 1, 1),
    [2] := Memory(0, [], None, None, None, 2, 2)]

  const THREE_ROWS: Rows := map[
    [1] := Memory(0, [], Some(5), None, None, 1, 1),
    [2] := Memory(0, [], None, None, Some([3]), 2, 3),
    [3] := Memory(0, [], None, Some([2]), None, 3, 3)]

  lemma FirstPut(retention: Retention)
    requires retention.maxPerScope <= 0 && retention.maxAgeDays > 0
    ensures RowsAfter(TABLE_HISTORY[..1], retention) == Some(ONE_ROW)
  {
    assert TABLE_HISTORY[..0] == [];
    NothingToTake(ONE_ROW, 0, retention, 1);
    OneMore(TABLE_HISTORY, 0, retention, map[]);
  }

  lemma SecondPut(retention: Retention)
    requires retention.maxPerScope <= 0 && retention.maxAgeDays > 0
    ensures RowsAfter(TABLE_HISTORY[..2], retention) == Some(TWO_ROWS)
  {
    FirstPut(retention);
    NothingToTake(TWO_ROWS, 0, retention, 2);
    assert ONE_ROW[[2] := Memory(0, [], None, None, None, 2, 2)] == TWO_ROWS;
    OneMore(TABLE_HISTORY, 1, retention, ONE_ROW);
  }

  lemma ThirdPutLinks()
    ensures var put := Put(Some([3]), 0, [], None, Some([2]));
            PutRefusal(TWO_ROWS, put).None? && Live(TWO_ROWS[[3] := PutRow(TWO_ROWS, put, [3], 3)], 0, [2])
            && Superseded(TWO_ROWS[[3] := PutRow(TWO_ROWS, put, [3], 3)], [2], 0, [3], 3) == THREE_ROWS
  {
  }

  lemma ThirdPut(retention: Retention)
    requires retention.maxPerScope <= 0 && retention.maxAgeDays > 0
    ensures RowsAfter(TABLE_HISTORY[..3], retention) == Some(THREE_ROWS)
  {
    SecondPut(retention);
    NothingToTake(THREE_ROWS, 0, retention, 3);
    ThirdPutLinks();
    OneMore(TABLE_HISTORY, 2, retention, TWO_ROWS);
  }

  lemma FourthPutRewrites()
    ensures var put := Put(Some([3]), 0, [], None, None);
            PutRefusal(THREE_ROWS, put).None? && THREE_ROWS[[3] := PutRow(THREE_ROWS, put, [3], 4)] == TABLE
  {
  }

  lemma TableIsReached(retention: Retention)
    requires retention.maxPerScope <= 0 && retention.maxAgeDays > 0
    ensures RowsAfter(TABLE_HISTORY, retention) == Some(TABLE)
  {
    ThirdPut(retention);
    NothingToTake(TABLE, 0, retention, 4);
    FourthPutRewrites();
    OneMore(TABLE_HISTORY, 3, retention, THREE_ROWS);
    assert TABLE_HISTORY[..4] == TABLE_HISTORY;
  }

  lemma OnlyTheThirdStays(retention: Retention, now: int)
    requires retention.maxPerScope <= 0 && now == 10 + retention.maxAgeDays * DAY_MS && now >= 5
    ensures Compacted(TABLE, 0, retention, now).Keys == {[3]}
  {
    assert [1] !in ExpiryPhase(TABLE, 0, now) && [2] in ExpiryPhase(TABLE, 0, now);
    assert !Named(ExpiryPhase(TABLE, 0, now), 0, [2]);
  }

  lemma AcceptanceOnTable(lean: Rows, retention: Retention, later: int)
    requires lean.Keys == {[3]}
    ensures PutRows(TABLE, RENEWED, [7], retention, later).1 && !PutRows(lean, RENEWED, [7], retention, later).1
    ensures !PutRows(TABLE, REUSED, [7], retention, later).1 && PutRows(lean, REUSED, [7], retention, later).1
  {
    AcceptedIff(TABLE, RENEWED, [7], retention, later);
    AcceptedIff(lean, RENEWED, [7], retention, later);
    AcceptedIff(TABLE, REUSED, [7], retention, later);
    AcceptedIff(lean, REUSED, [7], retention, later);
  }

  /** A put that supersedes the first row, one over the second, one over the first. */
  const RENEWED := Put(None, 0, [9], None, Some([1]))
  const REUSED := Put(Some([2]), 0, [9], None, None)
  const REVIVED := Put(Some([1]), 0, [9], None, None)

  /**
    All three happen on a table that four puts lead to: a put refused only after compaction, one accepted only
    after it, one that loses its creation time.
   */
  lemma CompactionShowsInPuts(retention: Retention, now: int, later: int)
    requires retention.maxPerScope <= 0 && retention.maxAgeDays > 0
    requires now == 10 + retention.maxAgeDays * DAY_MS && later > now
    ensures RowsAfter(TABLE_HISTORY, retention) == Some(TABLE)
    ensures var lean := Compacted(TABLE, 0, retention, now);
            PutRows(TABLE, RENEWED, [7], retention, later).1 && !PutRows(lean, RENEWED, [7], retention, later).1
            && !PutRows(TABLE, REUSED, [7], retention, later).1 && PutRows(lean, REUSED, [7], retention, later).1
            && PutRow(TABLE, REVIVED, [1], later).createdAt == 1 && PutRow(lean, REVIVED, [1], later).createdAt == later
  {
    TableIsReached(retention);
    OnlyTheThirdStays(retention, now);
    AcceptanceOnTable(Compacted(TABLE, 0, retention, now), retention, later);
  }
}
