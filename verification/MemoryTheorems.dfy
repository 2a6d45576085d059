/**
  What callers of the memory may rely on: a supersession never runs in a circle, compaction without a
  ceiling takes nothing away that a read would have returned, and what a refused put leaves behind.
 */
module MemoryTheorems {
  import opened Wrappers
  import opened Text
  import opened Memories

  // ----- supersession is acyclic

  predicate Edge(rows: Rows, a: Id, b: Id)
  {
    a in rows && rows[a].supersededBy == Some(b)
  }

  ghost predicate Chain(rows: Rows, path: seq<Id>)
  {
    forall i :: 0 <= i < |path| - 1 ==> Edge(rows, path[i], path[i + 1])
  }

  ghost predicate Acyclic(rows: Rows)
  {
    forall path :: |path| > 1 && Chain(rows, path) ==> path[0] != path[|path| - 1]
  }

  /** Taking edges away cannot close a circle. */
  lemma ShrinkKeepsAcyclic(before: Rows, after: Rows)
    requires Acyclic(before) && forall a, b :: Edge(after, a, b) ==> Edge(before, a, b)
    ensures Acyclic(after)
  {
    forall path | |path| > 1 && Chain(after, path) ensures path[0] != path[|path| - 1] {
      assert Chain(before, path);
    }
  }

  /** A circle passes through no row that is not superseded. */
  lemma CircleAvoids(rows: Rows, path: seq<Id>, sink: Id, i: nat)
    requires |path| > 1 && Chain(rows, path) && path[0] == path[|path| - 1] && i < |path|
    requires sink !in rows || rows[sink].supersededBy.None?
    ensures path[i] != sink
  {
    var j := if i < |path| - 1 then i else 0;
    assert Edge(rows, path[j], path[j + 1]);
  }

  /** Nor can edges into a row that itself is not superseded. */
  lemma EdgesIntoASinkKeepAcyclic(before: Rows, after: Rows, sink: Id)
    requires Acyclic(before) && (sink !in after || after[sink].supersededBy.None?)
    requires forall a, b :: Edge(after, a, b) && b != sink ==> Edge(before, a, b)
    ensures Acyclic(after)
  {
    forall path | |path| > 1 && Chain(after, path) ensures path[0] != path[|path| - 1] {
      if path[0] == path[|path| - 1] {
        forall i: nat | i < |path| - 1 ensures Edge(before, path[i], path[i + 1]) {
          CircleAvoids(after, path, sink, i + 1);
          assert Edge(after, path[i], path[i + 1]);
        }
        assert Chain(before, path);
      }
    }
  }

  lemma CompactionKeepsAcyclic(rows: Rows, scope: Scope, retention: Retention, now: int)
    requires Acyclic(rows)
    ensures Acyclic(Compacted(rows, scope, retention, now))
  {
    ShrinkKeepsAcyclic(rows, Compacted(rows, scope, retention, now));
  }

  lemma PutKeepsAcyclic(rows: Rows, put: Put, freshId: Id, retention: Retention, now: int)
    requires Acyclic(rows) && freshId !in rows
    ensures Acyclic(PutRows(rows, put, freshId, retention, now).0)
  {
    if PutRefusal(rows, put).None? {
      var id := PutId(put, freshId);
      var written := rows[id := PutRow(rows, put, id, now)];
      ShrinkKeepsAcyclic(rows, written);
      if put.supersedesId.None? {
        CompactionKeepsAcyclic(written, put.scope, retention, now);
      } else if !Live(written, put.scope, put.supersedesId.value) {
        ShrinkKeepsAcyclic(written, written - {id});
      } else {
        var linked := Superseded(written, put.supersedesId.value, put.scope, id, now);
        EdgesIntoASinkKeepAcyclic(written, linked, id);
        CompactionKeepsAcyclic(linked, put.scope, retention, now);
      }
    }
  }

  datatype Operation =
    | PutOperation(put: Put, freshId: Id)
    | DeleteOperation(id: Id, scope: Scope)
    | ClearOperation(scope: Scope)
    | CompactOperation(scope: Scope)

  function Apply(rows: Rows, operation: Operation, retention: Retention, now: int): Rows
  {
    match operation
    case PutOperation(put, freshId) => PutRows(rows, put, freshId, retention, now).0
    case DeleteOperation(id, scope) => Deleted(rows, id, scope)
    case ClearOperation(scope) => Cleared(rows, scope)
    case CompactOperation(scope) => Compacted(rows, scope, retention, now)
  }

  /** The rows after a list of timed operations on an empty store; a new id is one that no row has. */
  function RowsAfter(operations: seq<(Operation, int)>, retention: Retention): Option<Rows>
  {
    if operations == [] then Some(map[])
    else
      var before := RowsAfter(operations[..|operations| - 1], retention);
      var (operation, now) := operations[|operations| - 1];
      if before.None? || (operation.PutOperation? && operation.freshId in before.value) then None
      else Some(Apply(before.value, operation, retention, now))
  }

  /** Under any sequence of put, delete, clear and compaction, nothing supersedes itself, however indirectly. */
  lemma {:induction false} SupersessionIsAcyclic(operations: seq<(Operation, int)>, retention: Retention)
    requires RowsAfter(operations, retention).Some?
    ensures Acyclic(RowsAfter(operations, retention).value)
  {
    if operations == [] {
      forall path: seq<Id> | |path| > 1 ensures !Chain(map[], path) {
        assert !Edge(map[], path[0], path[1]);
      }
    } else {
      var init := operations[..|operations| - 1];
      var (operation, now) := operations[|operations| - 1];
      SupersessionIsAcyclic(init, retention);
      var rows := RowsAfter(init, retention).value;
      match operation
      case PutOperation(put, freshId) => PutKeepsAcyclic(rows, put, freshId, retention, now);
      case CompactOperation(scope) => CompactionKeepsAcyclic(rows, scope, retention, now);
      case _ => ShrinkKeepsAcyclic(rows, Apply(rows, operation, retention, now));
    }
  }

  // ----- compaction without a ceiling

  /** On the table as it is, no read that leaves superseded rows out can tell that a scope was compacted, at any later clock. */
  lemma CompactionChangesNoRead(rows: Rows, scope: Scope, retention: Retention, now: int, read: Scope, later: int)
    requires retention.maxPerScope <= 0 && now <= later
    ensures Visible(Compacted(rows, scope, retention, now), read, later, false) == Visible(rows, read, later, false)
  {
  }

  /**
    A row that a live row of the scope names is taken away exactly when it had expired there: the phase that
    reclaims superseded rows never leaves a name dangling, the expiry phase does.
   */
  lemma NamedRowsGoOnlyByExpiry(rows: Rows, scope: Scope, retention: Retention, now: int, x: Id, y: Id)
    requires retention.maxPerScope <= 0 && y in rows
    requires var after := Compacted(rows, scope, retention, now);
      Live(after, scope, x) && after[x].supersedesId == Some(y)
    ensures y !in Compacted(rows, scope, retention, now) <==> rows[y].scope == scope && Expired(rows[y], now)
  {
    var unexpired := ExpiryPhase(rows, scope, now);
    if y in unexpired {
      assert Live(unexpired, scope, x) && unexpired[x].supersedesId == Some(y);
      assert Named(unexpired, scope, y);
    }
  }

  /** Such a row exists: the note against dangling names does not hold of expired rows. */
  lemma ExpiryMayDangle(retention: Retention)
    requires retention.maxPerScope <= 0 && retention.maxAgeDays > 0
    ensures var rows: Rows := map[
        [1] := Memory(0, [], Some(5), None, Some([2]), 0, 3),
        [2] := Memory(0, [], None, Some([1]), None, 3, 3)];
      var after := Compacted(rows, 0, retention, 10);
      Live(after, 0, [2]) && after[[2]].supersedesId == Some([1]) && [1] !in after
  {
  }

  // ----- what a put does

  /**
    A refused put leaves the rows as they were, except in one case: it passed every check, its target had
    already been superseded, and its own id was stored before. Then the stored row is gone.
   */
  lemma RefusedPutIsHarmless(rows: Rows, put: Put, freshId: Id, retention: Retention, now: int)
    requires freshId !in rows && !PutRows(rows, put, freshId, retention, now).1
    ensures PutRows(rows, put, freshId, retention, now).0 == rows
      <==> PutRefusal(rows, put).Some? || put.id.None? || put.id.value !in rows
    ensures PutRefusal(rows, put).None? ==> PutRows(rows, put, freshId, retention, now).0 == rows - {PutId(put, freshId)}
  {
    if PutRefusal(rows, put).None? {
      var id := PutId(put, freshId);
      var written := rows[id := PutRow(rows, put, id, now)];
      assert written - {id} == rows - {id};
      if id !in rows { assert rows - {id} == rows; }
    }
  }

  lemma RefusedPutMayDelete(rows: Rows, put: Put, retention: Retention)
    requires rows == map[
        [1] := Memory(0, [], None, None, Some([2]), 0, 3),
        [2] := Memory(0, [], None, Some([1]), None, 3, 3),
        [3] := Memory(0, [], None, None, None, 4, 4)]
    requires put == Put(Some([3]), 0, [9], None, Some([1]))
    ensures PutRows(rows, put, [7], retention, 10) == (rows - {[3]}, false)
  {
    var written := rows[[3] := PutRow(rows, put, [3], 10)];
    assert written - {[3]} == rows - {[3]};
  }

  /** Round trip: what an accepted put wrote is what the id gives afterwards, unless it was written already expired. */
  lemma PutIsStored(rows: Rows, put: Put, freshId: Id, retention: Retention, now: int)
    requires retention.maxPerScope <= 0 && freshId !in rows
    requires PutRows(rows, put, freshId, retention, now).1
    ensures var (after, id) := (PutRows(rows, put, freshId, retention, now).0, PutId(put, freshId));
            (id in after <==> put.expiresAt.None? || put.expiresAt.value > now)
            && (id in after ==> after[id] == Memory(put.scope, put.content, put.expiresAt, put.supersedesId, None,
                                                    if id in rows then rows[id].createdAt else now, now))
  {
    var id := PutId(put, freshId);
    var written := rows[id := PutRow(rows, put, id, now)];
    if put.supersedesId.Some? {
      assert Superseded(written, put.supersedesId.value, put.scope, id, now)[id] == written[id];
    }
  }

  /** Clearing a scope empties every read of it and changes no read of another, superseded rows included. */
  lemma ClearingEmptiesOneScope(rows: Rows, scope: Scope, read: Scope, now: int, includeSuperseded: bool)
    ensures Visible(Cleared(rows, scope), read, now, includeSuperseded)
         == if read == scope then map[] else Visible(rows, read, now, includeSuperseded)
  {
  }

  /** What a caller sees after an accepted put: the new row in the place of the one it supersedes, nothing else. */
  function Replaced(rows: Rows, put: Put, id: Id, now: int): Rows
  {
    (if put.supersedesId.Some? then rows - {put.supersedesId.value} else rows)[id := PutRow(rows, put, id, now)]
  }

  lemma PutReplaces(rows: Rows, put: Put, freshId: Id, retention: Retention, now: int, read: Scope, later: int)
    requires retention.maxPerScope <= 0 && now <= later && freshId !in rows
    requires PutRows(rows, put, freshId, retention, now).1
    ensures Visible(PutRows(rows, put, freshId, retention, now).0, read, later, false)
      == Visible(Replaced(rows, put, PutId(put, freshId), now), read, later, false)
  {
    var id := PutId(put, freshId);
    var written := rows[id := PutRow(rows, put, id, now)];
    var linked :=
      if put.supersedesId.Some? then Superseded(written, put.supersedesId.value, put.scope, id, now) else written;
    CompactionChangesNoRead(linked, put.scope, retention, now, read, later);
    assert Visible(linked, read, later, false) == Visible(Replaced(rows, put, id, now), read, later, false);
  }

  // ----- compaction under a ceiling

  lemma BeforeIsTransitive(rows: Rows, a: Id, b: Id, c: Id)
    requires a in rows && b in rows && c in rows && Before(rows, a, b) && Before(rows, b, c)
    ensures Before(rows, a, c)
  {
    if rows[a].updatedAt == rows[b].updatedAt == rows[c].updatedAt {
      LeTransitive(c, b, a);
      if a == c { LeAntisymmetric(a, b); }
    }
  }

  lemma BeforeIsTotal(rows: Rows, a: Id, b: Id)
    requires a in rows && b in rows && a != b
    ensures Before(rows, a, b) || Before(rows, b, a)
  {
    LeTotal(a, b);
  }

  /** Whatever is before another live row has fewer live rows ahead of it. */
  lemma AheadGrows(rows: Rows, scope: Scope, a: Id, b: Id)
    requires Live(rows, scope, a) && b in rows && Before(rows, a, b)
    ensures |Ahead(rows, scope, a)| < |Ahead(rows, scope, b)|
  {
    forall other | other in Ahead(rows, scope, a) ensures other in Ahead(rows, scope, b) {
      BeforeIsTransitive(rows, other, a, b);
    }
    var smaller, larger := Ahead(rows, scope, a), Ahead(rows, scope, b);
    assert a in larger && a !in smaller;
    Contained(smaller, larger - {a});
  }

  lemma Contained<T>(a: set<T>, b: set<T>)
    requires a <= b
    ensures |a| <= |b|
  {
    assert b == a + (b - a);
  }

  /** Eviction takes the oldest: whatever it keeps is before whatever it drops. */
  lemma EvictionTakesTheOldest(rows: Rows, scope: Scope, ceiling: int, kept: Id, dropped: Id)
    requires Live(rows, scope, kept) && kept in EvictionPhase(rows, scope, ceiling)
    requires dropped in rows && dropped !in EvictionPhase(rows, scope, ceiling)
    ensures Before(rows, kept, dropped)
  {
    BeforeIsTotal(rows, kept, dropped);
    if Before(rows, dropped, kept) {
      AheadGrows(rows, scope, dropped, kept);
    }
  }

  lemma {:induction false} LastOne(rows: Rows, some: set<Id>) returns (last: Id)
    requires some != {} && some <= rows.Keys
    ensures last in some && forall id :: id in some && id != last ==> Before(rows, id, last)
  {
    var id :| id in some;
    if some == {id} {
      last := id;
    } else {
      last := LastOne(rows, some - {id});
      BeforeIsTotal(rows, id, last);
      if Before(rows, last, id) {
        forall other | other in some && other != id ensures Before(rows, other, id) {
          if other != last { BeforeIsTransitive(rows, other, last, id); }
        }
        last := id;
      }
    }
  }

  function LiveIds(rows: Rows, scope: Scope): set<Id>
  {
    set id | id in rows && Live(rows, scope, id)
  }

  /** No more live rows than the ceiling are left. */
  lemma CeilingHolds(rows: Rows, scope: Scope, ceiling: int)
    requires ceiling > 0
    ensures |LiveIds(EvictionPhase(rows, scope, ceiling), scope)| <= ceiling
  {
    var kept := LiveIds(EvictionPhase(rows, scope, ceiling), scope);
    if kept != {} {
      var last := LastOne(rows, kept);
      Contained(kept - {last}, Ahead(rows, scope, last));
    }
  }
}
