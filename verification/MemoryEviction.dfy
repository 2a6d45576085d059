/**
  What a ceiling on the live rows of a scope comes to: exactly how many rows are left, which ones, and when
  a put keeps the row it wrote.
 */
module MemoryEviction {
  import opened Wrappers
  import opened Text
  import opened Memories
  import opened MemoryTheorems

  function Smaller(a: int, b: int): int
  {
    if a < b then a else b
  }

  lemma {:induction false} FirstOne(rows: Rows, some: set<Id>) returns (first: Id)
    requires some != {} && some <= rows.Keys
    ensures first in some && forall id :: id in some && id != first ==> Before(rows, first, id)
  {
    var id :| id in some;
    if some == {id} {
      first := id;
    } else {
      first := FirstOne(rows, some - {id});
      BeforeIsTotal(rows, id, first);
      if Before(rows, id, first) {
        forall other | other in some && other != id ensures Before(rows, id, other) {
          if other != first { BeforeIsTransitive(rows, id, first, other); }
        }
        first := id;
      }
    }
  }

  /** Only live rows of the scope are ever evicted, and no row is changed. */
  lemma EvictionSparesTheRest(rows: Rows, scope: Scope, ceiling: int, id: Id)
    ensures id in EvictionPhase(rows, scope, ceiling) ==> id in rows && EvictionPhase(rows, scope, ceiling)[id] == rows[id]
    ensures id in rows && !Live(rows, scope, id) ==> id in EvictionPhase(rows, scope, ceiling)
  {
  }

  lemma LiveAfterEviction(rows: Rows, scope: Scope, ceiling: int)
    ensures LiveIds(EvictionPhase(rows, scope, ceiling), scope) <= LiveIds(rows, scope)
    ensures LiveIds(EvictionPhase(rows, scope, ceiling), scope) == LiveIds(rows, scope) * EvictionPhase(rows, scope, ceiling).Keys
  {
  }

  /** If any live row goes, as many as the ceiling stay. */
  lemma EvictionKeepsTheCeiling(rows: Rows, scope: Scope, ceiling: int, dropped: set<Id>)
    requires ceiling > 0 && dropped != {}
    requires dropped == LiveIds(rows, scope) - EvictionPhase(rows, scope, ceiling).Keys
    ensures |LiveIds(EvictionPhase(rows, scope, ceiling), scope)| >= ceiling
  {
    var first := FirstOne(rows, dropped);
    var kept := LiveIds(EvictionPhase(rows, scope, ceiling), scope);
    LiveAfterEviction(rows, scope, ceiling);
    forall other | other in Ahead(rows, scope, first) ensures other in kept {
      if other in dropped {
        BeforeIsTransitive(rows, other, first, other);
      }
    }
    Contained(Ahead(rows, scope, first), kept);
  }

  /** As many live rows are left as the ceiling allows: it never takes one too many. */
  lemma EvictionLeavesExactly(rows: Rows, scope: Scope, ceiling: int)
    requires ceiling > 0
    ensures |LiveIds(EvictionPhase(rows, scope, ceiling), scope)| == Smaller(ceiling, |LiveIds(rows, scope)|)
  {
    var live, kept := LiveIds(rows, scope), LiveIds(EvictionPhase(rows, scope, ceiling), scope);
    var dropped := live - EvictionPhase(rows, scope, ceiling).Keys;
    CeilingHolds(rows, scope, ceiling);
    LiveAfterEviction(rows, scope, ceiling);
    if dropped == {} {
      forall id | id in live ensures id in kept {
        assert id !in dropped;
      }
      assert kept == live;
    } else {
      EvictionKeepsTheCeiling(rows, scope, ceiling, dropped);
      Contained(kept, live);
    }
  }

  // ----- a whole compaction

  /** The rows of a scope that a read without the superseded ones returns. */
  function Current(rows: Rows, scope: Scope, now: int): set<Id>
  {
    set id | id in rows && rows[id].scope == scope && rows[id].supersededBy.None?
             && (rows[id].expiresAt.None? || now < rows[id].expiresAt.value)
  }

  function Reclaimed(rows: Rows, scope: Scope, retention: Retention, now: int): Rows
  {
    SupersededPhase(ExpiryPhase(rows, scope, now), scope, now - retention.maxAgeDays * DAY_MS)
  }

  lemma ReclaimingKeepsCurrent(rows: Rows, scope: Scope, retention: Retention, now: int)
    ensures LiveIds(Reclaimed(rows, scope, retention, now), scope) == Current(rows, scope, now)
  {
  }

  /** Nothing outside the scope is taken by any phase. */
  lemma CompactionStaysInScope(rows: Rows, scope: Scope, retention: Retention, now: int, id: Id)
    ensures id in Compacted(rows, scope, retention, now) ==> id in rows && Compacted(rows, scope, retention, now)[id] == rows[id]
    ensures id in rows && rows[id].scope != scope ==> id in Compacted(rows, scope, retention, now)
  {
  }

  /** Under a ceiling compaction leaves as many current rows of the scope as it allows. */
  lemma CompactionLeavesExactly(rows: Rows, scope: Scope, retention: Retention, now: int)
    requires retention.maxPerScope > 0
    ensures |Current(Compacted(rows, scope, retention, now), scope, now)|
         == Smaller(retention.maxPerScope, |Current(rows, scope, now)|)
  {
    ReclaimingKeepsCurrent(rows, scope, retention, now);
    EvictionLeavesExactly(Reclaimed(rows, scope, retention, now), scope, retention.maxPerScope);
    var after := Compacted(rows, scope, retention, now);
    LiveAfterEviction(Reclaimed(rows, scope, retention, now), scope, retention.maxPerScope);
    assert Current(after, scope, now) == LiveIds(after, scope);
  }

  /** It leaves the newest: what it takes of the current rows is behind everything it leaves. */
  lemma CompactionLeavesTheNewest(rows: Rows, scope: Scope, retention: Retention, now: int, kept: Id, dropped: Id)
    requires retention.maxPerScope > 0
    requires kept in Current(rows, scope, now) && kept in Compacted(rows, scope, retention, now)
    requires dropped in Current(rows, scope, now) && dropped !in Compacted(rows, scope, retention, now)
    ensures rows[kept].updatedAt >= rows[dropped].updatedAt
    ensures rows[kept].updatedAt == rows[dropped].updatedAt ==> Le(dropped, kept)
  {
    ReclaimingKeepsCurrent(rows, scope, retention, now);
    assert kept in LiveIds(Reclaimed(rows, scope, retention, now), scope);
    assert dropped in LiveIds(Reclaimed(rows, scope, retention, now), scope);
    EvictionTakesTheOldest(Reclaimed(rows, scope, retention, now), scope, retention.maxPerScope, kept, dropped);
  }

  /** The current rows of the scope that were updated after `id`, or with it under a greater id. */
  function Newer(rows: Rows, scope: Scope, now: int, id: Id): set<Id>
    requires id in rows
  {
    set other | other in Current(rows, scope, now) && other != id
                && (rows[other].updatedAt > rows[id].updatedAt
                    || (rows[other].updatedAt == rows[id].updatedAt && Le(id, other)))
  }

  /** A current row of the scope still says that it supersedes `id`. */
  predicate StillNamed(rows: Rows, scope: Scope, now: int, id: Id)
  {
    exists heir :: heir in Current(rows, scope, now) && rows[heir].supersedesId == Some(id)
  }

  lemma SupersededGoesIff(rows: Rows, scope: Scope, retention: Retention, now: int, id: Id)
    requires id in rows && rows[id].scope == scope && rows[id].supersededBy.Some? && !Expired(rows[id], now)
    ensures id in Reclaimed(rows, scope, retention, now)
      <==> (now - rows[id].updatedAt < retention.maxAgeDays * 24 * 60 * 60 * 1000 || StillNamed(rows, scope, now, id))
  {
    var unexpired := ExpiryPhase(rows, scope, now);
    assert Named(unexpired, scope, id) <==> StillNamed(rows, scope, now, id) by {
      if heir :| heir in Current(rows, scope, now) && rows[heir].supersedesId == Some(id) {
        assert Live(unexpired, scope, heir);
      }
    }
  }

  lemma CurrentGoesIff(rows: Rows, scope: Scope, retention: Retention, now: int, id: Id)
    requires retention.maxPerScope > 0 && id in Current(rows, scope, now)
    ensures id in Compacted(rows, scope, retention, now) <==> |Newer(rows, scope, now, id)| < retention.maxPerScope
  {
    var reclaimed := Reclaimed(rows, scope, retention, now);
    ReclaimingKeepsCurrent(rows, scope, retention, now);
    assert id in LiveIds(reclaimed, scope);
    assert Ahead(reclaimed, scope, id) == Newer(rows, scope, now, id) by {
      assert Ahead(reclaimed, scope, id) <= LiveIds(reclaimed, scope);
      assert forall other :: other in Current(rows, scope, now) ==> other in LiveIds(reclaimed, scope);
    }
    OnlyTheCrowdedGo(reclaimed, scope, retention.maxPerScope, id);
  }

  /**
    Which rows of the scope a compaction takes, kind by kind: the expired ones; of the superseded ones those
    that are old and that no current row names; of the current ones those behind as many others as the ceiling.
   */
  lemma CompactionIsExact(rows: Rows, scope: Scope, retention: Retention, now: int, id: Id)
    requires id in rows && rows[id].scope == scope
    ensures id in Compacted(rows, scope, retention, now) <==>
      if rows[id].expiresAt.Some? && rows[id].expiresAt.value <= now then false
      else if rows[id].supersededBy.Some? then
        now - rows[id].updatedAt < retention.maxAgeDays * 24 * 60 * 60 * 1000 || StillNamed(rows, scope, now, id)
      else retention.maxPerScope <= 0 || |Newer(rows, scope, now, id)| < retention.maxPerScope
  {
    var reclaimed := Reclaimed(rows, scope, retention, now);
    EvictionSparesTheRest(reclaimed, scope, retention.maxPerScope, id);
    if !Expired(rows[id], now) && rows[id].supersededBy.Some? {
      SupersededGoesIff(rows, scope, retention, now, id);
    } else if !Expired(rows[id], now) && retention.maxPerScope > 0 {
      CurrentGoesIff(rows, scope, retention, now, id);
    }
  }

  // ----- which puts are accepted

  /** The row a put would write under an id of its own is free for it: not there, or of the scope and not superseded. */
  predicate MayWrite(rows: Rows, put: Put)
  {
    match put.id
    case None => true
    case Some(id) => id in rows ==> rows[id].scope == put.scope && rows[id].supersededBy.None?
  }

  /** What a put says it supersedes is another row of its scope that nothing supersedes yet. */
  predicate MaySupersede(rows: Rows, put: Put)
  {
    match put.supersedesId
    case None => true
    case Some(other) => put.id != Some(other) && other in rows && rows[other].scope == put.scope && rows[other].supersededBy.None?
  }

  /** A put is accepted exactly if it may write and may supersede. */
  lemma AcceptedIff(rows: Rows, put: Put, freshId: Id, retention: Retention, now: int)
    requires freshId !in rows
    ensures PutRows(rows, put, freshId, retention, now).1 <==> MayWrite(rows, put) && MaySupersede(rows, put)
  {
  }

  // ----- a put under a ceiling

  /** The current rows of the scope that come before a row written now under `id`, apart from the one it supersedes. */
  function InFront(rows: Rows, put: Put, id: Id, now: int): set<Id>
  {
    set other | other in Current(rows, put.scope, now) && other != id && Some(other) != put.supersedesId
                && (rows[other].updatedAt > now || (rows[other].updatedAt == now && Le(id, other)))
  }

  /** The rows at the moment an accepted put is compacted. */
  function Written(rows: Rows, put: Put, id: Id, now: int): Rows
  {
    var written := rows[id := PutRow(rows, put, id, now)];
    if put.supersedesId.None? then written else Superseded(written, put.supersedesId.value, put.scope, id, now)
  }

  lemma WhatIsAhead(rows: Rows, put: Put, id: Id, retention: Retention, now: int)
    requires put.supersedesId.Some? ==> put.supersedesId != Some(id) && Live(rows, put.scope, put.supersedesId.value)
    requires id in Reclaimed(Written(rows, put, id, now), put.scope, retention, now)
    ensures Ahead(Reclaimed(Written(rows, put, id, now), put.scope, retention, now), put.scope, id) == InFront(rows, put, id, now)
  {
  }

  lemma PutIsCompacted(rows: Rows, put: Put, freshId: Id, retention: Retention, now: int, id: Id)
    requires freshId !in rows && PutRows(rows, put, freshId, retention, now).1 && id == PutId(put, freshId)
    ensures put.supersedesId.Some? ==> put.supersedesId != Some(id) && Live(rows, put.scope, put.supersedesId.value)
    ensures PutRows(rows, put, freshId, retention, now).0 == Compacted(Written(rows, put, id, now), put.scope, retention, now)
  {
  }

  lemma WrittenIsReclaimedIff(rows: Rows, put: Put, id: Id, retention: Retention, now: int)
    requires put.supersedesId != Some(id)
    ensures var reclaimed := Reclaimed(Written(rows, put, id, now), put.scope, retention, now);
      (id in reclaimed <==> put.expiresAt.None? || put.expiresAt.value > now)
      && (id in reclaimed ==> reclaimed[id] == PutRow(rows, put, id, now) && Live(reclaimed, put.scope, id))
  {
    assert Written(rows, put, id, now)[id] == PutRow(rows, put, id, now);
  }

  /** An accepted put keeps its row exactly if it is not already expired and fewer rows than the ceiling are in front of it. */
  lemma PutKeepsItsRowIff(rows: Rows, put: Put, freshId: Id, retention: Retention, now: int, id: Id)
    requires retention.maxPerScope > 0 && freshId !in rows && PutRows(rows, put, freshId, retention, now).1
    requires id == PutId(put, freshId)
    ensures id in PutRows(rows, put, freshId, retention, now).0
      <==> ((put.expiresAt.None? || put.expiresAt.value > now) && |InFront(rows, put, id, now)| < retention.maxPerScope)
    ensures id in PutRows(rows, put, freshId, retention, now).0
      ==> PutRows(rows, put, freshId, retention, now).0[id]
          == Memory(put.scope, put.content, put.expiresAt, put.supersedesId, None, if id in rows then rows[id].createdAt else now, now)
  {
    PutIsCompacted(rows, put, freshId, retention, now, id);
    WrittenIsReclaimedIff(rows, put, id, retention, now);
    var reclaimed := Reclaimed(Written(rows, put, id, now), put.scope, retention, now);
    if id in reclaimed {
      WhatIsAhead(rows, put, id, retention, now);
      OnlyTheCrowdedGo(reclaimed, put.scope, retention.maxPerScope, id);
    }
  }

  lemma OnlyTheCrowdedGo(rows: Rows, scope: Scope, ceiling: int, id: Id)
    requires ceiling > 0 && Live(rows, scope, id)
    ensures id in EvictionPhase(rows, scope, ceiling) <==> |Ahead(rows, scope, id)| < ceiling
    ensures id in EvictionPhase(rows, scope, ceiling) ==> EvictionPhase(rows, scope, ceiling)[id] == rows[id]
  {
  }

  /** In particular a clock that is ahead of the rows of the scope: the new row is never the one evicted. */
  lemma NewestPutIsKept(rows: Rows, put: Put, freshId: Id, retention: Retention, now: int)
    requires retention.maxPerScope > 0 && freshId !in rows && PutRows(rows, put, freshId, retention, now).1
    requires put.expiresAt.None? || put.expiresAt.value > now
    requires forall other :: other in Current(rows, put.scope, now) ==> rows[other].updatedAt < now
    ensures PutId(put, freshId) in PutRows(rows, put, freshId, retention, now).0
  {
    assert InFront(rows, put, PutId(put, freshId), now) == {};
    PutKeepsItsRowIff(rows, put, freshId, retention, now, PutId(put, freshId));
  }
}
