/**
  The memory table of packages/storage-sqlite/src/index.ts and `LocalMemory` of packages/memory/src/index.ts:
  which rows there are, which one supersedes which, and what compaction takes away. Key, value, tags and the
  other fields no decision looks at are one opaque text.
 */
module Memories {
  import opened Wrappers
  import opened Text

  type Id = Text
  type Scope = nat

  datatype Memory = Memory(
    scope: Scope,
    content: Text,
    expiresAt: Option<int>,
    supersedesId: Option<Id>,
    supersededBy: Option<Id>,
    createdAt: int,
    updatedAt: int)

  type Rows = map<Id, Memory>

  const DAY_MS: int := 86_400_000

  datatype Retention = Retention(maxAgeDays: int, maxPerScope: int)

  // ----- what a read sees

  predicate Expired(memory: Memory, now: int)
  {
    memory.expiresAt.Some? && memory.expiresAt.value <= now
  }

  predicate Shown(memory: Memory, scope: Scope, now: int, includeSuperseded: bool)
  {
    memory.scope == scope && !Expired(memory, now) && (includeSuperseded || memory.supersededBy.None?)
  }

  /** Every row a read may return, before order and limit. */
  function Visible(rows: Rows, scope: Scope, now: int, includeSuperseded: bool): Rows
  {
    map id | id in rows && Shown(rows[id], scope, now, includeSuperseded) :: rows[id]
  }

  /** Newest first, without repetition, and nothing left out that is newer than what was listed. */
  ghost predicate IsListing(listing: seq<Id>, visible: Rows, limit: nat)
  {
    |listing| <= limit
    && (forall i :: 0 <= i < |listing| ==> listing[i] in visible)
    && (forall i, j :: 0 <= i < j < |listing| ==>
        listing[i] != listing[j] && visible[listing[i]].updatedAt >= visible[listing[j]].updatedAt)
    && (|listing| < limit ==> forall id :: id in visible ==> id in listing)
    && (forall id, i :: id in visible && id !in listing && 0 <= i < |listing| ==>
        visible[listing[i]].updatedAt >= visible[id].updatedAt)
  }

  // ----- the three phases of compaction

  predicate Live(rows: Rows, scope: Scope, id: Id)
  {
    id in rows && rows[id].scope == scope && rows[id].supersededBy.None?
  }

  function ExpiryPhase(rows: Rows, scope: Scope, now: int): Rows
  {
    map id | id in rows && !(rows[id].scope == scope && Expired(rows[id], now)) :: rows[id]
  }

  /** Some unsuperseded row of the scope says that it supersedes `id`. */
  predicate Named(rows: Rows, scope: Scope, id: Id)
  {
    exists other :: other in rows && Live(rows, scope, other) && rows[other].supersedesId == Some(id)
  }

  function SupersededPhase(rows: Rows, scope: Scope, cutoff: int): Rows
  {
    map id | id in rows
      && !(rows[id].scope == scope && rows[id].supersededBy.Some? && rows[id].updatedAt <= cutoff && !Named(rows, scope, id))
      :: rows[id]
  }

  /** `ORDER BY updated_at DESC, id DESC` */
  predicate Before(rows: Rows, a: Id, b: Id)
    requires a in rows && b in rows
  {
    rows[a].updatedAt > rows[b].updatedAt || (rows[a].updatedAt == rows[b].updatedAt && a != b && Le(b, a))
  }

  function Ahead(rows: Rows, scope: Scope, id: Id): set<Id>
    requires id in rows
  {
    set other | other in rows && Live(rows, scope, other) && Before(rows, other, id)
  }

  /** A live row survives while fewer than `ceiling` live rows are ahead of it. */
  function EvictionPhase(rows: Rows, scope: Scope, ceiling: int): Rows
  {
    if ceiling <= 0 then rows
    else map id | id in rows && !(Live(rows, scope, id) && |Ahead(rows, scope, id)| >= ceiling) :: rows[id]
  }

  function Compacted(rows: Rows, scope: Scope, retention: Retention, now: int): Rows
  {
    var unexpired := ExpiryPhase(rows, scope, now);
    var reclaimed := SupersededPhase(unexpired, scope, now - retention.maxAgeDays * DAY_MS);
    EvictionPhase(reclaimed, scope, retention.maxPerScope)
  }

  // ----- the put path

  datatype Put = Put(
    id: Option<Id>,
    scope: Scope,
    content: Text,
    expiresAt: Option<int>,
    supersedesId: Option<Id>)

  /** Why a put is refused before anything is written. */
  function PutRefusal(rows: Rows, put: Put): Option<string>
  {
    var existing := if put.id.Some? && put.id.value in rows then Some(rows[put.id.value]) else None;
    if existing.Some? && existing.value.scope != put.scope then Some("memory_scope_mismatch")
    else if existing.Some? && existing.value.supersededBy.Some? then Some("memory_superseded_record_immutable")
    else if put.supersedesId.Some?
         && (put.supersedesId.value !in rows || rows[put.supersedesId.value].scope != put.scope
             || put.supersedesId == put.id)
    then Some("memory_supersedes_target_invalid")
    else None
  }

  function PutId(put: Put, freshId: Id): Id
  {
    if put.id.Some? then put.id.value else freshId
  }

  function PutRow(rows: Rows, put: Put, id: Id, now: int): Memory
  {
    Memory(put.scope, put.content, put.expiresAt, put.supersedesId, None,
           if put.id.Some? && id in rows then rows[id].createdAt else now, now)
  }

  /** `supersedeMemory`: only a row of the scope that nothing supersedes yet. */
  function Superseded(rows: Rows, id: Id, scope: Scope, heir: Id, now: int): Rows
  {
    if Live(rows, scope, id) then rows[id := rows[id].(supersededBy := Some(heir), updatedAt := now)] else rows
  }

  /** The rows after a put, and whether it was accepted. */
  function PutRows(rows: Rows, put: Put, freshId: Id, retention: Retention, now: int): (Rows, bool)
  {
    if PutRefusal(rows, put).Some? then (rows, false)
    else
      var id := PutId(put, freshId);
      var written := rows[id := PutRow(rows, put, id, now)];
      if put.supersedesId.None? then (Compacted(written, put.scope, retention, now), true)
      else if !Live(written, put.scope, put.supersedesId.value) then (written - {id}, false)
      else (Compacted(Superseded(written, put.supersedesId.value, put.scope, id, now), put.scope, retention, now), true)
  }

  function Deleted(rows: Rows, id: Id, scope: Scope): Rows
  {
    if id in rows && rows[id].scope == scope then rows - {id} else rows
  }

  function Cleared(rows: Rows, scope: Scope): Rows
  {
    map id | id in rows && rows[id].scope != scope :: rows[id]
  }

  class MemoryStore {
    var rows: Rows

    constructor ()
      ensures rows == map[]
    {
      rows := map[];
    }

    method PutMemory(id: Id, memory: Memory)
      modifies this
      ensures rows == old(rows)[id := memory]
    {
      rows := rows[id := memory];
    }

    method GetMemory(id: Id) returns (memory: Option<Memory>)
      ensures memory == if id in rows then Some(rows[id]) else None
    {
      memory := if id in rows then Some(rows[id]) else None;
    }

    /** `listMemories` and `memoryCandidates`: one statement with two names. */
    method ListMemories(scope: Scope, limit: nat, includeSuperseded: bool, now: int) returns (listing: seq<Id>)
      ensures IsListing(listing, Visible(rows, scope, now, includeSuperseded), limit)
    {
      var visible := Visible(rows, scope, now, includeSuperseded);
      var left := visible.Keys;
      listing := [];
      while left != {} && |listing| < limit
        invariant left <= visible.Keys && |listing| <= limit
        invariant forall id :: id in visible <==> id in left || id in listing
        invariant forall id :: id in listing ==> id !in left
        invariant forall i, j :: 0 <= i < j < |listing| ==>
          listing[i] != listing[j] && visible[listing[i]].updatedAt >= visible[listing[j]].updatedAt
        invariant forall id, i :: id in left && 0 <= i < |listing| ==>
          visible[listing[i]].updatedAt >= visible[id].updatedAt
        decreases left
      {
        var newest := Newest(left, visible);
        listing := listing + [newest];
        left := left - {newest};
      }
    }

    method SupersedeMemory(id: Id, scope: Scope, heir: Id, now: int) returns (changed: bool)
      modifies this
      ensures changed <==> Live(old(rows), scope, id)
      ensures rows == Superseded(old(rows), id, scope, heir, now)
    {
      changed := Live(rows, scope, id);
      if changed {
        rows := rows[id := rows[id].(supersededBy := Some(heir), updatedAt := now)];
      }
    }

    method DeleteMemory(id: Id, scope: Scope) returns (deleted: bool)
      modifies this
      ensures deleted <==> id in old(rows) && old(rows)[id].scope == scope
      ensures rows == Deleted(old(rows), id, scope)
    {
      deleted := id in rows && rows[id].scope == scope;
      if deleted {
        rows := rows - {id};
      }
    }

    method ClearMemories(scope: Scope)
      modifies this
      ensures rows == Cleared(old(rows), scope)
    {
      rows := map id | id in rows && rows[id].scope != scope :: rows[id];
    }

    /** Three statements of one transaction. */
    method CompactMemories(scope: Scope, retention: Retention, now: int)
      modifies this
      ensures rows == Compacted(old(rows), scope, retention, now)
    {
      rows := ExpiryPhase(rows, scope, now);
      rows := SupersededPhase(rows, scope, now - retention.maxAgeDays * DAY_MS);
      rows := EvictionPhase(rows, scope, retention.maxPerScope);
    }
  }

  method Newest(left: set<Id>, visible: Rows) returns (newest: Id)
    requires left != {} && left <= visible.Keys
    ensures newest in left && forall id :: id in left ==> visible[newest].updatedAt >= visible[id].updatedAt
  {
    newest :| newest in left;
    var rest := left - {newest};
    while rest != {}
      invariant newest in left && rest <= left
      invariant forall id :: id in left - rest ==> visible[newest].updatedAt >= visible[id].updatedAt
      decreases rest
    {
      var id :| id in rest;
      if visible[id].updatedAt > visible[newest].updatedAt {
        newest := id;
      }
      rest := rest - {id};
    }
  }

  class LocalMemory {
    const store: MemoryStore
    const retention: Retention

    constructor (store: MemoryStore, retention: Retention)
      ensures this.store == store && this.retention == retention
    {
      this.store, this.retention := store, retention;
    }

    /** The put branch of `execute`. */
    method Put(put: Put, freshId: Id, now: int) returns (r: Result<Id, string>)
      requires freshId !in store.rows
      modifies store
      ensures (store.rows, r.Ok?) == PutRows(old(store.rows), put, freshId, retention, now)
      ensures r.Ok? ==> r.value == PutId(put, freshId)
    {
      var refusal := PutRefusal(store.rows, put);
      if refusal.Some? {
        return Err(refusal.value);
      }
      var id := PutId(put, freshId);
      store.PutMemory(id, PutRow(store.rows, put, id, now));
      if put.supersedesId.Some? {
        var done := store.SupersedeMemory(put.supersedesId.value, put.scope, id, now);
        if !done {
          var _ := store.DeleteMemory(id, put.scope);
          return Err("memory_supersedes_target_invalid");
        }
      }
      store.CompactMemories(put.scope, retention, now);
      return Ok(id);
    }
  }
}
