/** One flush with nothing else going on: what FlushAll leaves in the table. */
module SyncWorkers {
  import opened StatPackets
  import opened RedisKeys
  import opened RedisManagers
  import opened WriteBehind

  /** How a statement ends; one that reports failure may have been applied. */
  datatype Outcome = Succeeded | FailedButApplied | FailedOutright

  /** What an update leaves: the row of the id in the packet changed, if there is one. */
  function Put(rows: map<u64, Row>, stat: StatPacket): map<u64, Row> {
    if stat.characterId in rows then rows[stat.characterId := Project(stat)] else rows
  }

  /** Each column has the packet's field of that name. */
  predicate HasFieldsOf(row: Row, stat: StatPacket) {
    && row.level == stat.level
    && row.hpMax == stat.hpMax && row.hp == stat.hp
    && row.mpMax == stat.mpMax && row.mp == stat.mp
    && row.isAlive == stat.isAlive && row.lastMapId == stat.lastMapId
  }

  /** The character_stat table; rows are updated and never inserted here. */
  class CharacterTable {
    var rows: map<u64, Row>

    method UpdateCharacterStat(stat: StatPacket, outcome: Outcome) returns (ok: bool)
      modifies this
      ensures ok == outcome.Succeeded?
      ensures rows == if outcome.FailedOutright? then old(rows) else Put(old(rows), stat)
      ensures rows.Keys == old(rows).Keys
      ensures forall id | id in rows && id != stat.characterId :: rows[id] == old(rows)[id]
      ensures stat.characterId in rows ==>
                if outcome.FailedOutright? then rows[stat.characterId] == old(rows)[stat.characterId]
                else
                  var row := rows[stat.characterId];
                  && row.level == stat.level
                  && row.hpMax == stat.hpMax && row.hp == stat.hp
                  && row.mpMax == stat.mpMax && row.mp == stat.mp
                  && row.isAlive == stat.isAlive && row.lastMapId == stat.lastMapId
    {
      if !outcome.FailedOutright? && stat.characterId in rows {
        rows := rows[stat.characterId := Project(stat)];
      }
      return outcome.Succeeded?;
    }
  }

  class SyncWorker {
    const redis: RedisManager
    const table: CharacterTable

    constructor (redis: RedisManager, table: CharacterTable)
      ensures this.redis == redis && this.table == table
    {
      this.redis, this.table := redis, table;
    }

    /** The table that agrees with the cache wherever the cache has something to say. */
    ghost function Target(rows: map<u64, Row>): map<u64, Row>
      requires redis.Valid()
      reads redis
    {
      map id | id in rows :: if redis.Cached(id).Some? then Project(redis.Cached(id).value) else rows[id]
    }

    /** Row by row: the fields of the cached stat, or what was there if there is none. */
    ghost predicate Agrees(before: map<u64, Row>, rows: map<u64, Row>)
      requires redis.Valid()
      reads redis
    {
      && rows.Keys == before.Keys
      && forall id | id in rows ::
           if redis.Cached(id).Some? then HasFieldsOf(rows[id], redis.Cached(id).value) else rows[id] == before[id]
    }

    /** The guarantee of SCAN: every cached stat's key is on some page. */
    ghost predicate Covers(replies: seq<Reply>)
      requires redis.Valid()
      reads redis
    {
      forall id: u64 | redis.Cached(id).Some? :: StatKey(id) in KeysSeen(replies)
    }

    /** The positions in the scan at which the cache brought a stat and the update succeeded. */
    ghost function Successes(ids: seq<u64>, gets: nat -> GetReply, updates: nat -> Outcome): set<nat>
      requires redis.Valid()
      reads redis
    {
      set i: nat | i < |ids| && redis.Brought(ids[i], gets(i)).Some? && updates(i).Succeeded?
    }

    lemma OneMoreSuccess(ids: seq<u64>, i: nat, gets: nat -> GetReply, updates: nat -> Outcome)
      requires redis.Valid() && i < |ids|
      ensures |Successes(ids[..i + 1], gets, updates)|
           == |Successes(ids[..i], gets, updates)|
              + if redis.Brought(ids[i], gets(i)).Some? && updates(i).Succeeded? then 1 else 0
    {
      var before, after := Successes(ids[..i], gets, updates), Successes(ids[..i + 1], gets, updates);
      assert i !in before;
      assert forall j: nat :: j in after <==> j in before || (j == i && j in after);
      assert after == if i in after then before + {i} else before;
    }

    ghost predicate NothingFails(gets: nat -> GetReply, updates: nat -> Outcome) {
      forall i: nat :: gets(i).Answer? && updates(i).Succeeded?
    }

    /** The row is the text of one of the first `n` replies, an error that names the row's id. */
    ghost predicate FromError(gets: nat -> GetReply, n: nat, id: u64, row: Row) {
      exists i: nat :: i < n && Spells(gets(i), id, row)
    }

    predicate Spells(reply: GetReply, id: u64, row: Row) {
      reply.ErrorReply? && Decode(reply.bytes).characterId == id && Project(Decode(reply.bytes)) == row
    }

    /**
     `replies` is what the server answers to the scan, `gets(i)` to the i-th GET, and `updates(i)` is
     how the i-th update ends. With a complete scan and no failure the table ends as Target,
     whatever order and repetitions the scan has; with failures each row still is as it was, as the
     cache has it, or the text of an error reply that names its id.
     */
    method FlushAll(replies: seq<Reply>, gets: nat -> GetReply, updates: nat -> Outcome)
      returns (scan: Scan, successCount: nat)
      requires redis.Valid() && redis.OwnIds()
      modifies table
      ensures scan == ScanAll(replies)
      ensures scan.Ids? ==> successCount == |Successes(scan.ids, gets, updates)|
      ensures Between(old(table.rows), table.rows, gets, if scan.Ids? then |scan.ids| else 0)
      ensures Complete(replies) && Covers(replies) && NothingFails(gets, updates) ==>
                table.rows == Target(old(table.rows)) && Agrees(old(table.rows), table.rows)
    {
      scan := redis.GetAllCachedCharacterIds(replies);
      successCount := 0;
      if scan.Threw? {
        ScanThrewIncomplete(replies);
        return;
      }
      ghost var target := Target(table.rows);
      successCount := CopyAll(scan.ids, gets, updates);
      if Complete(replies) && Covers(replies) && NothingFails(gets, updates) {
        forall id | id in table.rows
          ensures table.rows[id] == target[id]
        {
          ScanCoversKeys(replies, id);
        }
      }
    }

    /** The loop of FlushAll. */
    method CopyAll(ids: seq<u64>, gets: nat -> GetReply, updates: nat -> Outcome) returns (successCount: nat)
      requires redis.Valid() && redis.OwnIds()
      modifies table
      ensures successCount == |Successes(ids, gets, updates)|
      ensures Between(old(table.rows), table.rows, gets, |ids|)
      ensures NothingFails(gets, updates) ==> Reached(old(table.rows), table.rows, ids)
    {
      successCount := 0;
      ghost var noFailure := NothingFails(gets, updates);
      for i := 0 to |ids|
        invariant successCount == |Successes(ids[..i], gets, updates)|
        invariant Between(old(table.rows), table.rows, gets, i)
        invariant noFailure ==> Reached(old(table.rows), table.rows, ids[..i])
      {
        OneMoreSuccess(ids, i, gets, updates);
        assert forall id :: id in ids[..i + 1] <==> id in ids[..i] || id == ids[i];
        ghost var rows := table.rows;
        var updated := CopyOne(ids[i], gets(i), updates(i));
        OneMore(old(table.rows), rows, table.rows, ids[i], gets, i);
        if noFailure {
          assert gets(i).Answer? && updates(i).Succeeded?;
          OneMoreReached(old(table.rows), rows, table.rows, ids[..i], ids[i]);
        }
        if updated {
          successCount := successCount + 1;
        }
      }
      assert ids[..|ids|] == ids;
    }

    /** One id: read the cache, update the row that the stat names. */
    method CopyOne(id: u64, reply: GetReply, outcome: Outcome) returns (updated: bool)
      requires redis.Valid() && redis.OwnIds()
      modifies table
      ensures updated == (redis.Brought(id, reply).Some? && outcome.Succeeded?)
      ensures table.rows == if redis.Brought(id, reply).None? || outcome.FailedOutright? then old(table.rows)
                            else Put(old(table.rows), redis.Brought(id, reply).value)
    {
      var stat := redis.GetCharacterStat(id, reply);
      updated := false;
      if stat.Some? {
        updated := table.UpdateCharacterStat(stat.value, outcome);
      }
    }

    lemma OneMore(before: map<u64, Row>, rows: map<u64, Row>, after: map<u64, Row>, id: u64,
                  gets: nat -> GetReply, i: nat)
      requires redis.Valid() && redis.OwnIds() && Between(before, rows, gets, i)
      requires after == rows
            || (redis.Brought(id, gets(i)).Some? && after == Put(rows, redis.Brought(id, gets(i)).value))
      ensures Between(before, after, gets, i + 1)
    {
      forall k | k in after
        ensures RowBetween(before, after, gets, i + 1, k)
      {
        assert RowBetween(before, rows, gets, i, k);
        if after[k] != rows[k] && gets(i).ErrorReply? {
          assert Spells(gets(i), k, after[k]);
        }
      }
    }

    lemma OneMoreReached(before: map<u64, Row>, rows: map<u64, Row>, after: map<u64, Row>, ids: seq<u64>, id: u64)
      requires redis.Valid() && redis.OwnIds() && Reached(before, rows, ids)
      requires after == if redis.Cached(id).Some? then Put(rows, redis.Cached(id).value) else rows
      ensures Reached(before, after, ids + [id])
    {
    }

    /** The row is as it was, as the cache has it, or from one of the first `n` replies. */
    ghost predicate RowBetween(before: map<u64, Row>, rows: map<u64, Row>, gets: nat -> GetReply, n: nat, id: u64)
      requires redis.Valid() && rows.Keys == before.Keys && id in rows
      reads redis
    {
      rows[id] == before[id] || rows[id] == Target(before)[id] || FromError(gets, n, id, rows[id])
    }

    ghost predicate Between(before: map<u64, Row>, rows: map<u64, Row>, gets: nat -> GetReply, n: nat)
      requires redis.Valid()
      reads redis
    {
      rows.Keys == before.Keys && forall id | id in rows :: RowBetween(before, rows, gets, n, id)
    }

    ghost predicate Reached(before: map<u64, Row>, rows: map<u64, Row>, ids: seq<u64>)
      requires redis.Valid()
      reads redis
    {
      rows.Keys == before.Keys
      && forall id | id in rows :: rows[id] == if id in ids then Target(before)[id] else before[id]
    }

    lemma ScanThrewIncomplete(replies: seq<Reply>)
      requires ScanAll(replies).Threw?
      ensures !Complete(replies)
    {
      if Complete(replies) {
        ScanReturnsItsKeys(replies);
      }
    }

    /** A second flush over an unchanged cache changes nothing. */
    method FlushTwice(replies: seq<Reply>, again: seq<Reply>)
      requires redis.Valid() && redis.OwnIds()
      requires Complete(replies) && Covers(replies) && Complete(again) && Covers(again)
      modifies table
      ensures table.rows == Target(old(table.rows))
    {
      var first, n := FlushAll(replies, i => Answer, i => Succeeded);
      ghost var rows := table.rows;
      var second, m := FlushAll(again, i => Answer, i => Succeeded);
      assert table.rows == rows;
    }
  }
}
