/** The cache: character stats as 37 raw bytes and sessions as text in one string-keyed store with expiry. */
module RedisManagers {
  import opened Bytes
  import opened StatPackets
  import opened RedisKeys

  const EXPIRE_SECONDS: nat := 3600

  datatype Content = Raw(bytes: seq<byte>) | Text(text: string)
  datatype Entry = Entry(content: Content, expiry: nat)

  /**
   What the server brings back to GET: the value or nil, nothing at all, or an error whose text
   stands at the address from which 37 bytes are copied.
   */
  datatype GetReply = Answer | NoReply | ErrorReply(bytes: StatBytes)

  class RedisManager {
    var store: map<string, Entry>
    var now: nat

    predicate Live(key: string)
      reads this
    {
      key in store && now < store[key].expiry
    }

    /** Whatever lies under a stat key was written by this server: the raw packet. */
    ghost predicate Valid()
      reads this
    {
      forall id: u64 | StatKey(id) in store ::
        store[StatKey(id)].content.Raw? && |store[StatKey(id)].content.bytes| == STAT_SIZE
    }

    /** The stat that is cached for a character. */
    ghost function Cached(id: u64): Option<StatPacket>
      requires Valid()
      reads this
    {
      if Live(StatKey(id)) then Some(Decode(store[StatKey(id)].content.bytes)) else None
    }

    /** Every cached packet names the character under whose key it lies. */
    ghost predicate OwnIds()
      requires Valid()
      reads this
    {
      forall id: u64 :: Cached(id).Some? ==> Cached(id).value.characterId == id
    }

    constructor ()
      ensures Valid() && OwnIds() && forall id: u64 :: Cached(id) == None
    {
      store, now := map[], 0;
    }

    /** `ok` is whether Redis accepts the command. */
    method SetCharacterStat(characterId: u64, stat: StatPacket, ok: bool) returns (r: bool)
      requires Valid()
      modifies this`store
      ensures Valid() && r == ok
      ensures Cached(characterId) == if ok then Some(stat) else old(Cached(characterId))
      ensures forall id: u64 | id != characterId :: Cached(id) == old(Cached(id))
      ensures ok ==> StatKey(characterId) in store && store[StatKey(characterId)].expiry == now + EXPIRE_SECONDS
    {
      if ok {
        store := store[StatKey(characterId) := Entry(Raw(Encode(stat)), now + EXPIRE_SECONDS)];
      }
      StatRoundTrip(stat, Encode(stat));
      forall id: u64
        ensures StatKey(id) == StatKey(characterId) ==> id == characterId
      {
        KeysAreDistinct(id, characterId);
      }
      return ok;
    }

    /** The packet handler's use of it: the key comes from the packet. */
    method OnCharacterStat(stat: StatPacket, ok: bool)
      requires Valid() && OwnIds()
      modifies this`store
      ensures Valid() && OwnIds()
      ensures Cached(stat.characterId) == if ok then Some(stat) else old(Cached(stat.characterId))
      ensures forall id: u64 | id != stat.characterId :: Cached(id) == old(Cached(id))
    {
      var stored := SetCharacterStat(stat.characterId, stat, ok);
    }

    /** What GET leads to: only a missing reply and nil are told apart from a stat. */
    ghost function Brought(characterId: u64, reply: GetReply): Option<StatPacket>
      requires Valid()
      reads this
    {
      match reply
      case Answer => Cached(characterId)
      case NoReply => None
      case ErrorReply(bytes) => Some(Decode(bytes))
    }

    method GetCharacterStat(characterId: u64, reply: GetReply) returns (stat: Option<StatPacket>)
      requires Valid()
      ensures stat == Brought(characterId, reply)
      ensures reply.Answer? ==> stat == Cached(characterId)
      ensures reply.NoReply? ==> stat == None
      ensures reply.ErrorReply? ==> stat.Some? && Encode(stat.value) == reply.bytes
    {
      if reply.NoReply? {
        return None;
      } else if reply.ErrorReply? {
        stat := Some(Decode(reply.bytes));
        StatRoundTrip(stat.value, reply.bytes);
        return;
      }
      if !Live(StatKey(characterId)) {
        return None;
      }
      return Some(Decode(store[StatKey(characterId)].content.bytes));
    }

    method DeleteCharacterStat(characterId: u64)
      requires Valid()
      modifies this`store
      ensures Valid() && Cached(characterId) == None
      ensures forall id: u64 | id != characterId :: Cached(id) == old(Cached(id))
    {
      store := store - {StatKey(characterId)};
      forall id: u64
        ensures StatKey(id) == StatKey(characterId) ==> id == characterId
      {
        KeysAreDistinct(id, characterId);
      }
    }

    /** Session entries live in the same store and disturb no stat. */
    method SetSession(sessionId: u64, characterId: u64, ok: bool) returns (r: bool)
      requires Valid()
      modifies this`store
      ensures Valid() && r == ok
      ensures forall id: u64 :: Cached(id) == old(Cached(id))
      ensures ok ==>
                Live(SessionKey(sessionId)) && store[SessionKey(sessionId)].content == Text(ToString(characterId))
      ensures !ok ==> store == old(store)
    {
      if ok {
        store := store[SessionKey(sessionId) := Entry(Text(ToString(characterId)), now + EXPIRE_SECONDS)];
      }
      forall id: u64
        ensures StatKey(id) != SessionKey(sessionId)
      {
        KeysAreDistinct(id, sessionId);
      }
      return ok;
    }

    /** Time passes; what is cached stays until its expiry and no longer. */
    method Age(seconds: nat)
      requires Valid()
      modifies this`now
      ensures Valid() && now == old(now) + seconds
      ensures forall id: u64 ::
                Cached(id) == if old(Cached(id)).Some? && now < store[StatKey(id)].expiry then old(Cached(id)) else None
      ensures old(OwnIds()) ==> OwnIds()
    {
      now := now + seconds;
    }

    /** A stat that is set is there for EXPIRE_SECONDS and then gone. */
    method SetAgeGet(characterId: u64, stat: StatPacket, seconds: nat) returns (r: Option<StatPacket>)
      requires Valid()
      modifies this`store, this`now
      ensures Valid() && r == if seconds < 3600 then Some(stat) else None
    {
      var ok := SetCharacterStat(characterId, stat, true);
      Age(seconds);
      r := GetCharacterStat(characterId, Answer);
    }

    /** The cursor loop over the replies of the server. */
    method GetAllCachedCharacterIds(replies: seq<Reply>) returns (scan: Scan)
      ensures scan == ScanAll(replies)
    {
      var ids: seq<u64> := [];
      var i := 0;
      var more := true;
      while more && i < |replies| && replies[i].Page?
        invariant 0 <= i <= |replies|
        invariant more ==> Joined(ids, ScanAll(replies[i..])) == ScanAll(replies)
        invariant !more ==> Ids(ids) == ScanAll(replies)
        decreases |replies| - i
      {
        var cursor := ParseBelow(replies[i].cursor, I64_LIMIT);
        if cursor.None? {
          return Threw;
        }
        var page := PageIds(replies[i].keys);
        if page.Threw? {
          return Threw;
        }
        ghost var before := ids;
        ids := ids + page.ids;
        more := cursor.value != 0;
        assert replies[i..][1..] == replies[i + 1..];
        if more && ScanAll(replies[i + 1..]).Ids? {
          assert before + (page.ids + ScanAll(replies[i + 1..]).ids) == ids + ScanAll(replies[i + 1..]).ids;
        }
        i := i + 1;
      }
      return Ids(ids);
    }

    /** The ids found so far before those that the rest of the scan brings. */
    static function Joined(ids: seq<u64>, others: Scan): Scan {
      if others.Threw? then Threw else Ids(ids + others.ids)
    }
  }
}
