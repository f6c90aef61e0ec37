/** The cache keys: decimal printing and parsing, and what a scan over the keys returns. */
module RedisKeys {
  import opened Bytes
  import opened StatPackets

  const STAT_PREFIX := "character:stat:"
  const SESSION_PREFIX := "session:"
  const PREFIX_LENGTH: nat := 15

  predicate IsDigit(c: char) {
    '0' <= c <= '9'
  }

  /** std::to_string. */
  function ToString(n: nat): (s: string)
    ensures s != [] && forall i | 0 <= i < |s| :: IsDigit(s[i])
  {
    var digit := '0' + (n % 10) as char;
    if n < 10 then [digit] else ToString(n / 10) + [digit]
  }

  /** The value of a string of digits. */
  function Value(s: string): nat
    requires forall i | 0 <= i < |s| :: IsDigit(s[i])
  {
    if s == [] then 0
    else
      var last := s[|s| - 1];
      assert IsDigit(last);
      10 * Value(s[..|s| - 1]) + (last as nat - '0' as nat)
  }

  lemma {:induction false} ValueOfPrinted(n: nat)
    ensures Value(ToString(n)) == n
  {
    if n >= 10 {
      ValueOfPrinted(n / 10);
      assert ToString(n)[..|ToString(n)| - 1] == ToString(n / 10);
    }
  }

  function LeadingDigits(s: string): (k: nat)
    ensures k <= |s| && forall i | 0 <= i < k :: IsDigit(s[i])
    ensures k < |s| ==> !IsDigit(s[k])
  {
    if s == [] || !IsDigit(s[0]) then 0 else 1 + LeadingDigits(s[1..])
  }

  /** std::stoull and std::stoll on text without sign or white space: None where they throw. */
  function ParseBelow(s: string, limit: nat): (r: Option<nat>)
    ensures r.Some? ==> r.value < limit
  {
    var k := LeadingDigits(s);
    if k == 0 || Value(s[..k]) >= limit then None else Some(Value(s[..k]))
  }

  const U64_LIMIT: nat := 0x1_0000_0000_0000_0000
  const I64_LIMIT: nat := 0x8000_0000_0000_0000

  lemma {:induction false} AllDigits(s: string)
    requires forall i | 0 <= i < |s| :: IsDigit(s[i])
    ensures LeadingDigits(s) == |s|
  {
    if s != [] {
      AllDigits(s[1..]);
    }
  }

  lemma {:induction false} DigitsBehind(digits: string, tail: string)
    requires forall i | 0 <= i < |digits| :: IsDigit(digits[i])
    requires tail == [] || !IsDigit(tail[0])
    ensures LeadingDigits(digits + tail) == |digits|
  {
    if digits == [] {
      assert digits + tail == tail;
    } else {
      assert (digits + tail)[1..] == digits[1..] + tail;
      DigitsBehind(digits[1..], tail);
    }
  }

  /** Parsing stops at the first character that is no digit. */
  lemma ParseStops(n: nat, tail: string, limit: nat)
    requires tail == [] || !IsDigit(tail[0])
    ensures ParseBelow(ToString(n) + tail, limit) == if n < limit then Some(n) else None
    ensures ParseBelow(tail, limit) == None
  {
    DigitsBehind(ToString(n), tail);
    assert (ToString(n) + tail)[..|ToString(n)|] == ToString(n);
    ValueOfPrinted(n);
  }

  lemma ParsePrinted(n: nat, limit: nat)
    ensures ParseBelow(ToString(n), limit) == if n < limit then Some(n) else None
  {
    var s := ToString(n);
    AllDigits(s);
    ValueOfPrinted(n);
    assert s[..|s|] == s;
  }

  function StatKey(id: u64): string {
    STAT_PREFIX + ToString(id)
  }

  function SessionKey(id: u64): string {
    SESSION_PREFIX + ToString(id)
  }

  /** Parsing a key from offset 15 gives back the id that printed it. */
  lemma KeyRoundTrip(id: u64)
    ensures |StatKey(id)| > PREFIX_LENGTH
    ensures ParseBelow(StatKey(id)[PREFIX_LENGTH..], U64_LIMIT) == Some(id)
  {
    assert StatKey(id)[PREFIX_LENGTH..] == ToString(id);
    ParsePrinted(id, U64_LIMIT);
  }

  /** Different ids have different keys, and no stat key is a session key. */
  lemma KeysAreDistinct(id: u64, jd: u64)
    ensures StatKey(id) == StatKey(jd) <==> id == jd
    ensures SessionKey(id) == SessionKey(jd) <==> id == jd
    ensures StatKey(id) != SessionKey(jd)
  {
    KeyRoundTrip(id);
    KeyRoundTrip(jd);
    assert SessionKey(id)[8..] == ToString(id) && SessionKey(jd)[8..] == ToString(jd);
    ValueOfPrinted(id);
    ValueOfPrinted(jd);
    assert StatKey(id)[0] == 'c' && SessionKey(jd)[0] == 's';
  }

  // ------------------------------------------------------------------
  // Scanning
  // ------------------------------------------------------------------

  /** One reply to SCAN. */
  datatype Reply = Failed | Page(cursor: string, keys: seq<string>)

  /** What a scan ends in; a number that does not parse throws. */
  datatype Scan = Ids(ids: seq<u64>) | Threw

  /** The ids of one page; keys no longer than the prefix are skipped. */
  function PageIds(keys: seq<string>): Scan {
    if keys == [] then Ids([])
    else if |keys[0]| <= PREFIX_LENGTH then PageIds(keys[1..])
    else
      var id := ParseBelow(keys[0][PREFIX_LENGTH..], U64_LIMIT);
      var others := PageIds(keys[1..]);
      if id.None? || others.Threw? then Threw else Ids([id.value] + others.ids)
  }

  /** The whole scan; where the replies end the connection is gone. */
  function ScanAll(replies: seq<Reply>): Scan {
    if replies == [] || replies[0].Failed? then Ids([])
    else
      var cursor := ParseBelow(replies[0].cursor, I64_LIMIT);
      var page := PageIds(replies[0].keys);
      if cursor.None? || page.Threw? then Threw
      else if cursor.value == 0 then page
      else
        var others := ScanAll(replies[1..]);
        if others.Threw? then Threw else Ids(page.ids + others.ids)
  }

  function KeysOf(ids: seq<u64>): (keys: seq<string>)
    ensures |keys| == |ids| && forall i | 0 <= i < |ids| :: keys[i] == StatKey(ids[i])
  {
    seq(|ids|, i requires 0 <= i < |ids| => StatKey(ids[i]))
  }

  /** Every key of the page was printed for some id. */
  ghost predicate OwnKeys(keys: seq<string>) {
    forall i | 0 <= i < |keys| :: exists id: u64 :: keys[i] == StatKey(id)
  }

  /** The pages up to the one with cursor zero, or to the first reply that fails, have cursors and keys that parse. */
  ghost predicate Readable(replies: seq<Reply>) {
    replies == [] || replies[0].Failed?
    || (OwnKeys(replies[0].keys)
        && var cursor := ParseBelow(replies[0].cursor, I64_LIMIT);
           cursor.Some? && (cursor.value == 0 || Readable(replies[1..])))
  }

  /** The scan comes to the page with cursor zero. */
  predicate Finishes(replies: seq<Reply>) {
    replies != [] && replies[0].Page?
    && (ParseBelow(replies[0].cursor, I64_LIMIT) == Some(0) || Finishes(replies[1..]))
  }

  /** A scan that succeeds. */
  ghost predicate Complete(replies: seq<Reply>) {
    Readable(replies) && Finishes(replies)
  }

  /** The keys on the pages up to the one with cursor zero. */
  function KeysSeen(replies: seq<Reply>): seq<string> {
    if replies == [] || replies[0].Failed? then []
    else if ParseBelow(replies[0].cursor, I64_LIMIT) == Some(0) then replies[0].keys
    else replies[0].keys + KeysSeen(replies[1..])
  }

  lemma {:induction false} PageReturnsItsKeys(keys: seq<string>)
    requires OwnKeys(keys)
    ensures PageIds(keys).Ids? && KeysOf(PageIds(keys).ids) == keys
  {
    if keys != [] {
      var id: u64 :| keys[0] == StatKey(id);
      KeyRoundTrip(id);
      PageReturnsItsKeys(keys[1..]);
      assert KeysOf(PageIds(keys).ids) == [keys[0]] + KeysOf(PageIds(keys[1..]).ids);
    }
  }

  lemma KeysOfBoth(a: seq<u64>, b: seq<u64>)
    ensures KeysOf(a + b) == KeysOf(a) + KeysOf(b)
  {
  }

  /**
   A scan returns the ids of exactly the keys on its pages, repetitions and order included; one that is cut
   short by a failed reply returns those of the pages before.
   */
  lemma {:induction false} ScanReturnsItsKeys(replies: seq<Reply>)
    requires Readable(replies)
    ensures ScanAll(replies).Ids? && KeysOf(ScanAll(replies).ids) == KeysSeen(replies)
  {
    if replies != [] && replies[0].Page? {
      PageReturnsItsKeys(replies[0].keys);
      if ParseBelow(replies[0].cursor, I64_LIMIT).value != 0 {
        ScanReturnsItsKeys(replies[1..]);
        KeysOfBoth(PageIds(replies[0].keys).ids, ScanAll(replies[1..]).ids);
      }
    }
  }

  /** How many replies the scan reads. */
  function PagesRead(replies: seq<Reply>): (n: nat)
    ensures n <= |replies|
  {
    if replies == [] || replies[0].Failed? then 0
    else if ParseBelow(replies[0].cursor, I64_LIMIT) == Some(0) then 1
    else 1 + PagesRead(replies[1..])
  }

  /** std::stoull throws on the key. */
  predicate BadKey(key: string) {
    |key| > 15 && ParseBelow(key[15..], 0x1_0000_0000_0000_0000).None?
  }

  predicate BadPage(page: Reply) {
    page.Page?
    && (ParseBelow(page.cursor, 0x8000_0000_0000_0000).None?
        || exists i :: 0 <= i < |page.keys| && BadKey(page.keys[i]))
  }

  lemma {:induction false} PageThrowsIff(keys: seq<string>)
    ensures PageIds(keys).Threw? <==> exists i :: 0 <= i < |keys| && BadKey(keys[i])
  {
    if keys != [] {
      PageThrowsIff(keys[1..]);
      if i :| 0 <= i < |keys[1..]| && BadKey(keys[1..][i]) {
        assert BadKey(keys[i + 1]);
      }
      if i :| 0 <= i < |keys| && BadKey(keys[i]) {
        assert i > 0 ==> BadKey(keys[1..][i - 1]);
      }
    }
  }

  /** A scan throws if and only if a cursor or a key on the pages it would read does not parse. */
  lemma {:induction false} ScanThrowsIff(replies: seq<Reply>)
    ensures ScanAll(replies).Threw? <==> exists i :: 0 <= i < PagesRead(replies) && BadPage(replies[i])
  {
    if replies != [] && replies[0].Page? {
      PageThrowsIff(replies[0].keys);
      ScanThrowsIff(replies[1..]);
      if i :| 0 <= i < PagesRead(replies[1..]) && BadPage(replies[1..][i]) {
        assert BadPage(replies[i + 1]);
      }
      if i :| 0 <= i < PagesRead(replies) && BadPage(replies[i]) {
        assert i > 0 ==> BadPage(replies[1..][i - 1]);
      }
    }
  }

  /** So an id is returned if and only if its key was on some page. */
  lemma ScanCoversKeys(replies: seq<Reply>, id: u64)
    requires Complete(replies)
    ensures ScanAll(replies).Ids?
    ensures id in ScanAll(replies).ids <==> StatKey(id) in KeysSeen(replies)
  {
    ScanReturnsItsKeys(replies);
    var ids := ScanAll(replies).ids;
    if StatKey(id) in KeysSeen(replies) {
      var i :| 0 <= i < |ids| && KeysOf(ids)[i] == StatKey(id);
      KeysAreDistinct(id, ids[i]);
    }
    if id in ids {
      var i :| 0 <= i < |ids| && ids[i] == id;
      assert KeysOf(ids)[i] == StatKey(id);
    }
  }
}
