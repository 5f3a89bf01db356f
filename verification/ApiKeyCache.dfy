/** The API-key cache (server/auth.py): an LRU map with time limits and negative entries, checked
    against the database answers it was filled from. Time is real; a call reads the clock once. */
module ApiKeyCache {

  const API_KEY_CACHE_TTL: real := 300.0
  const API_KEY_CACHE_MAX: nat := 512

  datatype Option<+T> = None | Some(value: T)

  /** A cached verdict; `payload` is None for a key that does not exist or has expired. */
  datatype Slot = Slot(key: string, payload: Option<string>, expiry: real)

  /** A database row: the payload the key stands for and the key's own expiry. */
  datatype Row = Row(payload: string, expiresAt: Option<real>)

  /** One database lookup: which key, when, and what was found. */
  datatype Answer = Answer(key: string, at: real, row: Option<Row>) {
    /** What the lookup says about the key at the time it was made. */
    function Verdict(): Option<string> {
      if row.None? || (row.value.expiresAt.Some? && at >= row.value.expiresAt.value) then None
      else Some(row.value.payload)
    }
  }

  // ----- The ordered map, oldest entry first -----

  function IndexOf(entries: seq<Slot>, key: string): (i: nat)
    ensures i <= |entries| && (i < |entries| ==> entries[i].key == key)
    ensures forall j | 0 <= j < i :: entries[j].key != key
  {
    if entries == [] || entries[0].key == key then 0 else 1 + IndexOf(entries[1..], key)
  }

  function Pop(entries: seq<Slot>, key: string): seq<Slot> {
    var i := IndexOf(entries, key);
    if i < |entries| then Without(entries, i) else entries
  }

  /** Assignment keeps the place of a present key and appends an absent one. */
  function Assign(entries: seq<Slot>, slot: Slot): seq<Slot> {
    var i := IndexOf(entries, slot.key);
    if i < |entries| then entries[i := slot] else entries + [slot]
  }

  datatype Lookup = Miss | Hit(payload: Option<string>)

  /** A lookup at time `now`: an expired entry is dropped, a hit moves to the end. */
  function Get(entries: seq<Slot>, key: string, now: real): (Lookup, seq<Slot>) {
    var i := IndexOf(entries, key);
    if i == |entries| then (Miss, entries)
    else if now > entries[i].expiry then (Miss, Pop(entries, key))
    else (Hit(entries[i].payload), Pop(entries, key) + [entries[i]])
  }

  /** The slot written at time `now`; a key already past its own expiry is cached as absent. */
  function NewSlot(key: string, payload: Option<string>, expiresAt: Option<real>, now: real): Slot {
    if payload.Some? && expiresAt.Some? then
      var left := expiresAt.value - now;
      if left <= 0.0 then Slot(key, None, now + API_KEY_CACHE_TTL)
      else Slot(key, payload, now + if left < API_KEY_CACHE_TTL then left else API_KEY_CACHE_TTL)
    else Slot(key, payload, now + API_KEY_CACHE_TTL)
  }

  function Put(entries: seq<Slot>, slot: Slot): seq<Slot> {
    Assign(if |entries| >= API_KEY_CACHE_MAX then entries[1..] else entries, slot)
  }

  /** What the cache stores after a database answer. */
  function Stored(answer: Answer): Slot {
    match answer.Verdict()
    case None => NewSlot(answer.key, None, None, answer.at)
    case Some(p) => NewSlot(answer.key, Some(p), answer.row.value.expiresAt, answer.at)
  }

  // ----- What holds in every run -----

  ghost predicate Unique(entries: seq<Slot>) {
    forall i, j | 0 <= i < j < |entries| :: entries[i].key != entries[j].key
  }

  /** The entry repeats a verdict of the log and lives at most as long as that verdict allows. */
  ghost predicate Justified(slot: Slot, log: seq<Answer>) {
    exists a <- log :: Justifies(a, slot)
  }

  ghost predicate Justifies(a: Answer, slot: Slot) {
    && a.key == slot.key && a.Verdict() == slot.payload
    && a.at <= slot.expiry <= a.at + API_KEY_CACHE_TTL
    && (slot.payload.Some? && a.row.value.expiresAt.Some? ==> slot.expiry <= a.row.value.expiresAt.value)
  }

  /** Position after the last use of a key, 0 when it was never used. */
  function LastUse(uses: seq<string>, key: string): nat {
    if uses == [] then 0
    else if uses[|uses| - 1] == key then |uses|
    else LastUse(uses[..|uses| - 1], key)
  }

  /** The entries are sorted by their last use. */
  ghost predicate Recent(entries: seq<Slot>, uses: seq<string>) {
    forall i, j | 0 <= i < j < |entries| :: LastUse(uses, entries[i].key) < LastUse(uses, entries[j].key)
  }

  ghost predicate Sound(entries: seq<Slot>, log: seq<Answer>, uses: seq<string>) {
    && |entries| <= API_KEY_CACHE_MAX && Unique(entries) && Recent(entries, uses)
    && (forall s <- entries :: Justified(s, log))
  }

  lemma JustifiedStays(slot: Slot, log: seq<Answer>, a: Answer)
    requires Justified(slot, log)
    ensures Justified(slot, log + [a])
  {
    var b :| b in log && Justifies(b, slot);
    assert b in log + [a];
  }

  /** Using a key leaves the last uses of all other keys alone and makes its own the latest. */
  lemma {:induction false} UseIsLatest(uses: seq<string>, key: string, other: string)
    ensures LastUse(uses + [key], key) == |uses| + 1 && LastUse(uses, other) <= |uses|
    ensures other != key ==> LastUse(uses + [key], other) == LastUse(uses, other)
  {
    assert (uses + [key])[..|uses|] == uses;
    if uses != [] { UseIsLatest(uses[..|uses| - 1], key, other); }
  }

  /** Taking the entry at `i` out. */
  function Without(entries: seq<Slot>, i: nat): (r: seq<Slot>)
    requires i < |entries|
    ensures |r| == |entries| - 1
    ensures forall j | 0 <= j < |r| :: r[j] == entries[if j < i then j else j + 1]
  {
    entries[..i] + entries[i + 1..]
  }

  lemma PopKeepsSound(entries: seq<Slot>, key: string, log: seq<Answer>, uses: seq<string>)
    requires Sound(entries, log, uses)
    ensures Sound(Pop(entries, key), log, uses)
    ensures forall s :: s in Pop(entries, key) <==> s in entries && s.key != key
  {
    var i := IndexOf(entries, key);
    if i < |entries| {
      WithoutKeepsSound(entries, i, log, uses);
      WithoutKeepsOthers(entries, i);
    }
  }

  lemma WithoutKeepsSound(entries: seq<Slot>, i: nat, log: seq<Answer>, uses: seq<string>)
    requires Sound(entries, log, uses) && i < |entries|
    ensures Sound(Without(entries, i), log, uses)
  {
    var r := Without(entries, i);
    forall a, b | 0 <= a < b < |r|
      ensures r[a].key != r[b].key && LastUse(uses, r[a].key) < LastUse(uses, r[b].key)
    {
    }
  }

  lemma WithoutKeepsOthers(entries: seq<Slot>, i: nat)
    requires Unique(entries) && i < |entries|
    ensures forall s :: s in Without(entries, i) <==> s in entries && s.key != entries[i].key
  {
    var r := Without(entries, i);
    forall s ensures s in r <==> s in entries && s.key != entries[i].key {
      if s in entries && s.key != entries[i].key {
        var j :| 0 <= j < |entries| && entries[j] == s;
        assert r[if j < i then j else j - 1] == s;
      }
    }
  }

  /** Appending a freshly used entry for an absent key. */
  lemma AppendKeepsSound(entries: seq<Slot>, slot: Slot, log: seq<Answer>, uses: seq<string>)
    requires Sound(entries, log, uses) && |entries| < API_KEY_CACHE_MAX
    requires Justified(slot, log) && forall s <- entries :: s.key != slot.key
    ensures Sound(entries + [slot], log, uses + [slot.key])
  {
    forall i | 0 <= i < |entries| ensures entries[i].key != slot.key { assert entries[i] in entries; }
    AppendIsRecent(entries, slot, uses);
  }

  /** A lookup keeps the cache sound, counting a hit as a use. A hit repeats a database verdict at most
      300 seconds old, and a positive one is never given after the key's own expiry. */
  lemma GetKeepsSound(entries: seq<Slot>, key: string, now: real, log: seq<Answer>, uses: seq<string>)
    requires Sound(entries, log, uses)
    ensures var (found, after) := Get(entries, key, now);
      && Sound(after, log, uses + if found.Hit? then [key] else [])
      && (found.Miss? ==> forall s <- after :: s.key != key)
      && (found.Hit? ==> exists a <- log ::
            && a.key == key && a.Verdict() == found.payload && now <= a.at + API_KEY_CACHE_TTL
            && (found.payload.Some? && a.row.value.expiresAt.Some? ==> now <= a.row.value.expiresAt.value))
  {
    var i := IndexOf(entries, key);
    PopKeepsSound(entries, key, log, uses);
    if i < |entries| && now <= entries[i].expiry {
      assert Justified(entries[i], log);
      var a :| a in log && Justifies(a, entries[i]);
      assert forall s <- Pop(entries, key) :: s.key != entries[i].key;
      AppendKeepsSound(Pop(entries, key), entries[i], log, uses);
    } else {
      assert uses + [] == uses;
    }
  }

  /** A lookup hits exactly when an entry for the key, positive or negative, has not run out; it says what
      the entry says. */
  lemma GetHitsIff(entries: seq<Slot>, key: string, now: real, payload: Option<string>)
    requires Unique(entries)
    ensures Get(entries, key, now).0 == Hit(payload) <==>
      exists s <- entries :: s.key == key && s.payload == payload && now <= s.expiry
  {
    var i := IndexOf(entries, key);
    if i < |entries| {
      forall s | s in entries && s.key == key ensures s == entries[i] {
        var j :| 0 <= j < |entries| && entries[j] == s;
      }
    }
  }

  /** A key that is past its own expiry is cached as absent, for the full time. */
  lemma ExpiredIsCachedAsAbsent(key: string, payload: Option<string>, expiresAt: real, now: real)
    requires expiresAt <= now
    ensures NewSlot(key, payload, Some(expiresAt), now) == Slot(key, None, now + 300.0)
  {
  }

  /** How long an answer is kept: 300 seconds, or what is left of the key's own life if that is less. */
  lemma StoredLifetime(a: Answer)
    ensures var left := if a.row.Some? && a.row.value.expiresAt.Some? then a.row.value.expiresAt.value - a.at
                        else API_KEY_CACHE_TTL;
      Stored(a).expiry - a.at == if 0.0 < left < API_KEY_CACHE_TTL then left else API_KEY_CACHE_TTL
  {
  }

  /** As long as the row is unchanged, a hit says what the database would say now, except at the very
      instant a key expires: there the cache still answers positively. */
  lemma HitAgreesWithUnchangedRow(a: Answer, slot: Slot, now: real)
    requires Justifies(a, slot) && a.at <= now <= slot.expiry
    ensures Answer(a.key, now, a.row).Verdict() == slot.payload <==>
      !(slot.payload.Some? && a.row.value.expiresAt == Some(now))
  {
    if slot.payload.Some? && a.row.value.expiresAt.Some? {
      assert now <= a.row.value.expiresAt.value;
    }
  }

  /** That instant can be reached: a key that expires ten seconds after it was looked up is served from
      the cache ten seconds later, when the database would already refuse it. */
  lemma ServedAtExpiry(key: string, payload: string)
    ensures var a := Answer(key, 0.0, Some(Row(payload, Some(10.0))));
      && Get(Put([], Stored(a)), key, 10.0).0 == Hit(Some(payload))
      && Answer(key, 10.0, a.row).Verdict() == None
  {
  }

  lemma StoredIsJustified(a: Answer)
    ensures Justifies(a, Stored(a)) && Stored(a).key == a.key
  {
  }

  /** Storing an answer for an absent key keeps the cache sound; the entry it evicts, if any, is the one
      used least recently, and no other entry is lost. */
  lemma PutKeepsSound(entries: seq<Slot>, a: Answer, log: seq<Answer>, uses: seq<string>)
    requires Sound(entries, log, uses) && forall s <- entries :: s.key != a.key
    ensures var after := Put(entries, Stored(a));
      && Sound(after, log + [a], uses + [a.key])
      && |after| == (if |entries| < API_KEY_CACHE_MAX then |entries| + 1 else API_KEY_CACHE_MAX)
      && (forall s <- entries :: s !in after ==>
            |entries| == API_KEY_CACHE_MAX && forall t <- entries :: t != s ==>
                LastUse(uses, s.key) < LastUse(uses, t.key))
  {
    var kept := if |entries| >= API_KEY_CACHE_MAX then entries[1..] else entries;
    StoredIsJustified(a);
    assert a in log + [a];
    SuffixIsSound(entries, |entries| - |kept|, log, uses, a);
    AppendKeepsSound(kept, Stored(a), log + [a], uses);
    if entries != [] { OldestIsFirst(entries, log, uses); }
  }

  lemma SuffixIsSound(entries: seq<Slot>, k: nat, log: seq<Answer>, uses: seq<string>, a: Answer)
    requires Sound(entries, log, uses) && k <= |entries|
    ensures Sound(entries[k..], log + [a], uses)
  {
    forall s | s in entries[k..] ensures Justified(s, log + [a]) {
      assert s in entries;
      JustifiedStays(s, log, a);
    }
  }

  lemma OldestIsFirst(entries: seq<Slot>, log: seq<Answer>, uses: seq<string>)
    requires Sound(entries, log, uses) && entries != []
    ensures forall s <- entries :: s != entries[0] ==>
      s in entries[1..] && LastUse(uses, entries[0].key) < LastUse(uses, s.key)
  {
    forall s | s in entries && s != entries[0]
      ensures s in entries[1..] && LastUse(uses, entries[0].key) < LastUse(uses, s.key)
    {
      var k :| 0 <= k < |entries| && entries[k] == s;
      assert entries[1..][k - 1] == s;
    }
  }

  /** A refill of a key that is still present (two lookups of one key that both missed) makes room it
      does not need: with a full cache another key is evicted and the cache shrinks. */
  lemma RefillOfPresentKeyShrinksCache(entries: seq<Slot>, slot: Slot)
    requires |entries| == API_KEY_CACHE_MAX && Unique(entries)
    ensures |Put(entries, slot)| == API_KEY_CACHE_MAX - 1 <==>
        exists i | 1 <= i < |entries| :: entries[i].key == slot.key
    ensures |Put(entries, slot)| <= API_KEY_CACHE_MAX
  {
    var rest := entries[1..];
    var i := IndexOf(rest, slot.key);
    if i < |rest| {
      assert entries[i + 1].key == slot.key;
    } else {
      forall j | 1 <= j < |entries| ensures entries[j].key != slot.key { assert entries[j] == rest[j - 1]; }
    }
  }

  /** A refill of a present key keeps its place, unless the key is the oldest of a full cache and goes
      first. The order of the entries then follows their last use if and only if the key was the last one
      already, or that oldest one. */
  lemma RefillKeepsOrderIff(entries: seq<Slot>, slot: Slot, i: nat, log: seq<Answer>, uses: seq<string>)
    requires Sound(entries, log, uses)
    requires i < |entries| && entries[i].key == slot.key
    ensures Put(entries, slot) ==
      if |entries| < API_KEY_CACHE_MAX then entries[i := slot]
      else if i == 0 then entries[1..] + [slot]
      else entries[1..][i - 1 := slot]
    ensures Recent(Put(entries, slot), uses + [slot.key]) <==>
      i == |entries| - 1 || (|entries| == API_KEY_CACHE_MAX && i == 0)
  {
    if |entries| < API_KEY_CACHE_MAX {
      RefillInPlace(entries, slot, i, uses);
    } else if i == 0 {
      AbsentKey(entries[1..], slot.key);
      AppendIsRecent(entries[1..], slot, uses);
    } else {
      RefillInPlace(entries[1..], slot, i - 1, uses);
    }
  }

  lemma RefillInPlace(entries: seq<Slot>, slot: Slot, i: nat, uses: seq<string>)
    requires Unique(entries) && Recent(entries, uses) && i < |entries| && entries[i].key == slot.key
    ensures IndexOf(entries, slot.key) == i
    ensures Recent(entries[i := slot], uses + [slot.key]) <==> i == |entries| - 1
  {
    var r := entries[i := slot];
    assert IndexOf(entries, slot.key) == i;
    forall j | 0 <= j < |r|
      ensures LastUse(uses + [slot.key], r[j].key) == if j == i then |uses| + 1 else LastUse(uses, entries[j].key)
      ensures LastUse(uses, entries[j].key) <= |uses|
    {
      UseIsLatest(uses, slot.key, r[j].key);
      LastUseInBounds(uses, entries[j].key);
    }
    if i < |entries| - 1 {
      assert LastUse(uses + [slot.key], r[i].key) > LastUse(uses + [slot.key], r[i + 1].key);
    }
  }

  lemma AppendIsRecent(entries: seq<Slot>, slot: Slot, uses: seq<string>)
    requires Recent(entries, uses) && forall i | 0 <= i < |entries| :: entries[i].key != slot.key
    ensures Recent(entries + [slot], uses + [slot.key])
  {
    forall i | 0 <= i < |entries|
      ensures LastUse(uses + [slot.key], entries[i].key) == LastUse(uses, entries[i].key) <= |uses|
    {
      UseIsLatest(uses, slot.key, entries[i].key);
    }
    UseIsLatest(uses, slot.key, slot.key);
  }

  lemma {:induction false} LastUseInBounds(uses: seq<string>, key: string)
    ensures LastUse(uses, key) <= |uses|
  {
    if uses != [] {
      LastUseInBounds(uses[..|uses| - 1], key);
    }
  }

  /** The key that was used last but kept the front place is the next one to be evicted. */
  lemma RefilledKeyIsEvicted(entries: seq<Slot>, slot: Slot, x: Slot, y: Slot)
    requires |entries| == API_KEY_CACHE_MAX - 1 && Unique(entries) && entries[0].key == slot.key
    requires forall s <- entries :: s.key != x.key && s.key != y.key
    requires x.key != y.key
    ensures Put(Put(Put(entries, slot), x), y) == entries[1..] + [x, y]
  {
    var refilled := entries[0 := slot];
    assert Put(entries, slot) == refilled;
    AbsentKey(refilled, x.key);
    assert Put(refilled, x) == refilled + [x];
    AbsentKey((refilled + [x])[1..], y.key);
    assert (refilled + [x])[1..] + [y] == entries[1..] + [x, y];
  }

  lemma AbsentKey(entries: seq<Slot>, key: string)
    requires forall i | 0 <= i < |entries| :: entries[i].key != key
    ensures IndexOf(entries, key) == |entries|
  {
  }

  // ----- A full cache -----

  function KeyOf(i: nat): string {
    seq(i + 1, _ => 'k')
  }

  function Unknown(i: nat): Answer {
    Answer(KeyOf(i), 0.0, None)
  }

  /** Looking up `n` unknown keys, one after the other, in an empty cache. */
  function Filled(n: nat): seq<Slot> {
    if n == 0 then [] else Put(Filled(n - 1), Stored(Unknown(n - 1)))
  }

  function Answered(n: nat): (r: seq<Slot>)
    ensures |r| == n && forall i | 0 <= i < n :: r[i].key == KeyOf(i)
  {
    seq(n, i requires 0 <= i < n => Stored(Unknown(i)))
  }

  lemma KeysDiffer(i: nat, j: nat)
    requires i != j
    ensures KeyOf(i) != KeyOf(j)
  {
    assert |KeyOf(i)| == i + 1 && |KeyOf(j)| == j + 1;
  }

  lemma {:induction false} FilledIsAnswered(n: nat)
    requires n <= API_KEY_CACHE_MAX
    ensures Filled(n) == Answered(n)
  {
    if n > 0 {
      FilledIsAnswered(n - 1);
      AnsweredGrows(n - 1);
    }
  }

  lemma AnsweredGrows(n: nat)
    requires n < API_KEY_CACHE_MAX
    ensures Put(Answered(n), Stored(Unknown(n))) == Answered(n + 1)
  {
    forall i: nat | i < n ensures KeyOf(i) != KeyOf(n) { KeysDiffer(i, n); }
    AbsentKey(Answered(n), KeyOf(n));
    assert Answered(n + 1) == Answered(n) + [Stored(Unknown(n))];
  }

  lemma AnsweredAreUnique(n: nat)
    ensures Unique(Answered(n))
  {
    forall i: nat, j: nat | i < j < n ensures KeyOf(i) != KeyOf(j) { KeysDiffer(i, j); }
  }

  /** The needless eviction can be reached: with 512 unknown keys looked up, a second answer for the
      last of them evicts the first. */
  lemma FullCacheShrinks()
    ensures |Filled(API_KEY_CACHE_MAX)| == API_KEY_CACHE_MAX
    ensures |Put(Filled(API_KEY_CACHE_MAX), Stored(Unknown(API_KEY_CACHE_MAX - 1)))| == API_KEY_CACHE_MAX - 1
  {
    var full := Filled(API_KEY_CACHE_MAX);
    FilledIsAnswered(API_KEY_CACHE_MAX);
    AnsweredAreUnique(API_KEY_CACHE_MAX);
    assert full[API_KEY_CACHE_MAX - 1].key == Stored(Unknown(API_KEY_CACHE_MAX - 1)).key;
    RefillOfPresentKeyShrinksCache(full, Stored(Unknown(API_KEY_CACHE_MAX - 1)));
  }

  // ----- The cache object -----

  class ApiKeyCache {
    var entries: seq<Slot>
    ghost var log: seq<Answer>   // database answers, oldest first
    ghost var uses: seq<string>  // keys in the order they were hit or filled

    ghost predicate Valid()
      reads this
    {
      Sound(entries, log, uses)
    }

    constructor ()
      ensures Valid() && entries == [] && log == [] && uses == []
    {
      entries, log, uses := [], [], [];
    }

    method Invalidate(key: string)
      requires Valid()
      modifies this`entries
      ensures Valid()
      ensures forall s :: s in entries <==> s in old(entries) && s.key != key
    {
      PopKeepsSound(entries, key, log, uses);
      RemoveKey(key);
    }

    method RemoveKey(key: string)
      modifies this`entries
      ensures entries == Pop(old(entries), key)
    {
      var i := IndexOf(entries, key);
      if i < |entries| { entries := entries[..i] + entries[i + 1..]; }
    }

    method GetCached(key: string, now: real) returns (found: Lookup)
      modifies this`entries
      ensures (found, entries) == Get(old(entries), key, now)
    {
      var i := IndexOf(entries, key);
      if i == |entries| { return Miss; }
      var slot := entries[i];
      RemoveKey(key);
      if now > slot.expiry { return Miss; }
      entries := entries + [slot];
      return Hit(slot.payload);
    }

    method SetCache(key: string, payload: Option<string>, expiresAt: Option<real>, now: real)
      modifies this`entries
      ensures entries == Put(old(entries), NewSlot(key, payload, expiresAt, now))
    {
      if |entries| >= API_KEY_CACHE_MAX { entries := entries[1..]; }
      var slot := NewSlot(key, payload, expiresAt, now);
      var i := IndexOf(entries, key);
      if i < |entries| { entries := entries[i := slot]; } else { entries := entries + [slot]; }
    }

    /** Verification of a key at time `now`; `row` is what the database would answer then. */
    method Verify(key: string, now: real, row: Option<Row>) returns (payload: Option<string>)
      requires Valid()
      modifies this
      ensures Valid()
      ensures exists a <- log ::
        && a.key == key && a.Verdict() == payload && now <= a.at + API_KEY_CACHE_TTL
        && (payload.Some? && a.row.value.expiresAt.Some? ==> now <= a.row.value.expiresAt.value)
      ensures var (found, after) := Get(old(entries), key, now);
        var answer := Answer(key, now, row);
        && uses == old(uses) + [key]
        && match found {
             case Hit(p) => payload == p && log == old(log) && entries == after
             case Miss =>
               payload == answer.Verdict() && log == old(log) + [answer] && entries == Put(after, Stored(answer))
           }
    {
      GetKeepsSound(entries, key, now, log, uses);
      var found := GetCached(key, now);
      if found.Hit? {
        uses := uses + [key];
        return found.payload;
      }
      assert uses + [] == uses;
      ghost var answer := Answer(key, now, row);
      PutKeepsSound(entries, answer, log, uses);
      log, uses := log + [answer], uses + [key];
      assert answer in log;
      if row.None? {
        SetCache(key, None, None, now);
        return None;
      }
      if row.value.expiresAt.Some? && now >= row.value.expiresAt.value {
        SetCache(key, None, None, now);
        return None;
      }
      SetCache(key, Some(row.value.payload), row.value.expiresAt, now);
      return Some(row.value.payload);
    }
  }
}
