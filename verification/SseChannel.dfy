/** SSE fan-out (server/sse_channel.py): bounded subscriber queues, two overflow policies, and what
    a subscriber has been given over a whole run. */
module SseFanout {

  datatype Option<+T> = None | Some(value: T)

  /** What a queue holds: a broadcast item, or the marker that ends the stream. */
  datatype Entry<T> = Msg(item: T) | EndOfStream

  datatype Policy<!T> =
    | EvictNonCriticalAndSignal(isCritical: T -> bool)
    | DropSubscriber

  /** One round of the consumer loop. */
  datatype Event<T> = Idle | Item(item: T) | StreamEnded

  // ----- Delivery on values -----

  function Items<T>(entries: seq<Entry<T>>): seq<T> {
    if entries == [] then []
    else
      var last := entries[|entries| - 1];
      Items(entries[..|entries| - 1]) + (if last.Msg? then [last.item] else [])
  }

  predicate NonCritical<T>(isCritical: T -> bool, e: Entry<T>) {
    e.Msg? && !isCritical(e.item)
  }

  /** Position of the oldest non-critical item, the length when there is none. */
  function OldestNonCritical<T>(isCritical: T -> bool, entries: seq<Entry<T>>): (k: nat)
    ensures k <= |entries| && (k < |entries| ==> NonCritical(isCritical, entries[k]))
    ensures forall j | 0 <= j < k :: !NonCritical(isCritical, entries[j])
  {
    if entries == [] || NonCritical(isCritical, entries[0]) then 0
    else 1 + OldestNonCritical(isCritical, entries[1..])
  }

  /** The queue without its oldest non-critical item. */
  function EvictOne<T>(isCritical: T -> bool, entries: seq<Entry<T>>): seq<Entry<T>> {
    var k := OldestNonCritical(isCritical, entries);
    if k < |entries| then entries[..k] + entries[k + 1..] else entries
  }

  /** Whether the queue takes the item (or may drop it), and the queue afterwards. */
  function Delivered<T>(policy: Policy<T>, maxsize: nat, entries: seq<Entry<T>>, item: T): (bool, seq<Entry<T>>) {
    if |entries| < maxsize then (true, entries + [Msg(item)])
    else if policy.DropSubscriber? then (false, entries)
    else if !policy.isCritical(item) then (true, entries)
    else
      var kept := EvictOne(policy.isCritical, entries);
      if |kept| < maxsize then (true, kept + [Msg(item)]) else (false, kept)
  }

  /** A broadcast that a subscriber will never get: `item` was given up when `arriving` met the full queue
      `met`. */
  datatype Drop<T> = Drop(item: T, arriving: T, met: seq<Entry<T>>)

  /** What one delivery makes the subscriber lose. */
  ghost function Losses<T>(policy: Policy<T>, maxsize: nat, entries: seq<Entry<T>>, item: T): seq<Drop<T>> {
    if |entries| < maxsize || policy.DropSubscriber? then []
    else if !policy.isCritical(item) then [Drop(item, item, entries)]
    else
      var k := OldestNonCritical(policy.isCritical, entries);
      if k < |entries| then [Drop(entries[k].item, item, entries)] else []
  }

  ghost predicate IsOldestNonCritical<T>(isCritical: T -> bool, entries: seq<Entry<T>>, k: nat) {
    && k < |entries| && entries[k].Msg? && !isCritical(entries[k].item)
    && forall j | 0 <= j < k && entries[j].Msg? :: isCritical(entries[j].item)
  }

  /** Only a full queue gives something up: the arriving item, when that is not critical, or else the
      oldest queued item that is not. */
  ghost predicate MayDrop<T>(isCritical: T -> bool, maxsize: nat, d: Drop<T>) {
    && |d.met| >= maxsize && !isCritical(d.item)
    && (d.item == d.arriving ||
        (isCritical(d.arriving) &&
         exists k: nat :: IsOldestNonCritical(isCritical, d.met, k) && d.met[k] == Msg(d.item)))
  }

  /** The queue after an accepted delivery to a full queue that gave up the item of `d`. */
  ghost predicate Replaces<T>(isCritical: T -> bool, d: Drop<T>, after: seq<Entry<T>>) {
    if !isCritical(d.arriving) then d.item == d.arriving && after == d.met
    else exists k: nat :: IsOldestNonCritical(isCritical, d.met, k) && d.met[k] == Msg(d.item) &&
                     after == d.met[..k] + d.met[k + 1..] + [Msg(d.arriving)]
  }

  /** What an accepted delivery does to a queue. */
  ghost predicate Takes<T>(
      policy: Policy<T>, maxsize: nat, before: seq<Entry<T>>, item: T, after: seq<Entry<T>>, losses: seq<Drop<T>>)
  {
    if |before| < maxsize then after == before + [Msg(item)] && losses == []
    else
      && policy.EvictNonCriticalAndSignal? && |losses| == 1
      && losses[0].arriving == item && losses[0].met == before
      && MayDrop(policy.isCritical, maxsize, losses[0]) && Replaces(policy.isCritical, losses[0], after)
  }

  lemma DeliveryTakes<T>(policy: Policy<T>, maxsize: nat, entries: seq<Entry<T>>, item: T)
    requires Delivered(policy, maxsize, entries, item).0 && |entries| <= maxsize
    ensures Takes(policy, maxsize, entries, item, Delivered(policy, maxsize, entries, item).1,
                  Losses(policy, maxsize, entries, item))
  {
    if |entries| == maxsize && policy.isCritical(item) {
      var k := OldestNonCritical(policy.isCritical, entries);
      assert IsOldestNonCritical(policy.isCritical, entries, k) by {
        forall j | 0 <= j < k && entries[j].Msg? ensures policy.isCritical(entries[j].item) {
          assert !NonCritical(policy.isCritical, entries[j]);
        }
      }
    }
  }

  // ----- In-order subsequences and their critical part -----

  predicate Subsequence<T(==)>(a: seq<T>, b: seq<T>) {
    a == [] ||
    (b != [] &&
     ((a[|a| - 1] == b[|b| - 1] && Subsequence(a[..|a| - 1], b[..|b| - 1])) || Subsequence(a, b[..|b| - 1])))
  }

  function Critical<T>(isCritical: T -> bool, s: seq<T>): seq<T> {
    if s == [] then []
    else
      var last := s[|s| - 1];
      Critical(isCritical, s[..|s| - 1]) + (if isCritical(last) then [last] else [])
  }

  lemma SubsequenceGrows<T>(a: seq<T>, b: seq<T>, x: T)
    requires Subsequence(a, b)
    ensures Subsequence(a, b + [x]) && Subsequence(a + [x], b + [x])
  {
    assert (b + [x])[..|b|] == b && (a + [x])[..|a|] == a;
  }

  /** Taking one element out keeps the order of the others. */
  lemma {:induction false} SubsequenceShrinks<T>(a: seq<T>, x: T, c: seq<T>, b: seq<T>)
    requires Subsequence(a + [x] + c, b)
    ensures Subsequence(a + c, b)
    decreases b
  {
    var s := a + [x] + c;
    var b' := b[..|b| - 1];
    if Subsequence(s, b') {
      SubsequenceShrinks(a, x, c, b');
    } else if c == [] {
      assert s[..|s| - 1] == a == a + c;
    } else {
      assert s[..|s| - 1] == a + [x] + c[..|c| - 1];
      SubsequenceShrinks(a, x, c[..|c| - 1], b');
      assert (a + c)[..|a + c| - 1] == a + c[..|c| - 1];
    }
  }

  lemma {:induction false} CriticalOfConcat<T>(isCritical: T -> bool, a: seq<T>, b: seq<T>)
    ensures Critical(isCritical, a + b) == Critical(isCritical, a) + Critical(isCritical, b)
  {
    if b == [] {
      assert a + b == a;
    } else {
      assert (a + b)[..|a + b| - 1] == a + b[..|b| - 1];
      CriticalOfConcat(isCritical, a, b[..|b| - 1]);
      var rest := if isCritical(b[|b| - 1]) then [b[|b| - 1]] else [];
      assert (Critical(isCritical, a) + Critical(isCritical, b[..|b| - 1])) + rest
          == Critical(isCritical, a) + (Critical(isCritical, b[..|b| - 1]) + rest);
    }
  }

  lemma CriticalOfOne<T>(isCritical: T -> bool, x: T)
    ensures Critical(isCritical, [x]) == if isCritical(x) then [x] else []
  {
    assert [x][..0] == [];
  }

  lemma {:induction false} ItemsOfConcat<T>(a: seq<Entry<T>>, b: seq<Entry<T>>)
    ensures Items(a + b) == Items(a) + Items(b)
  {
    if b == [] {
      assert a + b == a;
    } else {
      assert (a + b)[..|a + b| - 1] == a + b[..|b| - 1];
      ItemsOfConcat(a, b[..|b| - 1]);
    }
  }

  // ----- What a live subscriber has been given -----

  /** `given` (consumed, then queued) against the broadcasts since the subscription. */
  ghost predicate Faithful<T>(policy: Policy<T>, given: seq<T>, since: seq<T>) {
    match policy
    case EvictNonCriticalAndSignal(isCritical) =>
      Subsequence(given, since) && Critical(isCritical, given) == Critical(isCritical, since)
    case DropSubscriber => given == since
  }

  ghost function DroppedItems<T>(drops: seq<Drop<T>>): (r: seq<T>)
    ensures |r| == |drops| && forall i | 0 <= i < |drops| :: r[i] == drops[i].item
  {
    seq(|drops|, i requires 0 <= i < |drops| => drops[i].item)
  }

  /** Every broadcast was given or dropped, and each drop was one a full queue may make. */
  ghost predicate Accounted<T>(policy: Policy<T>, maxsize: nat, given: seq<T>, since: seq<T>, drops: seq<Drop<T>>) {
    Balanced(given, since, drops) && AllMayDrop(policy, maxsize, drops)
  }

  ghost predicate Balanced<T>(given: seq<T>, since: seq<T>, drops: seq<Drop<T>>) {
    multiset(since) == multiset(given) + multiset(DroppedItems(drops))
  }

  ghost predicate AllMayDrop<T>(policy: Policy<T>, maxsize: nat, drops: seq<Drop<T>>) {
    forall d <- drops :: policy.EvictNonCriticalAndSignal? && MayDrop(policy.isCritical, maxsize, d)
  }

  /** An accepted delivery keeps the books. */
  lemma DeliveryIsAccounted<T>(
      policy: Policy<T>, maxsize: nat, consumed: seq<T>, entries: seq<Entry<T>>, since: seq<T>, drops: seq<Drop<T>>,
      item: T, after: seq<Entry<T>>, losses: seq<Drop<T>>)
    requires Accounted(policy, maxsize, consumed + Items(entries), since, drops)
    requires Takes(policy, maxsize, entries, item, after, losses)
    ensures Accounted(policy, maxsize, consumed + Items(after), since + [item], drops + losses)
  {
    DeliveryBalances(policy, maxsize, consumed, entries, item, after, losses);
    StaysBalanced(consumed + Items(entries), since, drops, item, consumed + Items(after), losses);
    LossesMayDrop(policy, maxsize, entries, item, after, drops, losses);
  }

  lemma StaysBalanced<T>(
      given: seq<T>, since: seq<T>, drops: seq<Drop<T>>, item: T, given': seq<T>, losses: seq<Drop<T>>)
    requires Balanced(given, since, drops)
    requires multiset(given') + multiset(DroppedItems(losses)) == multiset(given) + multiset{item}
    ensures Balanced(given', since + [item], drops + losses)
  {
    DroppedOfConcat(drops, losses);
    var d, l := multiset(DroppedItems(drops)), multiset(DroppedItems(losses));
    assert multiset(given') + (d + l) == (multiset(given') + l) + d;
    assert (multiset(given) + multiset{item}) + d == (multiset(given) + d) + multiset{item};
    assert multiset(since + [item]) == multiset(since) + multiset{item};
  }

  lemma LossesMayDrop<T>(
      policy: Policy<T>, maxsize: nat, entries: seq<Entry<T>>, item: T, after: seq<Entry<T>>, drops: seq<Drop<T>>,
      losses: seq<Drop<T>>)
    requires AllMayDrop(policy, maxsize, drops) && Takes(policy, maxsize, entries, item, after, losses)
    ensures AllMayDrop(policy, maxsize, drops + losses)
  {
    forall d | d in drops + losses ensures policy.EvictNonCriticalAndSignal? && MayDrop(policy.isCritical, maxsize, d) {
      assert d in drops || d in losses;
    }
  }

  /** What came in is queued, consumed or lost. */
  lemma DeliveryBalances<T>(
      policy: Policy<T>, maxsize: nat, consumed: seq<T>, entries: seq<Entry<T>>, item: T, after: seq<Entry<T>>,
      losses: seq<Drop<T>>)
    requires Takes(policy, maxsize, entries, item, after, losses)
    ensures multiset(consumed + Items(after)) + multiset(DroppedItems(losses)) ==
            multiset(consumed + Items(entries)) + multiset{item}
  {
    if |entries| < maxsize {
      ItemsOfOne(item);
      ItemsOfConcat(entries, [Msg(item)]);
      assert DroppedItems(losses) == [];
    } else {
      assert DroppedItems(losses) == [losses[0].item];
      if policy.isCritical(item) {
        ReplacementIsAccounted(policy.isCritical, consumed, losses[0], after);
      }
    }
  }

  lemma DroppedOfConcat<T>(a: seq<Drop<T>>, b: seq<Drop<T>>)
    ensures multiset(DroppedItems(a + b)) == multiset(DroppedItems(a)) + multiset(DroppedItems(b))
  {
    assert DroppedItems(a + b) == DroppedItems(a) + DroppedItems(b);
  }

  /** Giving up one item for another. */
  lemma ReplacementIsAccounted<T>(isCritical: T -> bool, consumed: seq<T>, d: Drop<T>, after: seq<Entry<T>>)
    requires isCritical(d.arriving) && Replaces(isCritical, d, after)
    ensures multiset(consumed + Items(after)) + multiset{d.item} ==
            multiset(consumed + Items(d.met)) + multiset{d.arriving}
  {
    var k: nat :| IsOldestNonCritical(isCritical, d.met, k) && d.met[k] == Msg(d.item) &&
                  after == d.met[..k] + d.met[k + 1..] + [Msg(d.arriving)];
    ItemsAround(d.met, k);
    ItemsOfConcat(d.met[..k] + d.met[k + 1..], [Msg(d.arriving)]);
    ItemsOfOne(d.arriving);
  }

  lemma ItemsOfOne<T>(item: T)
    ensures Items([Msg(item)]) == [item]
  {
  }

  /** A subscriber that lost nothing has been given every broadcast, in order. */
  lemma NothingDroppedMeansAllGiven<T>(policy: Policy<T>, maxsize: nat, given: seq<T>, since: seq<T>)
    requires Faithful(policy, given, since) && Accounted(policy, maxsize, given, since, [])
    ensures given == since
  {
    if policy.EvictNonCriticalAndSignal? {
      assert DroppedItems<T>([]) == [];
      assert |multiset(since)| == |since| && |multiset(given)| == |given|;
      WholeSubsequence(given, since);
    }
  }

  lemma {:induction false} WholeSubsequence<T>(a: seq<T>, b: seq<T>)
    requires Subsequence(a, b)
    ensures |a| <= |b| && (|a| == |b| ==> a == b)
    decreases |b|
  {
    if a != [] {
      var b' := b[..|b| - 1];
      if Subsequence(a, b') {
        WholeSubsequence(a, b');
      } else {
        WholeSubsequence(a[..|a| - 1], b');
      }
    }
  }

  /** What a subscriber went through: the broadcasts since its subscription, the items it received, those
      it lost, and how many broadcasts met a full queue. */
  datatype History<T> = History(since: seq<T>, consumed: seq<T>, drops: seq<Drop<T>>, fullMeets: nat)

  /** The account of an open stream. */
  ghost predicate Sound<T>(policy: Policy<T>, maxsize: nat, entries: seq<Entry<T>>, past: History<T>) {
    && OnlyMessages(entries) && |entries| <= maxsize
    && Faithful(policy, past.consumed + Items(entries), past.since)
    && Accounted(policy, maxsize, past.consumed + Items(entries), past.since, past.drops)
    && |past.drops| == past.fullMeets
  }

  /** The history after one more broadcast. */
  ghost function Recorded<T>(
      past: History<T>, policy: Policy<T>, maxsize: nat, entries: seq<Entry<T>>, item: T): History<T>
  {
    past.(since := past.since + [item],
          drops := past.drops + Losses(policy, maxsize, entries, item),
          fullMeets := past.fullMeets + if |entries| < maxsize then 0 else 1)
  }

  /** An accepted delivery keeps the account sound. */
  lemma DeliveryKeepsAccount<T>(policy: Policy<T>, maxsize: nat, entries: seq<Entry<T>>, past: History<T>, item: T)
    requires Sound(policy, maxsize, entries, past) && Delivered(policy, maxsize, entries, item).0
    ensures Sound(policy, maxsize, Delivered(policy, maxsize, entries, item).1,
                  Recorded(past, policy, maxsize, entries, item))
  {
    var after := Delivered(policy, maxsize, entries, item).1;
    DeliveryIsFaithful(policy, maxsize, past.consumed, entries, past.since, item);
    DeliveryTakes(policy, maxsize, entries, item);
    DeliveryIsAccounted(policy, maxsize, past.consumed, entries, past.since, past.drops, item, after,
                        Losses(policy, maxsize, entries, item));
  }

  /** Consuming the next item keeps it, too. */
  lemma ConsumptionKeepsAccount<T>(
      policy: Policy<T>, maxsize: nat, entry: Entry<T>, rest: seq<Entry<T>>, past: History<T>)
    requires Sound(policy, maxsize, [entry] + rest, past)
    ensures entry.Msg? && Sound(policy, maxsize, rest, past.(consumed := past.consumed + [entry.item]))
  {
    FirstIsMessage(entry, rest);
    GivenStays(past.consumed, entry.item, rest);
  }

  lemma FirstIsMessage<T>(entry: Entry<T>, rest: seq<Entry<T>>)
    requires OnlyMessages([entry] + rest)
    ensures entry.Msg? && OnlyMessages(rest)
  {
    assert ([entry] + rest)[0] in [entry] + rest;
    assert forall e <- rest :: e in [entry] + rest;
  }

  lemma GivenStays<T>(consumed: seq<T>, item: T, rest: seq<Entry<T>>)
    ensures consumed + Items([Msg(item)] + rest) == consumed + [item] + Items(rest)
  {
    ItemsOfConcat([Msg(item)], rest);
    ItemsOfOne(item);
  }

  /** Every critical broadcast was given, as often as it was broadcast. */
  lemma CriticalItemsAreGiven<T>(
      policy: Policy<T>, maxsize: nat, entries: seq<Entry<T>>, past: History<T>, x: T)
    requires Sound(policy, maxsize, entries, past)
    requires policy.EvictNonCriticalAndSignal? ==> policy.isCritical(x)
    ensures multiset(past.consumed + Items(entries))[x] == multiset(past.since)[x]
  {
    forall d | d in past.drops ensures d.item != x {}
    assert x !in DroppedItems(past.drops);
  }

  /** A subscriber whose queue was never full at a broadcast has been given everything, in order. */
  lemma NeverFullMeansAllGiven<T>(policy: Policy<T>, maxsize: nat, entries: seq<Entry<T>>, past: History<T>)
    requires Sound(policy, maxsize, entries, past) && past.fullMeets == 0
    ensures past.consumed + Items(entries) == past.since
  {
    NothingDroppedMeansAllGiven(policy, maxsize, past.consumed + Items(entries), past.since);
  }

  /** Of all broadcasts, exactly as many are missing as met a full queue. */
  lemma MissingAsManyAsFullMeets<T>(policy: Policy<T>, maxsize: nat, entries: seq<Entry<T>>, past: History<T>)
    requires Sound(policy, maxsize, entries, past)
    ensures |past.since| == |past.consumed| + |entries| + past.fullMeets
  {
    var given := past.consumed + Items(entries);
    AllItems(entries);
    assert |multiset(past.since)| == |past.since| && |multiset(given)| == |given|;
    assert |multiset(DroppedItems(past.drops))| == |past.drops|;
  }

  lemma {:induction false} AllItems<T>(entries: seq<Entry<T>>)
    requires OnlyMessages(entries)
    ensures |Items(entries)| == |entries|
  {
    if entries != [] {
      assert entries[|entries| - 1] in entries;
      AllItems(entries[..|entries| - 1]);
    }
  }

  /** What a removed subscriber has consumed. */
  ghost predicate FaithfulPart<T>(policy: Policy<T>, consumed: seq<T>, since: seq<T>) {
    match policy
    case EvictNonCriticalAndSignal(_) => Subsequence(consumed, since)
    case DropSubscriber => consumed <= since
  }

  ghost predicate OnlyMessages<T>(entries: seq<Entry<T>>) {
    forall e <- entries :: e.Msg?
  }

  /** A delivery that the policy accepts keeps the account faithful. */
  lemma DeliveryIsFaithful<T>(
      policy: Policy<T>, maxsize: nat, consumed: seq<T>, entries: seq<Entry<T>>, since: seq<T>, item: T)
    requires Faithful(policy, consumed + Items(entries), since) && OnlyMessages(entries) && |entries| <= maxsize
    requires Delivered(policy, maxsize, entries, item).0
    ensures var entries' := Delivered(policy, maxsize, entries, item).1;
      Faithful(policy, consumed + Items(entries'), since + [item]) && OnlyMessages(entries') && |entries'| <= maxsize
  {
    var entries' := Delivered(policy, maxsize, entries, item).1;
    var given := consumed + Items(entries);
    if |entries| < maxsize {
      AppendIsFaithful(policy, consumed, entries, since, item);
    } else if !policy.isCritical(item) {
      SubsequenceGrows(given, since, item);
      CriticalOfConcat(policy.isCritical, since, [item]);
      assert Critical(policy.isCritical, [item]) == [];
    } else {
      var kept := EvictOne(policy.isCritical, entries);
      var k := OldestNonCritical(policy.isCritical, entries);
      EvictionIsFaithful(policy.isCritical, consumed, entries, k, since);
      AppendIsFaithful(policy, consumed, kept, since, item);
    }
  }

  lemma AppendIsFaithful<T>(policy: Policy<T>, consumed: seq<T>, entries: seq<Entry<T>>, since: seq<T>, item: T)
    requires Faithful(policy, consumed + Items(entries), since)
    ensures Faithful(policy, consumed + Items(entries + [Msg(item)]), since + [item])
  {
    var given := consumed + Items(entries);
    ItemsOfConcat(entries, [Msg(item)]);
    assert Items([Msg(item)]) == [item];
    assert consumed + Items(entries + [Msg(item)]) == given + [item];
    if policy.EvictNonCriticalAndSignal? {
      SubsequenceGrows(given, since, item);
      CriticalOfConcat(policy.isCritical, given, [item]);
      CriticalOfConcat(policy.isCritical, since, [item]);
    }
  }

  lemma EvictionIsFaithful<T>(isCritical: T -> bool, consumed: seq<T>, entries: seq<Entry<T>>, k: nat, since: seq<T>)
    requires k < |entries| && NonCritical(isCritical, entries[k])
    requires Faithful(EvictNonCriticalAndSignal(isCritical), consumed + Items(entries), since)
    ensures Faithful(EvictNonCriticalAndSignal(isCritical), consumed + Items(entries[..k] + entries[k + 1..]), since)
  {
    var a, x, c := consumed + Items(entries[..k]), entries[k].item, Items(entries[k + 1..]);
    ItemsAround(entries, k);
    Reassociate(consumed, Items(entries[..k]), [x], c);
    SubsequenceShrinks(a, x, c, since);
    CriticalAround(isCritical, a, x, c);
  }

  lemma Reassociate<T>(a: seq<T>, b: seq<T>, x: seq<T>, c: seq<T>)
    ensures a + (b + x + c) == a + b + x + c && a + (b + c) == a + b + c
  {
  }

  lemma ItemsAround<T>(entries: seq<Entry<T>>, k: nat)
    requires k < |entries| && entries[k].Msg?
    ensures Items(entries) == Items(entries[..k]) + [entries[k].item] + Items(entries[k + 1..])
    ensures Items(entries[..k] + entries[k + 1..]) == Items(entries[..k]) + Items(entries[k + 1..])
  {
    ItemsOfParts(entries[..k], entries[k], entries[k + 1..]);
    PartsOf(entries, k);
    ItemsOfConcat(entries[..k], entries[k + 1..]);
  }

  lemma PartsOf<T>(s: seq<T>, k: nat)
    requires k < |s|
    ensures s == s[..k] + [s[k]] + s[k + 1..]
  {
  }

  lemma ItemsOfParts<T>(a: seq<Entry<T>>, e: Entry<T>, c: seq<Entry<T>>)
    requires e.Msg?
    ensures Items(a + [e] + c) == Items(a) + [e.item] + Items(c)
  {
    ItemsOfConcat(a + [e], c);
    ItemsOfConcat(a, [e]);
    assert Items([e]) == [e.item];
  }

  lemma CriticalAround<T>(isCritical: T -> bool, a: seq<T>, x: T, c: seq<T>)
    requires !isCritical(x)
    ensures Critical(isCritical, a + [x] + c) == Critical(isCritical, a + c)
  {
    CriticalOfConcat(isCritical, a + [x], c);
    CriticalOfConcat(isCritical, a, [x]);
    CriticalOfConcat(isCritical, a, c);
    assert Critical(isCritical, [x]) == [];
  }

  /** A delivery is refused exactly when the queue is full and, under eviction, a critical item meets
      nothing but critical items. */
  lemma RefusedExactlyWhenHopeless<T>(policy: Policy<T>, maxsize: nat, entries: seq<Entry<T>>, item: T)
    requires |entries| <= maxsize && OnlyMessages(entries)
    ensures !Delivered(policy, maxsize, entries, item).0 <==>
      && |entries| == maxsize
      && (policy.EvictNonCriticalAndSignal? ==>
            policy.isCritical(item) && forall e <- entries :: policy.isCritical(e.item))
  {
    if policy.EvictNonCriticalAndSignal? && |entries| == maxsize {
      var k := OldestNonCritical(policy.isCritical, entries);
      assert k == |entries| <==> forall e <- entries :: !NonCritical(policy.isCritical, e);
    }
  }

  /** Why a subscriber refuses an item, given what its queue held. */
  ghost predicate IsHopeless<T>(policy: Policy<T>, maxsize: nat, entries: seq<Entry<T>>, item: T) {
    && |entries| == maxsize
    && (policy.EvictNonCriticalAndSignal? ==>
          policy.isCritical(item) && forall e <- entries :: e.Msg? && policy.isCritical(e.item))
  }

  /** What a broadcast makes of one subscriber. */
  ghost predicate Outcome<T>(
      policy: Policy<T>, maxsize: nat, entries: seq<Entry<T>>, past: History<T>, item: T, stays: bool,
      after: seq<Entry<T>>, now: History<T>)
  {
    && now == Recorded(past, policy, maxsize, entries, item)
    && (stays <==> !IsHopeless(policy, maxsize, entries, item))
    && (|entries| < maxsize ==> now.drops == past.drops)
    && if stays then
         && Sound(policy, maxsize, after, now)
         && Takes(policy, maxsize, entries, item, after, Losses(policy, maxsize, entries, item))
       else FaithfulPart(policy, now.consumed, now.since)
  }

  lemma OutcomeOfDelivery<T>(policy: Policy<T>, maxsize: nat, entries: seq<Entry<T>>, past: History<T>, item: T)
    requires Sound(policy, maxsize, entries, past)
    ensures var (stays, after) := Delivered(policy, maxsize, entries, item);
      Outcome(policy, maxsize, entries, past, item, stays, after, Recorded(past, policy, maxsize, entries, item))
  {
    RefusedExactlyWhenHopeless(policy, maxsize, entries, item);
    if Delivered(policy, maxsize, entries, item).0 {
      DeliveryKeepsAccount(policy, maxsize, entries, past, item);
      DeliveryTakes(policy, maxsize, entries, item);
    } else {
      RemovalIsFaithful(policy, past.consumed, entries, past.since, item);
    }
    if |entries| < maxsize { assert past.drops + [] == past.drops; }
  }

  // ----- The queues and the channel -----

  /** A bounded queue. The ghost fields record its subscriber's history. */
  class Queue<T(==)> {
    const maxsize: nat
    var items: seq<Entry<T>>
    ghost var past: History<T>
    ghost var removed: bool      // removed by overflow

    constructor (maxsize: nat)
      ensures this.maxsize == maxsize && items == [] && past == History([], [], [], 0) && !removed
    {
      this.maxsize := maxsize;
      items, past, removed := [], History([], [], [], 0), false;
    }

    ghost predicate Healthy(policy: Policy<T>)
      reads this
    {
      if removed then Ended(policy) else Open(policy)
    }

    method PutNowait(e: Entry<T>) returns (ok: bool)
      modifies this`items
      ensures ok == (old(|items|) < maxsize)
      ensures items == if ok then old(items) + [e] else old(items)
    {
      ok := |items| < maxsize;
      if ok { items := items + [e]; }
    }

    method GetNowait() returns (e: Entry<T>)
      requires items != []
      modifies this`items
      ensures e == old(items)[0] && items == old(items)[1..]
    {
      e := items[0];
      items := items[1..];
    }

    /** The subscriber's account while its stream is open. */
    ghost predicate Open(policy: Policy<T>)
      reads this
    {
      Sound(policy, maxsize, items, past)
    }

    /** Hands out the next entry and records what the consumer received. */
    method Consume(ghost policy: Policy<T>) returns (event: Event<T>)
      modifies this`items, this`past
      ensures event == if old(items) == [] then Idle
                       else if old(items)[0].EndOfStream? then StreamEnded
                       else Item(old(items)[0].item)
      ensures items == if old(items) == [] then [] else old(items)[1..]
      ensures past == if event.Item? then old(past).(consumed := old(past.consumed) + [event.item]) else old(past)
      ensures old(Healthy(policy)) ==> Healthy(policy)
    {
      if items == [] {
        return Idle;
      }
      ghost var before := items;
      var entry := GetNowait();
      assert before == [entry] + items;
      if entry.EndOfStream? {
        assert before[0] in before;
        return StreamEnded;
      }
      event := Item(entry.item);
      if !removed && Sound(policy, maxsize, before, past) {
        ConsumptionKeepsAccount(policy, maxsize, entry, items, past);
      }
      past := past.(consumed := past.consumed + [entry.item]);
    }

    /** After removal by overflow: nothing but the end marker is left to read. */
    ghost predicate Ended(policy: Policy<T>)
      reads this
    {
      (items == [EndOfStream] || items == []) && FaithfulPart(policy, past.consumed, past.since)
    }
  }

  method EndStream<T>(queue: Queue<T>)
    requires queue.maxsize >= 1
    modifies queue`items
    ensures queue.items == [EndOfStream]
  {
    while queue.items != []
      decreases |queue.items|
    {
      var _ := queue.GetNowait();
    }
    var _ := queue.PutNowait(EndOfStream);
  }

  method EvictOneNonCritical<T>(queue: Queue<T>, isCritical: T -> bool)
    requires |queue.items| <= queue.maxsize
    modifies queue`items
    ensures queue.items == EvictOne(isCritical, old(queue.items))
  {
    ghost var before := queue.items;
    ghost var k := OldestNonCritical(isCritical, before);
    ghost var i := 0;
    var temp := [];
    var evicted := false;
    while queue.items != []
      invariant 0 <= i <= |before| && queue.items == before[i..]
      invariant evicted <==> i > k
      invariant !evicted ==> temp == before[..i]
      invariant evicted ==> temp == before[..k] + before[k + 1..i]
      decreases |queue.items|
    {
      var msg := queue.GetNowait();
      assert msg == before[i];
      if !evicted && msg.Msg? && !isCritical(msg.item) {
        evicted := true;
        assert i == k;
        assert temp == before[..k] + before[k + 1..k + 1];
      } else {
        if evicted { assert before[k + 1..i] + [msg] == before[k + 1..i + 1]; }
        temp := temp + [msg];
      }
      i := i + 1;
    }
    assert temp == EvictOne(isCritical, before);
    Refill(queue, temp);
  }

  /** Puts the messages back in their order; they fit, since they were there before. */
  method Refill<T>(queue: Queue<T>, temp: seq<Entry<T>>)
    requires queue.items == [] && |temp| <= queue.maxsize
    modifies queue`items
    ensures queue.items == temp
  {
    var n := 0;
    while n < |temp|
      invariant n <= |temp| && queue.items == temp[..n]
    {
      var ok := queue.PutNowait(temp[n]);
      if !ok { break; }
      n := n + 1;
    }
  }

  method Deliver<T>(policy: Policy<T>, queue: Queue<T>, item: T) returns (accepted: bool)
    requires |queue.items| <= queue.maxsize
    modifies queue`items
    ensures (accepted, queue.items) == Delivered(policy, queue.maxsize, old(queue.items), item)
  {
    accepted := queue.PutNowait(Msg(item));
    if accepted || policy.DropSubscriber? {
      return;
    }
    if !policy.isCritical(item) {
      return true;
    }
    EvictOneNonCritical(queue, policy.isCritical);
    accepted := queue.PutNowait(Msg(item));
  }

  class SseChannel<T(==)> {
    const overflow: Policy<T>
    const queueMaxsize: nat
    var subscribers: set<Queue<T>>
    ghost var known: set<Queue<T>>  // every queue ever handed out

    ghost predicate Valid()
      reads this, known
    {
      && queueMaxsize >= 1 && subscribers <= known
      && forall q <- known :: q.maxsize == queueMaxsize && q.Healthy(overflow) && (q.removed ==> q !in subscribers)
    }

    constructor (overflow: Policy<T>, queueMaxsize: nat)
      requires queueMaxsize >= 1
      ensures Valid() && this.overflow == overflow && this.queueMaxsize == queueMaxsize
      ensures subscribers == {} && known == {}
    {
      this.overflow, this.queueMaxsize := overflow, queueMaxsize;
      subscribers, known := {}, {};
    }

    /** `hookRaises` tells whether the first-subscriber hook fails, which takes the queue back. */
    method Subscribe(hookRaises: bool) returns (queue: Option<Queue<T>>)
      requires Valid()
      modifies this
      ensures Valid()
      ensures queue.None? <==> hookRaises && old(subscribers) == {}
      ensures queue.None? ==> subscribers == old(subscribers)
      ensures queue.Some? ==> fresh(queue.value) && subscribers == old(subscribers) + {queue.value}
      ensures queue.Some? ==> queue.value.past == History([], [], [], 0) && known == old(known) + {queue.value}
    {
      var wasEmpty := subscribers == {};
      var q := new Queue<T>(queueMaxsize);
      SoundFromTheStart(overflow, queueMaxsize);
      subscribers := subscribers + {q};
      if wasEmpty && hookRaises {
        subscribers := subscribers - {q};
        return None;
      }
      known := known + {q};
      return Some(q);
    }

    method UnsubscribeNowait(queue: Queue<T>) returns (empty: bool)
      requires Valid()
      modifies this`subscribers
      ensures Valid()
      ensures subscribers == old(subscribers) - {queue} && (empty <==> subscribers == {})
    {
      subscribers := subscribers - {queue};
      empty := subscribers == {};
    }

    /** Delivers the item everywhere; returns the subscribers that refuse it. */
    method DeliverToAll(item: T) returns (stale: set<Queue<T>>)
      requires forall q <- subscribers :: q.maxsize == queueMaxsize && |q.items| <= queueMaxsize
      modifies subscribers`items, subscribers`past
      ensures stale <= subscribers
      ensures forall q <- subscribers ::
        && (q !in stale, q.items) == Delivered(overflow, queueMaxsize, old(q.items), item)
        && q.past == Recorded(old(q.past), overflow, queueMaxsize, old(q.items), item)
    {
      var todo := subscribers;
      stale := {};
      while todo != {}
        invariant todo <= subscribers && stale <= subscribers - todo
        invariant forall q <- todo :: q.items == old(q.items) && q.past == old(q.past)
        invariant forall q <- subscribers - todo ::
          && (q !in stale, q.items) == Delivered(overflow, queueMaxsize, old(q.items), item)
          && q.past == Recorded(old(q.past), overflow, queueMaxsize, old(q.items), item)
        decreases |todo|
      {
        var queue :| queue in todo;
        queue.past := Recorded(queue.past, overflow, queueMaxsize, queue.items, item);
        var accepted := Deliver(overflow, queue, item);
        if !accepted { stale := stale + {queue}; }
        todo := todo - {queue};
      }
    }

    /** The same, with the account of every subscriber. */
    method DeliverAccounted(item: T) returns (stale: set<Queue<T>>)
      requires forall q <- subscribers :: q.maxsize == queueMaxsize && q.Open(overflow)
      modifies subscribers`items, subscribers`past
      ensures stale <= subscribers
      ensures forall q <- subscribers ::
        Outcome(overflow, queueMaxsize, old(q.items), old(q.past), item, q !in stale, q.items, q.past)
    {
      stale := DeliverToAll(item);
      forall q | q in subscribers
        ensures Outcome(overflow, queueMaxsize, old(q.items), old(q.past), item, q !in stale, q.items, q.past)
      {
        OutcomeOfDelivery(overflow, queueMaxsize, old(q.items), old(q.past), item);
      }
    }

    /** Ends the streams of the refusing subscribers and takes them out of the registry. */
    method RemoveStale(stale: set<Queue<T>>)
      requires stale <= subscribers && queueMaxsize >= 1
      requires forall q <- stale :: q.maxsize == queueMaxsize
      modifies this`subscribers, stale
      ensures subscribers == old(subscribers) - stale
      ensures forall q <- stale :: q.items == [EndOfStream] && q.removed
      ensures forall q <- stale :: q.past == old(q.past)
    {
      var todo := stale;
      while todo != {}
        invariant todo <= stale && subscribers == old(subscribers) - (stale - todo)
        invariant forall q <- stale :: q.past == old(q.past)
        invariant forall q <- stale - todo :: q.items == [EndOfStream] && q.removed
        decreases |todo|
      {
        var queue :| queue in todo;
        EndStream(queue);
        queue.removed := true;
        subscribers := subscribers - {queue};
        todo := todo - {queue};
      }
    }

    /** Delivers to every subscriber and removes exactly those for which delivery is hopeless. A queue with
        room takes the item; a full one that stays gives up one item that is not critical. */
    method Broadcast(item: T)
      requires Valid()
      modifies this`subscribers, subscribers
      ensures Valid()
      ensures subscribers <= old(subscribers)
      ensures forall q <- old(subscribers) ::
        Outcome(overflow, queueMaxsize, old(q.items), old(q.past), item, q in subscribers, q.items, q.past)
      ensures forall q <- old(subscribers) :: q !in subscribers ==> q.removed && q.items == [EndOfStream]
      ensures forall q <- old(subscribers) :: |old(q.items)| < queueMaxsize ==>
        q in subscribers && q.items == old(q.items) + [Msg(item)]
    {
      assert forall q <- subscribers :: q.Open(overflow);
      var stale := DeliverAccounted(item);
      RemoveStale(stale);
    }

    /** One round of `iterate`: an empty queue is an idle timeout, the end marker ends the stream. */
    method Next(queue: Queue<T>) returns (event: Event<T>)
      requires Valid() && queue in known
      modifies queue
      ensures Valid()
      ensures queue.removed == old(queue.removed)
      ensures event == if old(queue.items) == [] then Idle
                       else if old(queue.items)[0].EndOfStream? then StreamEnded
                       else Item(old(queue.items)[0].item)
      ensures queue.items == if old(queue.items) == [] then [] else old(queue.items)[1..]
      ensures queue.past == if event.Item? then old(queue.past).(consumed := old(queue.past.consumed) + [event.item])
                            else old(queue.past)
      ensures old(queue.removed) ==> !event.Item?
    {
      event := queue.Consume(overflow);
    }
  }

  lemma SoundFromTheStart<T>(policy: Policy<T>, maxsize: nat)
    ensures Sound(policy, maxsize, [], History([], [], [], 0))
  {
    assert DroppedItems<T>([]) == [];
  }

  lemma {:induction false} PrefixOfSubsequence<T>(a: seq<T>, c: seq<T>, b: seq<T>)
    requires Subsequence(a + c, b)
    ensures Subsequence(a, b)
  {
    if c != [] {
      assert a + c == a + c[..|c| - 1] + [c[|c| - 1]] + [];
      SubsequenceShrinks(a + c[..|c| - 1], c[|c| - 1], [], b);
      assert a + c[..|c| - 1] + [] == a + c[..|c| - 1];
      PrefixOfSubsequence(a, c[..|c| - 1], b);
    } else {
      assert a + c == a;
    }
  }

  /** What a removed subscriber had consumed is a faithful part of what was broadcast. */
  lemma RemovalIsFaithful<T>(policy: Policy<T>, consumed: seq<T>, entries: seq<Entry<T>>, since: seq<T>, item: T)
    requires Faithful(policy, consumed + Items(entries), since)
    ensures FaithfulPart(policy, consumed, since + [item])
  {
    if policy.EvictNonCriticalAndSignal? {
      PrefixOfSubsequence(consumed, Items(entries), since);
      SubsequenceGrows(consumed, since, item);
    }
  }
}
