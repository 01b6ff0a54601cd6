/** The permission-use merge cache: records of one key that fall into the current 200 ms window are
    dropped instead of being forwarded to the service. The local cache also ends a window at the wall-clock
    minute; the remote cache does not (`perMinute`). */
module MergeCache {
  import opened Options

  const MERGE_TIMESTAMP := 200
  const MERGE_MINUTE_TIMESTAMP := 60000
  const INT_MAX := 0x7fff_ffff

  datatype Entry = Entry(count: int, stamp: int)
  type Cache = map<string, Entry>

  /** 32-bit two's complement addition. */
  function Add32(a: int, b: int): int {
    (a + b + 0x8000_0000) % 0x1_0000_0000 - 0x8000_0000
  }

  /** Division that truncates toward zero. */
  function Minute(t: int): int {
    if t >= 0 then t / MERGE_MINUTE_TIMESTAMP else -((-t) / MERGE_MINUTE_TIMESTAMP)
  }

  /** One valid record: `bypass` when it carries extra data and skips the cache, `accepted` when the service,
      if asked, answers success. */
  datatype Call = Call(key: string, success: nat, now: int, bypass: bool, accepted: bool)

  predicate InWindow(perMinute: bool, stamp: int, now: int) {
    (perMinute ==> Minute(now) == Minute(stamp)) && now - stamp < MERGE_TIMESTAMP
  }

  /** A window is 200 ms long and, for the local cache, ends with its wall-clock minute. */
  lemma WindowIff(perMinute: bool, stamp: int, now: int)
    requires stamp >= 0 && now >= 0
    ensures InWindow(perMinute, stamp, now) <==> now - stamp < 200 && (perMinute ==> now / 60000 == stamp / 60000)
  {
  }

  /** Dropped: inside the window, and not the first success of a window that has had none. */
  predicate Suppressed(perMinute: bool, cache: Cache, c: Call) {
    && !c.bypass && c.key in cache
    && InWindow(perMinute, cache[c.key].stamp, c.now)
    && !(cache[c.key].count == 0 && c.success != 0)
  }

  function Next(perMinute: bool, cache: Cache, c: Call): Cache {
    if c.bypass then cache
    else if Suppressed(perMinute, cache, c) then
      cache[c.key := Entry(Add32(cache[c.key].count, c.success), cache[c.key].stamp)]
    else if c.accepted then cache[c.key := Entry(c.success, c.now)]
    else cache - {c.key}
  }

  function After(perMinute: bool, calls: seq<Call>): Cache {
    if calls == [] then map[] else Next(perMinute, After(perMinute, calls[..|calls| - 1]), calls[|calls| - 1])
  }

  predicate SuppressedAt(perMinute: bool, calls: seq<Call>, i: nat) {
    i < |calls| && Suppressed(perMinute, After(perMinute, calls[..i]), calls[i])
  }

  /** Call `i` goes through the cache and on to the service. */
  predicate ForwardedAt(perMinute: bool, calls: seq<Call>, i: nat) {
    i < |calls| && !calls[i].bypass && !Suppressed(perMinute, After(perMinute, calls[..i]), calls[i])
  }

  predicate Nondecreasing(calls: seq<Call>) {
    forall i, j :: 0 <= i < j < |calls| ==> calls[i].now <= calls[j].now
  }

  predicate AllAccepted(calls: seq<Call>) {
    forall i :: 0 <= i < |calls| && !calls[i].bypass ==> calls[i].accepted
  }

  /** Adding this record to a window that has seen a success does not wrap its sum around to zero. */
  predicate Counts(e: Entry, c: Call) {
    e.count != 0 ==> Add32(e.count, c.success) != 0
  }

  /** No dropped record of the run wraps a sum around to zero; in particular when no sum leaves the 32-bit range. */
  ghost predicate NeverForgets(perMinute: bool, calls: seq<Call>) {
    forall i :: 0 <= i < |calls| && SuppressedAt(perMinute, calls, i) ==>
      Counts(After(perMinute, calls[..i])[calls[i].key], calls[i])
  }

  // ---------------------------------------------------------------- what the cache remembers

  /** The last cache-path forward of a key. */
  function LastForward(perMinute: bool, calls: seq<Call>, key: string): Option<nat> {
    if calls == [] then None
    else if calls[|calls| - 1].key == key && ForwardedAt(perMinute, calls, |calls| - 1) then Some(|calls| - 1)
    else LastForward(perMinute, calls[..|calls| - 1], key)
  }

  lemma PrefixAt(perMinute: bool, calls: seq<Call>, n: nat, i: nat)
    requires i < n <= |calls|
    ensures ForwardedAt(perMinute, calls[..n], i) <==> ForwardedAt(perMinute, calls, i)
    ensures SuppressedAt(perMinute, calls[..n], i) <==> SuppressedAt(perMinute, calls, i)
  {
    assert calls[..n][..i] == calls[..i];
  }

  lemma {:induction false} LastForwardIsLast(perMinute: bool, calls: seq<Call>, key: string)
    ensures var r := LastForward(perMinute, calls, key);
      && (r.Some? ==> r.value < |calls| && calls[r.value].key == key && ForwardedAt(perMinute, calls, r.value))
      && (forall i :: 0 <= i < |calls| && calls[i].key == key && ForwardedAt(perMinute, calls, i) ==>
            r.Some? && i <= r.value)
    decreases |calls|
  {
    if calls != [] {
      var n := |calls| - 1;
      LastForwardIsLast(perMinute, calls[..n], key);
      var r := LastForward(perMinute, calls[..n], key);
      forall i | 0 <= i < n
        ensures calls[..n][i] == calls[i]
        ensures ForwardedAt(perMinute, calls[..n], i) <==> ForwardedAt(perMinute, calls, i)
      {
        PrefixAt(perMinute, calls, n, i);
      }
    }
  }

  /** What the entry of a key says about the past, and what its absence says. */
  predicate Remembers(calls: seq<Call>, last: Option<nat>, entry: Option<Entry>, exact: bool) {
    match entry
    case None => last.None? || (last.value < |calls| && !calls[last.value].accepted)
    case Some(e) =>
      && last.Some? && last.value < |calls| && calls[last.value].accepted
      && e.stamp == calls[last.value].now
      && (e.count != 0 ==> calls[last.value].success > 0)
      && (exact ==> (e.count != 0 <==> calls[last.value].success > 0))
  }

  function EntryOf(cache: Cache, key: string): Option<Entry> {
    if key in cache then Some(cache[key]) else None
  }

  /** A sum inside the 32-bit range is exact, so a positive one stays positive. */
  lemma SmallSumCounts(e: Entry, c: Call)
    requires 0 <= e.count && e.count + c.success <= INT_MAX
    ensures Add32(e.count, c.success) == e.count + c.success && Counts(e, c)
  {
  }

  /** A dropped record changes only the sum, and a sum leaves zero only by a forwarded success. */
  lemma DropRemembers(pre: seq<Call>, c: Call, last: Option<nat>, e: Entry, exact: bool)
    requires Remembers(pre, last, Some(e), exact)
    requires !(e.count == 0 && c.success != 0) && (exact ==> Counts(e, c))
    ensures Remembers(pre + [c], last, Some(Entry(Add32(e.count, c.success), e.stamp)), exact)
  {
    assert (pre + [c])[last.value] == pre[last.value];
  }

  lemma LaterRemembers(pre: seq<Call>, c: Call, last: Option<nat>, entry: Option<Entry>, exact: bool)
    requires Remembers(pre, last, entry, exact)
    ensures Remembers(pre + [c], last, entry, exact)
  {
    if last.Some? {
      assert (pre + [c])[last.value] == pre[last.value];
    }
  }

  lemma {:induction false} CacheMeaning(perMinute: bool, calls: seq<Call>, key: string, exact: bool)
    requires exact ==> NeverForgets(perMinute, calls)
    ensures Remembers(calls, LastForward(perMinute, calls, key), EntryOf(After(perMinute, calls), key), exact)
    decreases |calls|
  {
    hide Add32, InWindow, NeverForgets, Counts;
    if calls != [] {
      var n := |calls| - 1;
      var pre, c := calls[..n], calls[n];
      if exact {
        PrefixNeverForgets(perMinute, calls, n);
        LastCounts(perMinute, calls);
      }
      CacheMeaning(perMinute, pre, key, exact);
      var last, entry := LastForward(perMinute, pre, key), EntryOf(After(perMinute, pre), key);
      assert calls == pre + [c];
      if c.key == key && Suppressed(perMinute, After(perMinute, pre), c) {
        DropRemembers(pre, c, last, entry.value, exact);
      } else {
        LaterRemembers(pre, c, last, entry, exact);
      }
    }
  }

  lemma LastCounts(perMinute: bool, calls: seq<Call>)
    requires NeverForgets(perMinute, calls) && calls != []
    ensures var n := |calls| - 1;
      SuppressedAt(perMinute, calls, n) ==> Counts(After(perMinute, calls[..n])[calls[n].key], calls[n])
  {
  }

  lemma PrefixNeverForgets(perMinute: bool, calls: seq<Call>, n: nat)
    requires NeverForgets(perMinute, calls) && n <= |calls|
    ensures NeverForgets(perMinute, calls[..n])
  {
    forall i | 0 <= i < n && SuppressedAt(perMinute, calls[..n], i)
      ensures Counts(After(perMinute, calls[..n][..i])[calls[..n][i].key], calls[..n][i])
    {
      PrefixAt(perMinute, calls, n, i);
      assert calls[..n][..i] == calls[..i];
    }
  }

  /** What the cache knows after `n` calls of a run. */
  ghost predicate KnowsAfter(perMinute: bool, calls: seq<Call>, n: nat)
    requires n <= |calls|
  {
    forall key :: Remembers(calls[..n], LastForward(perMinute, calls[..n], key),
                            EntryOf(After(perMinute, calls[..n]), key), true)
  }

  /** Throughout a run every entry tells whether its window was opened by a success, exactly when no dropped
      record wraps a sum around to zero. */
  lemma KnowsIffNeverForgets(perMinute: bool, calls: seq<Call>)
    ensures (forall n :: 0 <= n <= |calls| ==> KnowsAfter(perMinute, calls, n)) <==> NeverForgets(perMinute, calls)
  {
    if NeverForgets(perMinute, calls) {
      forall n, key | 0 <= n <= |calls|
        ensures Remembers(calls[..n], LastForward(perMinute, calls[..n], key),
                          EntryOf(After(perMinute, calls[..n]), key), true)
      {
        PrefixNeverForgets(perMinute, calls, n);
        CacheMeaning(perMinute, calls[..n], key, true);
      }
    } else {
      var i :| 0 <= i < |calls| && SuppressedAt(perMinute, calls, i)
               && !Counts(After(perMinute, calls[..i])[calls[i].key], calls[i]);
      Forgets(perMinute, calls, i);
    }
  }

  lemma Forgets(perMinute: bool, calls: seq<Call>, i: nat)
    requires SuppressedAt(perMinute, calls, i) && !Counts(After(perMinute, calls[..i])[calls[i].key], calls[i])
    ensures !KnowsAfter(perMinute, calls, i + 1)
  {
    var pre, now, key := calls[..i], calls[..i + 1], calls[i].key;
    assert now[..i] == pre && now == pre + [calls[i]];
    CacheMeaning(perMinute, pre, key, false);
    LastForwardIsLast(perMinute, pre, key);
    var last := LastForward(perMinute, pre, key);
    assert LastForward(perMinute, now, key) == last;
    assert now[last.value] == pre[last.value];
    assert EntryOf(After(perMinute, now), key).value.count == 0;
  }

  // ---------------------------------------------------------------- nothing new is dropped

  /** Every dropped record has a forward of the same key just before it, accepted by the service, less than
      200 ms earlier and, for the local cache, in the same minute; a dropped success has an accepted success.
      Failing services, backward clock steps elsewhere and 32-bit wrap-around do not matter. */
  lemma SuppressedHasWitness(perMinute: bool, calls: seq<Call>, i: nat) returns (j: nat)
    requires SuppressedAt(perMinute, calls, i)
    ensures j < i && calls[j].key == calls[i].key && ForwardedAt(perMinute, calls, j) && calls[j].accepted
    ensures InWindow(perMinute, calls[j].now, calls[i].now)
    ensures Nondecreasing(calls) ==> 0 <= calls[i].now - calls[j].now < MERGE_TIMESTAMP
    ensures calls[i].success > 0 ==> calls[j].success > 0
  {
    var pre, key := calls[..i], calls[i].key;
    CacheMeaning(perMinute, pre, key, false);
    LastForwardIsLast(perMinute, pre, key);
    j := LastForward(perMinute, pre, key).value;
    PrefixAt(perMinute, calls, i, j);
    assert pre[j] == calls[j];
  }

  // ---------------------------------------------------------------- how often a key is forwarded

  lemma MinuteBetween(a: int, b: int, c: int)
    requires a <= b <= c && Minute(a) == Minute(c)
    ensures Minute(a) == Minute(b)
  {
  }

  /** Why a record was forwarded although its key was forwarded shortly before. */
  lemma ForwardReason(perMinute: bool, calls: seq<Call>, k: nat)
    requires AllAccepted(calls) && NeverForgets(perMinute, calls)
    requires ForwardedAt(perMinute, calls, k) && LastForward(perMinute, calls[..k], calls[k].key).Some?
    ensures var j := LastForward(perMinute, calls[..k], calls[k].key).value;
      && j < k && calls[j].key == calls[k].key && ForwardedAt(perMinute, calls, j)
      && (|| (perMinute && Minute(calls[j].now) != Minute(calls[k].now))
          || calls[k].now - calls[j].now >= MERGE_TIMESTAMP
          || (calls[j].success == 0 && calls[k].success > 0))
  {
    var pre, key := calls[..k], calls[k].key;
    PrefixNeverForgets(perMinute, calls, k);
    CacheMeaning(perMinute, pre, key, true);
    LastForwardIsLast(perMinute, pre, key);
    var j := LastForward(perMinute, pre, key).value;
    PrefixAt(perMinute, calls, k, j);
    assert pre[j] == calls[j];
  }

  lemma EarlierForward(perMinute: bool, calls: seq<Call>, i: nat, k: nat)
    requires i < k < |calls| && calls[i].key == calls[k].key && ForwardedAt(perMinute, calls, i)
    ensures var r := LastForward(perMinute, calls[..k], calls[k].key); r.Some? && i <= r.value < k
  {
    LastForwardIsLast(perMinute, calls[..k], calls[k].key);
    PrefixAt(perMinute, calls, k, i);
    assert calls[..k][i] == calls[i];
  }

  /** The last two forwards of the key of call `k` before it. */
  predicate LastTwo(perMinute: bool, calls: seq<Call>, i: nat, j: nat, k: nat) {
    && k < |calls| && LastForward(perMinute, calls[..k], calls[k].key) == Some(j)
    && j < k && LastForward(perMinute, calls[..j], calls[k].key) == Some(i)
  }

  /** The guard of the branch that forwards too early: the entry of the key counts zero although a success opened its
      window, and a success arrives less than a window after the last forward but one. */
  predicate Reopens(perMinute: bool, calls: seq<Call>, k: nat) {
    && k < |calls| && !calls[k].bypass && calls[k].success > 0
    && LastForward(perMinute, calls[..k], calls[k].key).Some?
    && var j := LastForward(perMinute, calls[..k], calls[k].key).value;
       && j < k && calls[j].success > 0
       && LastForward(perMinute, calls[..j], calls[k].key).Some?
       && var i := LastForward(perMinute, calls[..j], calls[k].key).value;
          && i < j && (perMinute ==> Minute(calls[i].now) == Minute(calls[k].now))
          && calls[k].now - calls[i].now < MERGE_TIMESTAMP
          && calls[k].key in After(perMinute, calls[..k]) && After(perMinute, calls[..k])[calls[k].key].count == 0
  }

  /** A forward inside the window of the forward before it is a success, and the entry counts zero. */
  lemma ForwardInWindow(perMinute: bool, calls: seq<Call>, j: nat, k: nat)
    requires AllAccepted(calls) && k < |calls| && !calls[k].bypass
    requires LastForward(perMinute, calls[..k], calls[k].key) == Some(j)
    requires j < k && InWindow(perMinute, calls[j].now, calls[k].now)
    ensures calls[j].key == calls[k].key && ForwardedAt(perMinute, calls, j)
    ensures calls[k].key in After(perMinute, calls[..k])
    ensures ForwardedAt(perMinute, calls, k) <==>
      calls[k].success > 0 && After(perMinute, calls[..k])[calls[k].key].count == 0
  {
    hide InWindow, After, LastForward;
    var pre, key := calls[..k], calls[k].key;
    CacheMeaning(perMinute, pre, key, false);
    LastForwardIsLast(perMinute, pre, key);
    PrefixAt(perMinute, calls, k, j);
    assert pre[j] == calls[j];
  }

  /** When a call is forwarded less than a window after the last forward but one of its key: exactly in the branch that
      takes a wrapped sum for a window without a success. */
  lemma EarlyForwardIff(perMinute: bool, calls: seq<Call>, i: nat, j: nat, k: nat)
    requires AllAccepted(calls) && Nondecreasing(calls) && LastTwo(perMinute, calls, i, j, k) && !calls[k].bypass
    requires perMinute && i < k ==> Minute(calls[i].now) == Minute(calls[k].now)
    ensures i < j && calls[i].key == calls[j].key == calls[k].key
    ensures ForwardedAt(perMinute, calls, i) && ForwardedAt(perMinute, calls, j)
    ensures ForwardedAt(perMinute, calls, k) && calls[k].now - calls[i].now < MERGE_TIMESTAMP <==>
      Reopens(perMinute, calls, k)
  {
    hide After, LastForward, Minute, ForwardedAt;
    var key := calls[k].key;
    LastForwardIsLast(perMinute, calls[..k], key);
    PrefixAt(perMinute, calls, k, j);
    assert calls[..k][j] == calls[j];
    LastForwardIsLast(perMinute, calls[..j], key);
    PrefixAt(perMinute, calls, j, i);
    assert calls[..j][i] == calls[i];
    if perMinute {
      MinuteBetween(calls[i].now, calls[j].now, calls[k].now);
    }
    if calls[k].now - calls[i].now < MERGE_TIMESTAMP {
      ForwardInWindow(perMinute, calls, j, k);
      assert !calls[j].bypass by { assert ForwardedAt(perMinute, calls, j); NotBypass(perMinute, calls, j); }
      ForwardInWindow(perMinute, calls, i, j);
    }
  }

  lemma NotBypass(perMinute: bool, calls: seq<Call>, i: nat)
    requires ForwardedAt(perMinute, calls, i)
    ensures i < |calls| && !calls[i].bypass
  {
  }

  /** Three forwards of one key, in one minute for the local cache. */
  predicate Triple(perMinute: bool, calls: seq<Call>, i: nat, j: nat, k: nat) {
    && i < j < k < |calls| && calls[i].key == calls[j].key == calls[k].key
    && ForwardedAt(perMinute, calls, i) && ForwardedAt(perMinute, calls, j) && ForwardedAt(perMinute, calls, k)
    && (perMinute ==> Minute(calls[i].now) == Minute(calls[k].now))
  }

  ghost predicate AllTriplesSpan(perMinute: bool, calls: seq<Call>) {
    forall i: nat, j: nat, k: nat ::
      Triple(perMinute, calls, i, j, k) ==> calls[k].now - calls[i].now >= MERGE_TIMESTAMP
  }

  predicate NoneReopens(perMinute: bool, calls: seq<Call>) {
    forall k :: 0 <= k < |calls| ==> !Reopens(perMinute, calls, k)
  }

  lemma TripleReopens(perMinute: bool, calls: seq<Call>, i: nat, j: nat, k: nat)
    requires AllAccepted(calls) && Nondecreasing(calls) && Triple(perMinute, calls, i, j, k)
    ensures calls[k].now - calls[i].now < MERGE_TIMESTAMP ==> Reopens(perMinute, calls, k)
  {
    hide After, LastForward, Minute, ForwardedAt, Reopens;
    var key := calls[k].key;
    NotBypass(perMinute, calls, k);
    EarlierForward(perMinute, calls, j, k);
    var b := LastForward(perMinute, calls[..k], key).value;
    LastForwardIsLast(perMinute, calls[..k], key);
    assert calls[..k][b] == calls[b];
    EarlierForward(perMinute, calls, i, b);
    var a := LastForward(perMinute, calls[..b], key).value;
    if perMinute {
      MinuteBetween(calls[i].now, calls[a].now, calls[k].now);
    }
    EarlyForwardIff(perMinute, calls, a, b, k);
  }

  lemma ReopensTriple(perMinute: bool, calls: seq<Call>, k: nat)
    requires AllAccepted(calls) && Nondecreasing(calls) && Reopens(perMinute, calls, k)
    ensures !AllTriplesSpan(perMinute, calls)
  {
    hide After, LastForward, Minute, ForwardedAt;
    var j := LastForward(perMinute, calls[..k], calls[k].key).value;
    var i := LastForward(perMinute, calls[..j], calls[k].key).value;
    EarlyForwardIff(perMinute, calls, i, j, k);
    assert Triple(perMinute, calls, i, j, k);
  }

  /** With an accepting service and a clock that does not go back: any three forwards of one key (in one minute, for
      the local cache) span at least one merge window, exactly when no call meets that guard. */
  lemma SpansIffNoneReopens(perMinute: bool, calls: seq<Call>)
    requires AllAccepted(calls) && Nondecreasing(calls)
    ensures AllTriplesSpan(perMinute, calls) <==> NoneReopens(perMinute, calls)
  {
    hide After, LastForward, Minute, ForwardedAt;
    if NoneReopens(perMinute, calls) {
      forall i: nat, j: nat, k: nat | Triple(perMinute, calls, i, j, k)
        ensures calls[k].now - calls[i].now >= MERGE_TIMESTAMP
      {
        TripleReopens(perMinute, calls, i, j, k);
      }
    }
    if !NoneReopens(perMinute, calls) {
      var k :| 0 <= k < |calls| && Reopens(perMinute, calls, k);
      ReopensTriple(perMinute, calls, k);
    }
  }

  /** When no sum wraps around to zero, no call meets the guard. */
  lemma NeverForgetsNoneReopens(perMinute: bool, calls: seq<Call>)
    requires NeverForgets(perMinute, calls)
    ensures NoneReopens(perMinute, calls)
  {
    hide After, LastForward, Minute, NeverForgets;
    forall k | 0 <= k < |calls| ensures !Reopens(perMinute, calls, k) {
      PrefixNeverForgets(perMinute, calls, k);
      CacheMeaning(perMinute, calls[..k], calls[k].key, true);
    }
  }

  /** So then any three forwards span at least one merge window. */
  lemma ThreeForwardsSpan(perMinute: bool, calls: seq<Call>, i: nat, j: nat, k: nat)
    requires AllAccepted(calls) && NeverForgets(perMinute, calls) && Nondecreasing(calls)
    requires Triple(perMinute, calls, i, j, k)
    ensures calls[k].now - calls[i].now >= 200
  {
    hide NeverForgets, Triple, NoneReopens;
    NeverForgetsNoneReopens(perMinute, calls);
    SpansIffNoneReopens(perMinute, calls);
  }

  /** Positions of cache-path forwards of one key, in order. */
  predicate ForwardsOf(perMinute: bool, calls: seq<Call>, key: string, at: seq<nat>) {
    && (forall x :: 0 <= x < |at| ==>
          at[x] < |calls| && calls[at[x]].key == key && ForwardedAt(perMinute, calls, at[x]))
    && (forall x, y :: 0 <= x < y < |at| ==> at[x] < at[y])
  }

  /** Everything the rate bound assumes: the service accepts, the clock does not go back, no call meets the guard. */
  ghost predicate Calm(perMinute: bool, calls: seq<Call>) {
    AllAccepted(calls) && Nondecreasing(calls) && NoneReopens(perMinute, calls)
  }

  lemma {:induction false} Spread(perMinute: bool, calls: seq<Call>, key: string, at: seq<nat>, q: nat)
    requires Calm(perMinute, calls)
    requires ForwardsOf(perMinute, calls, key, at) && 2 * q < |at|
    requires perMinute ==> forall x :: 0 <= x < |at| ==> Minute(calls[at[x]].now) == Minute(calls[at[0]].now)
    ensures calls[at[2 * q]].now >= calls[at[0]].now + q * MERGE_TIMESTAMP
    decreases q
  {
    hide ForwardedAt, NoneReopens, Minute;
    if q > 0 {
      Spread(perMinute, calls, key, at, q - 1);
      var i, j, k := at[2 * (q - 1)], at[2 * q - 1], at[2 * q];
      SpansIffNoneReopens(perMinute, calls);
      assert Triple(perMinute, calls, i, j, k);
    }
  }

  /** At most 600 records of one key are forwarded through the local cache in one wall-clock minute. */
  lemma AtMost600PerMinute(calls: seq<Call>, key: string, at: seq<nat>)
    requires Calm(true, calls) && ForwardsOf(true, calls, key, at)
    requires forall x :: 0 <= x < |at| ==> calls[at[x]].now >= 0 && Minute(calls[at[x]].now) == Minute(calls[at[0]].now)
    ensures |at| <= 600
  {
    hide ForwardedAt, NoneReopens;
    if |at| > 600 {
      Spread(true, calls, key, at, 300);
    }
  }

  // ---------------------------------------------------------------- why no sum may wrap around to zero

  /** A run of successes of one key at one instant. */
  function Burst(successes: seq<nat>): (r: seq<Call>)
    ensures |r| == |successes|
  {
    if successes == [] then []
    else Burst(successes[..|successes| - 1]) + [Call("k", successes[|successes| - 1], 0, false, true)]
  }

  /** One more success while the window is open. */
  lemma {:induction false} BurstStep(ss: seq<nat>, s: nat, count: int)
    requires s > 0 && After(true, Burst(ss)) == map["k" := Entry(count, 0)]
    ensures After(true, Burst(ss + [s])) == map["k" := Entry(if count == 0 then s else Add32(count, s), 0)]
    ensures count == 0 ==> ForwardedAt(true, Burst(ss + [s]), |ss|)
  {
    hide Add32, Minute;
    assert (ss + [s])[..|ss|] == ss;
    assert Burst(ss + [s])[..|ss|] == Burst(ss);
  }

  lemma WrapSums()
    ensures Add32(1, INT_MAX) == -0x8000_0000 && Add32(-0x8000_0000, INT_MAX) == -1 && Add32(-1, 1) == 0
  {
  }

  /** Three more successes bring a sum of one back to zero, so a fourth is forwarded again. */
  lemma {:induction false} BurstWraps(ss: seq<nat>)
    requires After(true, Burst(ss)) == map["k" := Entry(1, 0)]
    ensures var out := ss + [INT_MAX] + [INT_MAX] + [1] + [1];
      After(true, Burst(out)) == map["k" := Entry(1, 0)] && ForwardedAt(true, Burst(out), |ss| + 3)
  {
    hide Burst, After, ForwardedAt, Add32;
    WrapSums();
    BurstStep(ss, INT_MAX, 1);
    BurstStep(ss + [INT_MAX], INT_MAX, -0x8000_0000);
    BurstStep(ss + [INT_MAX] + [INT_MAX], 1, -1);
    BurstStep(ss + [INT_MAX] + [INT_MAX] + [1], 1, 0);
  }

  /** When a sum wraps around to zero the cache forgets that the window has seen a success: three records of
      one key are forwarded at the same instant. */
  lemma WrapBreaksSpan()
    ensures var calls := Burst([1, INT_MAX, INT_MAX, 1, 1, INT_MAX, INT_MAX, 1, 1]);
      && AllAccepted(calls) && Nondecreasing(calls)
      && ForwardedAt(true, calls, 0) && ForwardedAt(true, calls, 4) && ForwardedAt(true, calls, 8)
      && !AllTriplesSpan(true, calls) && !NoneReopens(true, calls)
  {
    hide Burst, After, ForwardedAt, NoneReopens;
    var first: seq<nat> := [1];
    var second := first + [INT_MAX] + [INT_MAX] + [1] + [1];
    var all := second + [INT_MAX] + [INT_MAX] + [1] + [1];
    BurstOne();
    BurstWraps(first);
    BurstWraps(second);
    assert all == [1, INT_MAX, INT_MAX, 1, 1, INT_MAX, INT_MAX, 1, 1];
    BurstCalls(all);
    assert all[..1] == first && all[..5] == second;
    BurstPrefix(all, 1);
    BurstPrefix(all, 5);
    PrefixAt(true, Burst(all), 1, 0);
    PrefixAt(true, Burst(all), 5, 4);
    assert Triple(true, Burst(all), 0, 4, 8);
    SpansIffNoneReopens(true, Burst(all));
  }

  lemma BurstOne()
    ensures After(true, Burst([1])) == map["k" := Entry(1, 0)] && ForwardedAt(true, Burst([1]), 0)
  {
    var one: seq<nat> := [1];
    assert one[..0] == [];
    assert Burst(one)[..0] == [];
  }

  lemma {:induction false} BurstPrefix(successes: seq<nat>, n: nat)
    requires n <= |successes|
    ensures Burst(successes)[..n] == Burst(successes[..n])
    decreases |successes|
  {
    if n < |successes| {
      var pre := successes[..|successes| - 1];
      BurstPrefix(pre, n);
      assert pre[..n] == successes[..n];
    } else {
      assert successes[..n] == successes;
    }
  }

  lemma {:induction false} BurstCalls(successes: seq<nat>)
    ensures forall i :: 0 <= i < |successes| ==> Burst(successes)[i] == Call("k", successes[i], 0, false, true)
    decreases |successes|
  {
    if successes != [] {
      BurstCalls(successes[..|successes| - 1]);
    }
  }

  // ---------------------------------------------------------------- the cache as a program

  class RecordCache {
    var entries: Cache
    const perMinute: bool

    constructor (perMinute: bool)
      ensures entries == map[] && this.perMinute == perMinute
    {
      entries := map[];
      this.perMinute := perMinute;
    }

    /** Looks the key up, starts or extends a window, and says whether the record is dropped. */
    method FindAndInsert(key: string, success: nat, now: int) returns (drop: bool)
      requires success <= INT_MAX
      modifies this
      ensures var c := Call(key, success, now, false, true);
        drop == Suppressed(perMinute, old(entries), c) && entries == Next(perMinute, old(entries), c)
    {
      if key !in entries {
        entries := entries[key := Entry(success, now)];
        return false;
      }
      var e := entries[key];
      if (perMinute && Minute(now) != Minute(e.stamp)) || now - e.stamp >= MERGE_TIMESTAMP {
        entries := entries[key := Entry(success, now)];
        return false;
      }
      if e.count == 0 && success != 0 {
        entries := entries[key := Entry(Add32(e.count, success), now)];
        return false;
      }
      entries := entries[key := Entry(Add32(e.count, success), e.stamp)];
      return true;
    }

    /** Runs one valid record: `service` is the answer the service gives if asked (0 is success). */
    method Add(key: string, success: nat, now: int, hasExtra: bool, service: int) returns (asked: bool, res: int)
      requires success <= INT_MAX
      modifies this
      ensures var c := Call(key, success, now, hasExtra, service == 0);
        && asked == !Suppressed(perMinute, old(entries), c)
        && entries == Next(perMinute, old(entries), c)
        && res == if asked then service else 0
    {
      asked, res := true, 0;
      if !hasExtra {
        var drop := FindAndInsert(key, success, now);
        asked := !drop;
      }
      if asked {
        res := service;
        if res != 0 && !hasExtra {
          entries := entries - {key};
        }
      }
    }
  }
}
