/**
 * What the operations answer, told by each other: listings against single reads, counts
 * against sizes, and TTLs against the clock.
 */
module CacheAnswers {
  import opened Prelude
  import opened Sequences
  import opened OrderedMap
  import opened CacheSpec
  import opened CacheRefinement

  // ---- listings ----

  lemma LiveRow(s: Store, now: real, i: nat)
    requires Unique(s.rows) && i < |Live(s.rows, now)|
    ensures var r := Live(s.rows, now)[i]; Peek(s, now, r.key) == Some(r.val)
  {
    var live := Live(s.rows, now);
    FilterUnique(s.rows, LiveAt(now));
    FindUnique(live, i);
    LookupLive(s, now, live[i].key);
  }

  /** keys() lists exactly the keys that has() finds live, each once. */
  lemma {:induction false} KeysAreLiveKeys(s: Store, now: real)
    requires Unique(s.rows)
    ensures var keys := Answer(s, now, OpKeys).keys;
            && Distinct(keys)
            && forall k :: k in keys <==> Answer(s, now, OpHas(k)).flag
  {
    var keys, live := Answer(s, now, OpKeys).keys, Live(s.rows, now);
    FilterUnique(s.rows, LiveAt(now));
    forall k ensures k in keys <==> Answer(s, now, OpHas(k)).flag {
      LookupLive(s, now, k);
      if k in keys {
        var i :| 0 <= i < |keys| && keys[i] == k;
        LiveRow(s, now, i);
      }
      if Answer(s, now, OpHas(k)).flag {
        assert keys[Find(live, k)] == k;
      }
    }
  }

  /** detailedKeys() and exportEntries() list the same keys in the same order, with the hits
      that accessCount(), the TTL that ttl() and the value that get() answer for each. */
  lemma {:induction false} DetailsAgree(s: Store, now: real, i: nat)
    requires Unique(s.rows) && i < |Answer(s, now, OpKeys).keys|
    ensures var key := Answer(s, now, OpKeys).keys[i];
            var details, exports := Answer(s, now, OpDetailedKeys).details, Answer(s, now, OpExportEntries).exports;
            && |details| == |exports| == |Answer(s, now, OpKeys).keys|
            && details[i].key == exports[i].key == key
            && Answer(s, now, OpAccessCount(key)) == MaybeHits(Some(details[i].hits))
            && Answer(s, now, OpTtl(key)) == MaybeTtl(details[i].ttl)
            && Answer(s, now, OpGetWithTtl(key)) == HitWithTtl(Some((exports[i].value, exports[i].ttl)))
            && Answer(s, now, OpGet(key)) == Hit(Some(exports[i].value))
  {
    LiveRow(s, now, i);
  }

  // ---- counts ----

  lemma WithoutSize(s: Store, key: string)
    requires Unique(s.rows)
    ensures |Drop(s, key).rows| == if Has(s.rows, key) then |s.rows| - 1 else |s.rows|
  {
    if Has(s.rows, key) {
      WithoutAt(s.rows, Find(s.rows, key));
    } else {
      WithoutAbsent(s.rows, key);
    }
  }

  /** How many rows an operation said it removed is how much smaller the store is. */
  lemma {:induction false} RemovalsCounted(c: Config, s: Store, now: real, key: string)
    requires Unique(s.rows)
    ensures var before := Answer(s, now, OpSize).count;
            && before == Answer(Apply(c, s, now, OpDelete(key)), now, OpSize).count +
                         (if Answer(s, now, OpDelete(key)).flag then 1 else 0)
            && before == Answer(Apply(c, s, now, OpDeleteByPrefix(key)), now, OpSize).count +
                         Answer(s, now, OpDeleteByPrefix(key)).count
            && before == Answer(Apply(c, s, now, OpSweep), now, OpSize).count + Answer(s, now, OpSweep).count
            && Answer(Apply(c, s, now, OpClear), now, OpSize).count == 0
  {
    WithoutSize(s, key);
  }

  /** After a delete, has() is false; after deleteByPrefix, exactly for the keys that continue
      the prefix; no other key is affected. */
  lemma {:induction false} DeletedKeysAreGone(c: Config, s: Store, now: real, key: string, prefix: string, k: string)
    requires Unique(s.rows)
    ensures Answer(Apply(c, s, now, OpDelete(key)), now, OpGetWithTtl(k)) ==
            if k == key then HitWithTtl(None) else Answer(s, now, OpGetWithTtl(k))
    ensures Answer(Apply(c, s, now, OpDeleteByPrefix(prefix)), now, OpGetWithTtl(k)) ==
            if |prefix| <= |k| && k[..|prefix|] == prefix then HitWithTtl(None) else Answer(s, now, OpGetWithTtl(k))
  {
    PeekFilter(s, now, k, KeyIsNot(key));
    PeekFilter(s, now, k, NotUnder(prefix));
  }

  // ---- TTLs ----

  /** A key set with a positive TTL is live for exactly that many seconds and counts down; one
      set without stays. */
  lemma {:induction false} TtlCountsDown(
    c: Config, s: Store, now: real, later: real, key: string, value: string, ttl: Option<real>)
    requires c.Ok() && Fits(c, s) && now <= later
    ensures var s' := Apply(c, s, now, OpSet(key, value, ttl));
            Answer(s', later, OpGetWithTtl(key)) ==
            if ttl == None || ttl.value <= 0.0 then HitWithTtl(Some((value, None)))
            else if later - now < 1000.0 * ttl.value
            then HitWithTtl(Some((value, Some(ttl.value - (later - now) / 1000.0))))
            else HitWithTtl(None)
  {
    var d := Drop(s, key);
    FilterUnique(s.rows, KeyIsNot(key));
    LookupFilter(s.rows, KeyIsNot(key), key);
    RoomAbsent(c, d, now, key);
    LookupAppend(MakeRoom(c, d, now).rows, Pair(key, Entry(value, Deadline(now, ttl), 0)), key);
  }

  // ---- when expired rows go ----

  ghost predicate NothingExpired(s: Store, now: real) {
    forall r :: r in s.rows ==> !Expired(r.val, now)
  }

  /** Lazily: a read of a key that is not live leaves no row of it. Eagerly: a sweep and every
      listing leave nothing expired. */
  lemma {:induction false} ExpiredRowsGo(c: Config, s: Store, now: real, op: Op, key: string)
    requires Unique(s.rows)
    ensures op in {OpGet(key), OpGetWithTtl(key), OpHas(key), OpTtl(key)} && !Answer(s, now, OpHas(key)).flag ==>
              !Has(Apply(c, s, now, op).rows, key)
    ensures op in {OpKeys, OpDetailedKeys, OpExportEntries, OpSweep} ==> NothingExpired(Apply(c, s, now, op), now)
  {
    LookupFilter(s.rows, KeyIsNot(key), key);
    FilterIn(s.rows, LiveAt(now));
  }

  /** A set that finds the store full leaves nothing expired either. */
  lemma {:induction false} FullSetSweeps(c: Config, s: Store, now: real, key: string, value: string, ttl: Option<real>)
    requires c.Ok() && Fits(c, s) && !Has(s.rows, key) && |s.rows| == c.maxEntries
    ensures NothingExpired(Apply(c, s, now, OpSet(key, value, ttl)), now)
  {
    WithoutAbsent(s.rows, key);
    FilterIn(s.rows, LiveAt(now));
    AllLiveWhenFull(s.rows, now);
  }

  lemma AllLiveWhenFull(rows: seq<Row>, now: real)
    ensures |Live(rows, now)| == |rows| ==> forall r :: r in rows ==> !Expired(r.val, now)
  {
    if |Live(rows, now)| == |rows| {
      FilterFull(rows, LiveAt(now));
    }
  }
}
