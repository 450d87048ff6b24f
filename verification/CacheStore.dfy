/**
 * The cache store itself: an insertion-ordered map updated in place, with scanning loops
 * for sweeping, listing and eviction. Every method is proved against CacheSpec.
 */
module CacheStore {
  import opened Prelude
  import opened Sequences
  import opened OrderedMap
  import opened CacheSpec
  import Snapshots

  /** Filtering in place, halfway: rows before i are done, the rest untouched. */
  ghost predicate Halfway(entries: seq<Row>, rows: seq<Row>, i: nat, p: Row -> bool)
    requires i <= |rows|
  {
    entries == Filter(rows[..i], p) + rows[i..]
  }

  lemma HalfwayStart(rows: seq<Row>, p: Row -> bool)
    ensures Halfway(rows, rows, 0, p)
  {
  }

  lemma {:induction false} HalfwayEnd(entries: seq<Row>, rows: seq<Row>, p: Row -> bool)
    requires Unique(rows) && Halfway(entries, rows, |rows|, p)
    ensures entries == Filter(rows, p) && Unique(entries)
  {
    assert rows[..|rows|] == rows;
    FilterUnique(rows, p);
  }

  lemma FilterNext(rows: seq<Row>, i: nat, p: Row -> bool)
    requires i < |rows|
    ensures Filter(rows[..i + 1], p) == Filter(rows[..i], p) + if p(rows[i]) then [rows[i]] else []
  {
    assert rows[..i + 1] == rows[..i] + [rows[i]];
    FilterAppend(rows[..i], [rows[i]], p);
  }

  lemma HalfwayUnique(entries: seq<Row>, rows: seq<Row>, i: nat, p: Row -> bool)
    requires Unique(rows) && i <= |rows| && Halfway(entries, rows, i, p)
    ensures Unique(entries)
  {
    var done := Filter(rows[..i], p);
    FilterIn(rows[..i], p);
    FilterUnique(rows[..i], p);
    forall a, b | 0 <= a < |done| && i <= b < |rows| ensures done[a].key != rows[b].key {
      assert done[a] in rows[..i];
    }
  }

  /** The next row stays where it is, or goes by its key. */
  lemma HalfwayStep(entries: seq<Row>, rows: seq<Row>, i: nat, p: Row -> bool)
    requires Unique(rows) && i < |rows| && Halfway(entries, rows, i, p)
    ensures if p(rows[i]) then Halfway(entries, rows, i + 1, p)
            else Halfway(Without(entries, rows[i].key), rows, i + 1, p)
                 && |Without(entries, rows[i].key)| == |entries| - 1
  {
    var done := Filter(rows[..i], p);
    FilterNext(rows, i, p);
    if p(rows[i]) {
      assert done + rows[i..] == (done + [rows[i]]) + rows[i + 1..];
    } else {
      HalfwayUnique(entries, rows, i, p);
      WithoutAt(entries, |done|);
      assert entries[..|done|] == done && entries[|done| + 1..] == rows[i + 1..];
    }
  }

  /** What a listing loop has collected when it stands before row i. */
  ghost predicate Listed<T(!new)>(result: seq<T>, rows: seq<Row>, i: nat, now: real, f: Row -> T)
    requires i <= |rows|
  {
    result == Map(Live(rows[..i], now), f)
  }

  lemma ListedNext<T(!new)>(result: seq<T>, rows: seq<Row>, i: nat, now: real, f: Row -> T, item: T)
    requires i < |rows| && Listed(result, rows, i, now, f) && item == f(rows[i])
    ensures Listed(if Expired(rows[i].val, now) then result else result + [item], rows, i + 1, now, f)
  {
    FilterNext(rows, i, LiveAt(now));
    MapSnoc(Live(rows[..i], now), rows[i], f);
  }

  lemma ListedAll<T(!new)>(result: seq<T>, rows: seq<Row>, now: real, f: Row -> T)
    requires Listed(result, rows, |rows|, now, f)
    ensures result == Map(Live(rows, now), f)
  {
    assert rows[..|rows|] == rows;
  }

  lemma FilterFullOrLess(rows: seq<Row>, now: real)
    ensures |Live(rows, now)| == |rows| ==> Live(rows, now) == rows
  {
    if |Live(rows, now)| == |rows| {
      FilterFull(rows, LiveAt(now));
    }
  }

  class CacheStore {
    var entries: seq<Row>
    var evictionCount: nat
    var onEvictCalls: seq<string>
    const maxEntries: nat
    const policy: Policy
    const evictionSampleSize: nat

    ghost predicate Valid()
      reads this
    {
      Unique(entries) && evictionCount == |onEvictCalls|
    }

    ghost function Conf(): Config
    {
      Config(maxEntries, policy, evictionSampleSize)
    }

    ghost function Contents(): Store
      reads this
    {
      Store(entries, onEvictCalls)
    }

    constructor (maxEntries: nat, policy: Policy, evictionSampleSize: nat)
      ensures Valid() && Contents() == EMPTY
      ensures Conf() == Config(maxEntries, policy, evictionSampleSize)
    {
      this.maxEntries := maxEntries;
      this.policy := policy;
      this.evictionSampleSize := evictionSampleSize;
      entries, evictionCount, onEvictCalls := [], 0, [];
    }

    /** The clock is read at `now` for the deadline and at `later` if room has to be made. */
    method Set(now: real, later: real, key: string, value: string, ttl: Option<real>)
      requires Valid()
      modifies this
      ensures Valid() && Contents() == SetAt(Conf(), old(Contents()), now, later, key, value, ttl)
    {
      var entry := Entry(value, None, 0);
      if ttl.Some? && ttl.value > 0.0 {
        entry := entry.(expiresAt := Some(now + ttl.value * 1000.0));
      }
      Unbind(key);
      Fill(later);
      AppendUnique(entries, key, entry);
      entries := entries + [Pair(key, entry)];
    }

    /** Whatever row the key had goes. */
    method Unbind(key: string)
      requires Valid()
      modifies this`entries
      ensures Valid() && Contents() == Drop(old(Contents()), key)
      ensures forall r :: r in entries ==> r.key != key
    {
      FilterUnique(entries, KeyIsNot(key));
      FilterIn(entries, KeyIsNot(key));
      entries := Without(entries, key);
    }

    /** Room for one more row. */
    method Fill(now: real)
      requires Valid()
      modifies this
      ensures Valid() && Contents() == MakeRoom(Conf(), old(Contents()), now)
      ensures forall r :: r in entries ==> r in old(entries)
    {
      if |entries| >= maxEntries {
        EvictOne(now);
      }
    }

    /** get() and getWithTtl() share this pass. */
    method Read(now: real, key: string) returns (hit: Option<Entry>)
      requires Valid()
      modifies this`entries
      ensures Valid() && Contents() == Touch(old(Contents()), now, key)
      ensures hit == Peek(old(Contents()), now, key)
    {
      var i := Find(entries, key);
      if i == |entries| {
        WithoutAbsent(entries, key);
        return None;
      }
      var entry := entries[i].val;
      FilterUnique(entries, KeyIsNot(key));
      FilterIn(entries, KeyIsNot(key));
      entries := Without(entries, key);
      if Expired(entry, now) {
        return None;
      }
      AppendUnique(entries, key, entry.(hits := entry.hits + 1));
      entries := entries + [Pair(key, entry.(hits := entry.hits + 1))];
      return Some(entry);
    }

    method Get(now: real, key: string) returns (value: Option<string>)
      requires Valid()
      modifies this`entries
      ensures Valid() && Contents() == Apply(Conf(), old(Contents()), now, OpGet(key))
      ensures Hit(value) == Answer(old(Contents()), now, OpGet(key))
    {
      var hit := Read(now, key);
      return if hit.Some? then Some(hit.value.value) else None;
    }

    /** The clock is read at `now` for the expiry and at `later` for the time left. */
    method GetWithTtl(now: real, later: real, key: string) returns (result: Option<(string, Option<real>)>)
      requires Valid()
      modifies this`entries
      ensures Valid() && Contents() == Apply(Conf(), old(Contents()), now, OpGetWithTtl(key))
      ensures var hit := Peek(old(Contents()), now, key);
              result == if hit.Some? then Some((hit.value.value, Remaining(hit.value, later))) else None
      ensures later == now ==> HitWithTtl(result) == Answer(old(Contents()), now, OpGetWithTtl(key))
    {
      var hit := Read(now, key);
      return if hit.Some? then Some((hit.value.value, Remaining(hit.value, later))) else None;
    }

    method Delete(key: string) returns (deleted: bool)
      requires Valid()
      modifies this`entries
      ensures Valid() && Contents() == Drop(old(Contents()), key)
      ensures deleted == Has(old(entries), key)
    {
      deleted := Has(entries, key);
      FilterUnique(entries, KeyIsNot(key));
      entries := Without(entries, key);
    }

    method DeleteByPrefix(prefix: string) returns (dropped: nat)
      requires Valid()
      modifies this`entries
      ensures Valid() && Contents() == DropPrefix(old(Contents()), prefix)
      ensures dropped == |old(entries)| - |entries|
    {
      var rows := entries;
      HalfwayStart(rows, NotUnder(prefix));
      dropped := 0;
      for i := 0 to |rows|
        invariant Halfway(entries, rows, i, NotUnder(prefix))
        invariant dropped == |rows| - |entries|
      {
        HalfwayStep(entries, rows, i, NotUnder(prefix));
        if StartsWith(rows[i].key, prefix) {
          entries := Without(entries, rows[i].key);
          dropped := dropped + 1;
        }
      }
      HalfwayEnd(entries, rows, NotUnder(prefix));
    }

    method Contains(now: real, key: string) returns (present: bool)
      requires Valid()
      modifies this`entries
      ensures Valid() && Contents() == Probe(old(Contents()), now, key)
      ensures present == Peek(old(Contents()), now, key).Some?
    {
      var i := Find(entries, key);
      if i == |entries| {
        WithoutAbsent(entries, key);
        return false;
      }
      if Expired(entries[i].val, now) {
        FilterUnique(entries, KeyIsNot(key));
        entries := Without(entries, key);
        return false;
      }
      return true;
    }

    method Ttl(now: real, key: string) returns (ttl: Option<real>)
      requires Valid()
      modifies this`entries
      ensures Valid() && Contents() == Probe(old(Contents()), now, key)
      ensures MaybeTtl(ttl) == Answer(old(Contents()), now, OpTtl(key))
    {
      var i := Find(entries, key);
      if i == |entries| {
        WithoutAbsent(entries, key);
        return None;
      }
      var entry := entries[i].val;
      if Expired(entry, now) {
        FilterUnique(entries, KeyIsNot(key));
        entries := Without(entries, key);
        return None;
      }
      return Remaining(entry, now);
    }

    method AccessCount(now: real, key: string) returns (hits: Option<nat>)
      requires Valid()
      ensures MaybeHits(hits) == Answer(Contents(), now, OpAccessCount(key))
    {
      var i := Find(entries, key);
      if i == |entries| || Expired(entries[i].val, now) {
        return None;
      }
      return Some(entries[i].val.hits);
    }

    method ListKeys(now: real) returns (result: seq<string>)
      requires Valid()
      modifies this`entries
      ensures Valid() && Contents() == Purge(old(Contents()), now)
      ensures KeyList(result) == Answer(old(Contents()), now, OpKeys)
    {
      var rows := entries;
      HalfwayStart(rows, LiveAt(now));
      result := [];
      for i := 0 to |rows|
        invariant Halfway(entries, rows, i, LiveAt(now))
        invariant Listed(result, rows, i, now, KeyOf())
      {
        HalfwayStep(entries, rows, i, LiveAt(now));
        var item := rows[i].key;
        ListedNext(result, rows, i, now, KeyOf(), item);
        if Expired(rows[i].val, now) {
          entries := Without(entries, rows[i].key);
        } else {
          result := result + [item];
        }
      }
      ListedAll(result, rows, now, KeyOf());
      HalfwayEnd(entries, rows, LiveAt(now));
    }

    method DetailedKeys(now: real) returns (result: seq<Detail>)
      requires Valid()
      modifies this`entries
      ensures Valid() && Contents() == Purge(old(Contents()), now)
      ensures Details(result) == Answer(old(Contents()), now, OpDetailedKeys)
    {
      var rows := entries;
      HalfwayStart(rows, LiveAt(now));
      result := [];
      for i := 0 to |rows|
        invariant Halfway(entries, rows, i, LiveAt(now))
        invariant Listed(result, rows, i, now, ToDetail(now))
      {
        HalfwayStep(entries, rows, i, LiveAt(now));
        var item := ToDetail(now)(rows[i]);
        ListedNext(result, rows, i, now, ToDetail(now), item);
        if Expired(rows[i].val, now) {
          entries := Without(entries, rows[i].key);
        } else {
          result := result + [item];
        }
      }
      ListedAll(result, rows, now, ToDetail(now));
      HalfwayEnd(entries, rows, LiveAt(now));
    }

    method ExportEntries(now: real) returns (result: seq<Export>)
      requires Valid()
      modifies this`entries
      ensures Valid() && Contents() == Purge(old(Contents()), now)
      ensures result == Exports(old(Contents()), now)
    {
      var rows := entries;
      HalfwayStart(rows, LiveAt(now));
      result := [];
      for i := 0 to |rows|
        invariant Halfway(entries, rows, i, LiveAt(now))
        invariant Listed(result, rows, i, now, ToExport(now))
      {
        HalfwayStep(entries, rows, i, LiveAt(now));
        var item := ToExport(now)(rows[i]);
        ListedNext(result, rows, i, now, ToExport(now), item);
        if Expired(rows[i].val, now) {
          entries := Without(entries, rows[i].key);
        } else {
          result := result + [item];
        }
      }
      ListedAll(result, rows, now, ToExport(now));
      HalfwayEnd(entries, rows, LiveAt(now));
    }

    method Clear()
      requires Valid()
      modifies this`entries
      ensures Valid() && Contents() == old(Contents()).(rows := [])
    {
      entries := [];
    }

    method Sweep(now: real) returns (removed: nat)
      requires Valid()
      modifies this`entries
      ensures Valid() && Contents() == Purge(old(Contents()), now)
      ensures removed == |old(entries)| - |entries|
    {
      var rows := entries;
      HalfwayStart(rows, LiveAt(now));
      removed := 0;
      for i := 0 to |rows|
        invariant Halfway(entries, rows, i, LiveAt(now))
        invariant removed == |rows| - |entries|
      {
        ghost var before := entries;
        if Expired(rows[i].val, now) {
          entries := Without(entries, rows[i].key);
          removed := removed + 1;
        }
        assert Halfway(entries, rows, i + 1, LiveAt(now)) && removed == |rows| - |entries| by {
          HalfwayStep(before, rows, i, LiveAt(now));
        }
      }
      HalfwayEnd(entries, rows, LiveAt(now));
    }

    /** evict(): an expired row first, then whatever the policy gives up. */
    method EvictOne(now: real)
      requires Valid()
      modifies this
      ensures Valid() && Contents() == CacheSpec.Evict(Conf(), old(Contents()), now)
      ensures forall r :: r in entries ==> r in old(entries)
    {
      FilterFullOrLess(entries, now);
      FilterIn(entries, LiveAt(now));
      var removed := Sweep(now);
      if removed > 0 {
        return;
      }
      match policy
      case Lru => EvictOldest();
      case Lfu => EvictLFU();
      case AccessAware => EvictLeastAccessed();
    }

    method EvictOldest()
      requires Valid()
      modifies this
      ensures Valid()
      ensures Contents() == if old(entries) == [] then old(Contents()) else EvictAt(old(Contents()), 0)
      ensures forall r :: r in entries ==> r in old(entries)
    {
      if entries != [] {
        DoEvict(0);
      }
    }

    method EvictLeastAccessed()
      requires Valid()
      modifies this
      ensures Valid()
      ensures var w := Sampled(Conf(), |old(entries)|);
              Contents() == if w == 0 then old(Contents()) else EvictAt(old(Contents()), Coldest(old(entries), w))
      ensures forall r :: r in entries ==> r in old(entries)
    {
      var worst: Option<nat> := None;
      var seen := 0;
      while seen < |entries| && seen < evictionSampleSize
        invariant seen <= |entries| && seen <= evictionSampleSize && entries == old(entries)
        invariant worst == if seen == 0 then None else Some(Coldest(entries, seen))
      {
        if worst.None? || entries[seen].val.hits < entries[worst.value].val.hits {
          worst := Some(seen);
        }
        seen := seen + 1;
      }
      if worst.Some? {
        DoEvict(worst.value);
      }
    }

    method EvictLFU()
      requires Valid()
      modifies this
      ensures Valid()
      ensures Contents() == if old(entries) == [] then old(Contents())
                            else EvictAt(old(Contents()), Coldest(old(entries), |old(entries)|))
      ensures forall r :: r in entries ==> r in old(entries)
    {
      var worst: Option<nat> := None;
      for i := 0 to |entries|
        invariant entries == old(entries)
        invariant worst == if i == 0 then None else Some(Coldest(entries, i))
      {
        if worst.None? || entries[i].val.hits < entries[worst.value].val.hits {
          worst := Some(i);
        }
      }
      if worst.Some? {
        DoEvict(worst.value);
      }
    }

    method DoEvict(i: nat)
      requires Valid() && i < |entries|
      modifies this
      ensures Valid() && Contents() == EvictAt(old(Contents()), i)
      ensures forall r :: r in entries ==> r in old(entries)
    {
      var key := entries[i].key;
      FirstsUnique(entries, i);
      FilterIn(entries, KeyIsNot(key));
      entries := Without(entries, key);
      evictionCount := evictionCount + 1;
      onEvictCalls := onEvictCalls + [key];
    }
  }

  // ---- filling a store ----

  /** A row read back from disk or from the primary; anything not shaped like one is skipped. */
  datatype Parsed = Malformed | WellFormed(row: Export)

  function WellFormedRows(parsed: seq<Parsed>): seq<Export> {
    if parsed == [] then []
    else
      var n := |parsed| - 1;
      WellFormedRows(parsed[..n]) + match parsed[n] case Malformed => [] case WellFormed(row) => [row]
  }

  lemma ParsedNext(parsed: seq<Parsed>, i: nat)
    requires i < |parsed|
    ensures WellFormedRows(parsed[..i + 1]) ==
            if parsed[i].Malformed? then WellFormedRows(parsed[..i])
            else WellFormedRows(parsed[..i]) + [parsed[i].row]
  {
    assert parsed[..i + 1][..i] == parsed[..i];
  }

  /** Setting the well-formed rows in order, row i at clock[i]. */
  function LoadAt(c: Config, s: Store, clock: seq<real>, parsed: seq<Parsed>): Store
    requires |clock| == |parsed|
    decreases |parsed|
  {
    if parsed == [] then s
    else
      var n := |parsed| - 1;
      var s' := LoadAt(c, s, clock[..n], parsed[..n]);
      match parsed[n]
      case Malformed => s'
      case WellFormed(row) => CacheSpec.Set(c, s', clock[n], row.key, row.value, row.ttl)
  }

  /** At one instant that is loading just the well-formed rows. */
  lemma {:induction false} LoadAtOnce(c: Config, s: Store, now: real, clock: seq<real>, parsed: seq<Parsed>)
    requires |clock| == |parsed| && forall i :: 0 <= i < |clock| ==> clock[i] == now
    ensures LoadAt(c, s, clock, parsed) == Snapshots.Load(c, s, now, WellFormedRows(parsed))
    decreases |parsed|
  {
    if parsed != [] {
      var n := |parsed| - 1;
      LoadAtOnce(c, s, now, clock[..n], parsed[..n]);
      var rows := WellFormedRows(parsed[..n]);
      if parsed[n].WellFormed? {
        assert (rows + [parsed[n].row])[..|rows|] == rows;
      } else {
        assert rows + [] == rows;
      }
    }
  }

  lemma LoadAtNext(c: Config, s: Store, clock: seq<real>, parsed: seq<Parsed>, i: nat)
    requires |clock| == |parsed| && i < |parsed|
    ensures LoadAt(c, s, clock[..i + 1], parsed[..i + 1]) ==
            match parsed[i]
            case Malformed => LoadAt(c, s, clock[..i], parsed[..i])
            case WellFormed(row) =>
              CacheSpec.Set(c, LoadAt(c, s, clock[..i], parsed[..i]), clock[i], row.key, row.value, row.ttl)
  {
    TakeTake(clock, i + 1, i);
    TakeTake(parsed, i + 1, i);
  }

  /** The entry loops of loadSnapshot and syncFromPrimary. */
  method LoadSnapshot(store: CacheStore, clock: seq<real>, parsed: seq<Parsed>) returns (loaded: nat)
    requires store.Valid() && |clock| == |parsed|
    modifies store
    ensures store.Valid() && loaded == |WellFormedRows(parsed)|
    ensures store.Contents() == LoadAt(store.Conf(), old(store.Contents()), clock, parsed)
  {
    loaded := 0;
    for i := 0 to |parsed|
      invariant store.Valid() && loaded == |WellFormedRows(parsed[..i])|
      invariant store.Contents() == LoadAt(store.Conf(), old(store.Contents()), clock[..i], parsed[..i])
    {
      ParsedNext(parsed, i);
      LoadAtNext(store.Conf(), old(store.Contents()), clock, parsed, i);
      match parsed[i] {
        case Malformed =>
        case WellFormed(row) =>
          store.Set(clock[i], clock[i], row.key, row.value, row.ttl);
          loaded := loaded + 1;
      }
    }
    TakeAll(parsed);
    TakeAll(clock);
  }

  /** applyReplicationOp: a replicated write goes straight to the store; any other op is
      ignored. */
  method ApplyReplicationOp(store: CacheStore, now: real, op: Op)
    requires store.Valid()
    modifies store
    ensures store.Valid()
    ensures store.Contents() ==
            if IsWrite(op) then Apply(store.Conf(), old(store.Contents()), now, op) else old(store.Contents())
  {
    match op {
      case OpSet(key, value, ttl) => store.Set(now, now, key, value, ttl);
      case OpDelete(key) => var _ := store.Delete(key);
      case OpDeleteByPrefix(prefix) => var _ := store.DeleteByPrefix(prefix);
      case OpClear => store.Clear();
      case _ =>
    }
  }
}
