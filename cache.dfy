/** The event-driven cache of cache.go: a map from key to entry with an expiry time,
    kept current by change events that arrive as notifications, and read through `Get`,
    which falls back to a loader on a miss or an expired entry. Time is an integer clock
    supplied by the caller. */
module Cache {
  import opened Wrappers

  /** A cached value and the instant from which it no longer counts (`Entry`). */
  datatype Entry<V> = Entry(data: V, expiration: int)

  /** A change event as decoded from a notification's JSON text
      (`ChangeDataCaptureEvent`): the table, the action string and the changed row. */
  datatype ChangeEvent<V> = ChangeEvent(table: string, action: string, data: V)

  /** What decoding a notification's text gave: an event, or an error. */
  datatype Delivery<V> = Decoded(event: ChangeEvent<V>) | Undecodable

  /** A notification as the listening loop handles it, with the clock reading at that
      moment. */
  datatype Arrival<V> = Arrival(delivery: Delivery<V>, now: int)

  /** The error `Get` returns when the loader fails for `key`. */
  datatype GetError<K, E> = LoadFailed(key: K, cause: E)

  /** The arrival is a decoded event whose action is exactly "INSERT" or "UPDATE". */
  predicate IsUpsert<V>(a: Arrival<V>)
  {
    a.delivery.Decoded? && (a.delivery.event.action == "INSERT" || a.delivery.event.action == "UPDATE")
  }

  /** The arrival is a decoded event whose action is exactly "DELETE". */
  predicate IsDelete<V>(a: Arrival<V>)
  {
    a.delivery.Decoded? && a.delivery.event.action == "DELETE"
  }

  /** The arrival changes the entry of key `k`: an upsert or a delete of a row with that
      key. */
  predicate Touches<K(==), V>(a: Arrival<V>, keyOf: V -> K, k: K)
  {
    (IsUpsert(a) || IsDelete(a)) && keyOf(a.delivery.event.data) == k
  }

  /** What a lookup at `now` finds without loading: the stored value when the key has an
      entry whose expiration is strictly after `now` (`Expiration.After(now)`). */
  function Lookup<K(==), V>(entries: map<K, Entry<V>>, key: K, now: int): (r: Option<V>)
    ensures r.Some? <==> key in entries && now < entries[key].expiration
    ensures r.Some? ==> entries[key] == Entry(r.value, entries[key].expiration)
  {
    if key in entries && entries[key].expiration > now then Some(entries[key].data) else None
  }

  /** The entries after the listening loop handles one arrival: an upsert stores the row
      under its key, to expire `ttl` after the arrival; a delete removes the row's key;
      any other action, and text that does not decode, change nothing. */
  function Applied<K(==, !new), V>(entries: map<K, Entry<V>>, keyOf: V -> K, ttl: int, a: Arrival<V>): (r: map<K, Entry<V>>)
    ensures forall k :: !Touches(a, keyOf, k) ==> (k in r <==> k in entries) && (k in r ==> r[k] == entries[k])
    ensures IsUpsert(a) ==>
      keyOf(a.delivery.event.data) in r && r[keyOf(a.delivery.event.data)] == Entry(a.delivery.event.data, a.now + ttl)
    ensures IsDelete(a) ==> keyOf(a.delivery.event.data) !in r
    ensures !IsUpsert(a) && !IsDelete(a) ==> r == entries
  {
    match a.delivery
    case Undecodable => entries
    case Decoded(event) =>
      var key := keyOf(event.data);
      if event.action == "INSERT" || event.action == "UPDATE" then entries[key := Entry(event.data, a.now + ttl)]
      else if event.action == "DELETE" then (if key in entries then entries - {key} else entries)
      else entries
  }

  /** The entries after the listening loop handles a sequence of arrivals, in order. */
  function ApplyAll<K(==, !new), V>(entries: map<K, Entry<V>>, keyOf: V -> K, ttl: int, feed: seq<Arrival<V>>): map<K, Entry<V>>
    decreases |feed|
  {
    if feed == [] then entries else ApplyAll(Applied(entries, keyOf, ttl, feed[0]), keyOf, ttl, feed[1..])
  }

  /** Some upsert of the feed wrote entry `e` for key `k`: the row it carried, expiring
      `ttl` after it arrived. */
  ghost predicate WrittenBy<K, V>(feed: seq<Arrival<V>>, keyOf: V -> K, ttl: int, k: K, e: Entry<V>)
  {
    exists j :: 0 <= j < |feed| && IsUpsert(feed[j]) && keyOf(feed[j].delivery.event.data) == k &&
      e == Entry(feed[j].delivery.event.data, feed[j].now + ttl)
  }

  /** Handling a feed invents no entry: every entry afterwards is either the one its key
      held before or one that an upsert of the feed wrote. */
  lemma {:induction false} ApplyAllOrigin<K(!new), V>(entries: map<K, Entry<V>>, keyOf: V -> K, ttl: int,
                                                 feed: seq<Arrival<V>>, k: K)
    requires k in ApplyAll(entries, keyOf, ttl, feed)
    ensures var r := ApplyAll(entries, keyOf, ttl, feed);
      (k in entries && r[k] == entries[k]) || WrittenBy(feed, keyOf, ttl, k, r[k])
    decreases |feed|
  {
    if feed != [] {
      var a := Applied(entries, keyOf, ttl, feed[0]);
      var rest := feed[1..];
      var r := ApplyAll(a, keyOf, ttl, rest);
      ApplyAllOrigin(a, keyOf, ttl, rest, k);
      if WrittenBy(rest, keyOf, ttl, k, r[k]) {
        var j :| 0 <= j < |rest| && IsUpsert(rest[j]) && keyOf(rest[j].delivery.event.data) == k &&
          r[k] == Entry(rest[j].delivery.event.data, rest[j].now + ttl);
        assert rest[j] == feed[j + 1];
      } else if Touches(feed[0], keyOf, k) {
        assert IsUpsert(feed[0]);
        assert r[k] == Entry(feed[0].delivery.event.data, feed[0].now + ttl);
      }
    }
  }

  /** Handling two feeds one after the other is handling the second from where the first
      left the entries. */
  lemma {:induction false} ApplyAllConcat<K(!new), V>(entries: map<K, Entry<V>>, keyOf: V -> K, ttl: int,
                                                f: seq<Arrival<V>>, g: seq<Arrival<V>>)
    ensures ApplyAll(entries, keyOf, ttl, f + g) == ApplyAll(ApplyAll(entries, keyOf, ttl, f), keyOf, ttl, g)
    decreases |f|
  {
    if f == [] {
      assert f + g == g;
    } else {
      assert (f + g)[0] == f[0] && (f + g)[1..] == f[1..] + g;
      ApplyAllConcat(Applied(entries, keyOf, ttl, f[0]), keyOf, ttl, f[1..], g);
    }
  }

  /** A key that no arrival of the feed touches keeps its entry, or its absence. */
  lemma {:induction false} ApplyAllUntouched<K(!new), V>(entries: map<K, Entry<V>>, keyOf: V -> K, ttl: int,
                                                   feed: seq<Arrival<V>>, k: K)
    requires forall j :: 0 <= j < |feed| ==> !Touches(feed[j], keyOf, k)
    ensures var r := ApplyAll(entries, keyOf, ttl, feed);
      (k in r <==> k in entries) && (k in r ==> r[k] == entries[k])
    decreases |feed|
  {
    if feed != [] {
      assert !Touches(feed[0], keyOf, k);
      forall j | 0 <= j < |feed[1..]| ensures !Touches(feed[1..][j], keyOf, k) {
        assert feed[1..][j] == feed[j + 1];
      }
      ApplyAllUntouched(Applied(entries, keyOf, ttl, feed[0]), keyOf, ttl, feed[1..], k);
    }
  }

  /** The last arrival that touches a key decides its entry: after an upsert the key holds
      that row, expiring `ttl` after the upsert arrived; after a delete it has no entry. */
  lemma LastTouchDecides<K(!new), V>(entries: map<K, Entry<V>>, keyOf: V -> K, ttl: int,
                               feed: seq<Arrival<V>>, j: nat, k: K)
    requires j < |feed| && Touches(feed[j], keyOf, k)
    requires forall i :: j < i < |feed| ==> !Touches(feed[i], keyOf, k)
    ensures var r := ApplyAll(entries, keyOf, ttl, feed);
      && (IsUpsert(feed[j]) ==> k in r && r[k] == Entry(feed[j].delivery.event.data, feed[j].now + ttl))
      && (IsDelete(feed[j]) ==> k !in r)
  {
    var before := ApplyAll(entries, keyOf, ttl, feed[..j]);
    var after := ApplyAll(before, keyOf, ttl, [feed[j]]);
    ApplyAllConcat(entries, keyOf, ttl, feed[..j], [feed[j]]);
    assert feed[..j] + [feed[j]] == feed[..j + 1];
    assert after == Applied(before, keyOf, ttl, feed[j]);
    ApplyAllConcat(entries, keyOf, ttl, feed[..j + 1], feed[j + 1..]);
    assert feed[..j + 1] + feed[j + 1..] == feed;
    var rest := feed[j + 1..];
    forall i | 0 <= i < |rest| ensures !Touches(rest[i], keyOf, k) {
      assert rest[i] == feed[j + 1 + i];
    }
    ApplyAllUntouched(after, keyOf, ttl, rest, k);
  }

  /** What `Get` stores after a load is found by every later lookup strictly before its
      expiration, and by none from then on. */
  lemma StoredIsHit<K, V>(entries: map<K, Entry<V>>, key: K, v: V, expiration: int, now: int)
    ensures Lookup(entries[key := Entry(v, expiration)], key, now) == if now < expiration then Some(v) else None
  {
  }

  /** The cache. `loads` records, in order, the keys the loader was called for. */
  class Cache<K(==, !new), V> {
    /** The key accessor of the row type (`Keyer.Key`). */
    const keyOf: V -> K
    const ttl: int
    var entries: map<K, Entry<V>>
    var loads: seq<K>

    /** `NewInMemoryCache`: no entries, nothing loaded. */
    constructor (keyOf: V -> K, ttl: int)
      ensures this.keyOf == keyOf && this.ttl == ttl
      ensures entries == map[] && loads == []
    {
      this.keyOf := keyOf;
      this.ttl := ttl;
      entries := map[];
      loads := [];
    }

    /** `listen`: handles the notifications in arrival order until the context ends (the
        end of `feed`); text that does not decode is skipped and the loop goes on. */
    method Listen(feed: seq<Arrival<V>>)
      modifies this`entries
      ensures entries == ApplyAll(old(entries), keyOf, ttl, feed)
    {
      var i := 0;
      while i < |feed|
        invariant 0 <= i <= |feed|
        invariant entries == ApplyAll(old(entries), keyOf, ttl, feed[..i])
      {
        var arrival := feed[i];
        ghost var before := entries;
        match arrival.delivery {
          case Undecodable =>
          case Decoded(event) =>
            var key := keyOf(event.data);
            if event.action == "INSERT" || event.action == "UPDATE" {
              entries := entries[key := Entry(event.data, arrival.now + ttl)];
            } else if event.action == "DELETE" {
              if key in entries {
                entries := entries - {key};
              }
            }
        }
        assert entries == Applied(before, keyOf, ttl, arrival);
        ApplyAllConcat(old(entries), keyOf, ttl, feed[..i], [arrival]);
        assert feed[..i] + [arrival] == feed[..i + 1];
        i := i + 1;
      }
      assert feed[..i] == feed;
    }

    /** `Get` at clock `now`: an entry expiring strictly after `now` is returned without
        loading. Otherwise the loader is called for the key and gives `answer`; its
        error is returned with the entries unchanged, and its value is stored, to expire
        `ttl` after `later` (the clock once the loader has returned), and returned. */
    method Get<E>(key: K, now: int, answer: Result<V, E>, later: int) returns (r: Result<V, GetError<K, E>>)
      modifies this`entries, this`loads
      ensures Lookup(old(entries), key, now).Some? ==>
        r == Ok(Lookup(old(entries), key, now).value) && entries == old(entries) && loads == old(loads)
      ensures Lookup(old(entries), key, now).None? ==> loads == old(loads) + [key]
      ensures Lookup(old(entries), key, now).None? && answer.Err? ==>
        r == Err(LoadFailed(key, answer.error)) && entries == old(entries)
      ensures Lookup(old(entries), key, now).None? && answer.Ok? ==>
        r == Ok(answer.value) && entries == old(entries)[key := Entry(answer.value, later + ttl)]
    {
      if key in entries && entries[key].expiration > now {
        return Ok(entries[key].data);
      }
      loads := loads + [key];
      match answer {
        case Err(e) =>
          return Err(LoadFailed(key, e));
        case Ok(v) =>
          entries := entries[key := Entry(v, later + ttl)];
          return Ok(v);
      }
    }
  }
}
