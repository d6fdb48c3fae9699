/**
 * The durable key-value cache the log sync keeps its cursor in: one bucket
 * of a local database file, mapping a key to a typed value and an
 * expiration time. The clock (`time.Now().Unix()`) is a parameter `now`.
 * Entries written by `Set` are decodable; an entry the file holds that does
 * not decode is `Undecodable`.
 */
module Store {

  /** A value as stored: the cache's callers store integers and strings; `NilPointer` is a nil pointer handed to `Set`. */
  datatype Value = IntValue(n: int) | TextValue(s: string) | NilPointer

  /** What `Set` stores under a key: the value and the absolute expiration time, 0 for "never". */
  datatype Item = Item(data: Value, expiration: int)

  /** The bytes held under a key: a decodable item or bytes that do not decode. */
  datatype Slot = Stored(item: Item) | Undecodable

  type Bucket = map<string, Slot>

  /** No stored item holds a nil pointer. */
  ghost predicate NoNilStored(b: Bucket) {
    forall k | k in b :: b[k].Stored? ==> !b[k].item.data.NilPointer?
  }

  /** The absolute expiration `Set` records for a relative `expiration` given at time `now`. */
  function ExpirationAt(expiration: int, now: int): (e: int)
    ensures expiration == 0 ==> e == 0
    ensures expiration != 0 ==> e == now + expiration
  {
    if expiration != 0 then now + expiration else 0
  }

  /** An item is expired at `now` when it has an expiration and `now` is strictly past it. */
  predicate Expired(item: Item, now: int) {
    item.expiration > 0 && now > item.expiration
  }

  /** A stored value decodes into a variable that currently holds `into` when both are of the same kind. */
  predicate Decodes(stored: Value, into: Value) {
    (stored.IntValue? && into.IntValue?) || (stored.TextValue? && into.TextValue?)
  }

  /** The bucket after reading `key` at `now`: an expired entry is deleted, nothing else changes. */
  function AfterGet(b: Bucket, key: string, now: int): Bucket {
    if key in b && b[key].Stored? && Expired(b[key].item, now) then b - {key} else b
  }

  /** What a read of `key` at `now` into a variable holding `into` yields. */
  datatype Read = Read(result: Value, failed: bool)

  /**
   * The answer of `Get`: a missing or expired key leaves the variable as it
   * was and reports no error; bytes that do not decode, or a value of
   * another kind than the variable, report an error and leave it as it was.
   */
  function GetResult(b: Bucket, key: string, now: int, into: Value): Read {
    if key !in b then Read(into, false)
    else match b[key]
      case Undecodable => Read(into, true)
      case Stored(item) =>
        if Expired(item, now) then Read(into, false)
        else if Decodes(item.data, into) then Read(item.data, false)
        else Read(into, true)
  }

  class Cache {
    var bucket: Bucket

    ghost predicate Valid() reads this { NoNilStored(bucket) }

    /**
     * A cache over the database file: the bucket is created if missing and
     * keeps every entry the file already holds (`existing`, which is `map[]`
     * for a fresh file).
     */
    constructor (existing: Bucket)
      requires NoNilStored(existing)
      ensures Valid() && bucket == existing
    {
      bucket := existing;
    }

    /** Store `value` under `key`, replacing what was there; a nil pointer is refused. */
    method Set(key: string, value: Value, expiration: int, now: int) returns (failed: bool)
      requires Valid()
      modifies this
      ensures Valid()
      ensures failed <==> value.NilPointer?
      ensures failed ==> bucket == old(bucket)
      ensures !failed ==> bucket == old(bucket)[key := Stored(Item(value, ExpirationAt(expiration, now)))]
    {
      if value.NilPointer? {
        return true;
      }
      var e := expiration;
      if e != 0 {
        e := now + e;
      }
      bucket := bucket[key := Stored(Item(value, e))];
      return false;
    }

    /** Read `key` into a variable holding `into`; an expired entry is deleted on the way. */
    method Get(key: string, now: int, into: Value) returns (result: Value, failed: bool)
      requires Valid()
      modifies this
      ensures Valid()
      ensures bucket == AfterGet(old(bucket), key, now)
      ensures Read(result, failed) == GetResult(old(bucket), key, now, into)
    {
      result, failed := into, false;
      if key !in bucket {
        return;
      }
      match bucket[key]
      case Undecodable =>
        failed := true;
      case Stored(item) =>
        if item.expiration > 0 && now > item.expiration {
          bucket := bucket - {key};
          return;
        }
        if Decodes(item.data, into) {
          result := item.data;
        } else {
          failed := true;
        }
    }

    /** Remove `key`; every other key keeps its slot. */
    method Delete(key: string)
      requires Valid()
      modifies this
      ensures Valid()
      ensures bucket == old(bucket) - {key}
    {
      bucket := bucket - {key};
    }

    /** Drop the bucket and create it again, empty. */
    method Flush()
      modifies this
      ensures Valid()
      ensures bucket == map[]
    {
      bucket := map[];
    }
  }

  // ---------------------------------------------------------------------------
  // How the operations combine
  // ---------------------------------------------------------------------------

  /** A value read back before its expiration passes is the value stored; reading does not delete it. */
  lemma SetThenGet(b: Bucket, key: string, v: Value, expiration: int, setAt: int, now: int, into: Value)
    requires !v.NilPointer? && Decodes(v, into)
    requires expiration == 0 || now <= setAt + expiration || setAt + expiration <= 0
    ensures var b' := b[key := Stored(Item(v, ExpirationAt(expiration, setAt)))];
      GetResult(b', key, now, into) == Read(v, false) && AfterGet(b', key, now) == b'
  {
  }

  /** Once its expiration has passed, a stored value reads as absent and the read deletes it. */
  lemma SetThenGetExpired(b: Bucket, key: string, v: Value, expiration: int, setAt: int, now: int, into: Value)
    requires expiration != 0 && setAt + expiration > 0 && now > setAt + expiration
    ensures var b' := b[key := Stored(Item(v, ExpirationAt(expiration, setAt)))];
      GetResult(b', key, now, into) == Read(into, false) && AfterGet(b', key, now) == b - {key}
  {
  }

  /** Setting one key does not change what another key reads. */
  lemma SetLeavesOtherKeys(b: Bucket, key: string, other: string, item: Item, now: int, into: Value)
    requires key != other
    ensures GetResult(b[key := Stored(item)], other, now, into) == GetResult(b, other, now, into)
  {
  }

  /** A deleted key reads as absent, without an error. */
  lemma DeleteThenGet(b: Bucket, key: string, now: int, into: Value)
    ensures GetResult(b - {key}, key, now, into) == Read(into, false)
  {
  }
}
