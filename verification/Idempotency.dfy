/** `insert_or_replay` of app/db/idempotency.py: insert a row, or read back the row that owns the
    unique key. */
module Idempotency {

  class UniqueTable<K(==), V> {
    var rows: map<K, V>

    constructor ()
      ensures rows == map[]
    {
      rows := map[];
    }

    method InsertOrReplay(key: K, value: V) returns (stored: V, inserted: bool)
      modifies this
      ensures rows == Inserted(old(rows), key, value)
      ensures inserted == (key !in old(rows)) && stored == rows[key]
    {
      inserted := key !in rows;
      if inserted {
        rows := rows[key := value];
      }
      stored := rows[key];
    }
  }

  function Inserted<K, V>(rows: map<K, V>, key: K, value: V): map<K, V> {
    if key in rows then rows else rows[key := value]
  }

  datatype Request<K, V> = Request(key: K, value: V)
  datatype Reply<V> = Reply(stored: V, inserted: bool)

  /** An empty table after a sequence of requests. */
  function RowsAfter<K(==), V>(requests: seq<Request<K, V>>): map<K, V> {
    if requests == [] then map[]
    else
      var before, r := RowsAfter(requests[..|requests| - 1]), requests[|requests| - 1];
      Inserted(before, r.key, r.value)
  }

  /** The reply to request number i of the sequence. */
  function ReplyTo<K(==), V>(requests: seq<Request<K, V>>, i: nat): Reply<V>
    requires i < |requests|
  {
    var before, r := RowsAfter(requests[..i]), requests[i];
    Reply(Inserted(before, r.key, r.value)[r.key], r.key !in before)
  }

  /** i is the first request for its key. */
  ghost predicate IsFirst<K, V>(requests: seq<Request<K, V>>, i: nat, key: K) {
    && i < |requests| && requests[i].key == key
    && forall j :: 0 <= j < i ==> requests[j].key != key
  }

  lemma {:induction false} RowsHoldOnlyRequestedKeys<K, V>(requests: seq<Request<K, V>>, key: K)
    requires forall j :: 0 <= j < |requests| ==> requests[j].key != key
    ensures key !in RowsAfter(requests)
  {
    if requests != [] {
      RowsHoldOnlyRequestedKeys(requests[..|requests| - 1], key);
    }
  }

  /** The table is the map that keeps, for each key requested, the value of its first request. */
  lemma {:induction false} TableKeepsFirstValues<K, V>(requests: seq<Request<K, V>>, first: nat, key: K)
    requires IsFirst(requests, first, key)
    ensures key in RowsAfter(requests) && RowsAfter(requests)[key] == requests[first].value
  {
    var last := |requests| - 1;
    var rest := requests[..last];
    if first < last {
      assert IsFirst(rest, first, key);
      TableKeepsFirstValues(rest, first, key);
    } else {
      RowsHoldOnlyRequestedKeys(rest, key);
    }
  }

  /** Every request is answered with the first value of its key, and exactly the first request for
      a key is told that it inserted. */
  lemma RepliesAreStable<K, V>(requests: seq<Request<K, V>>, i: nat, first: nat)
    requires first <= i < |requests| && IsFirst(requests, first, requests[i].key)
    ensures ReplyTo(requests, i) == Reply(requests[first].value, i == first)
  {
    var before, key := requests[..i], requests[i].key;
    if first < i {
      assert IsFirst(before, first, key);
      TableKeepsFirstValues(before, first, key);
    } else {
      RowsHoldOnlyRequestedKeys(before, key);
    }
  }

  /** For every key requested, exactly one request reports inserted. */
  lemma InsertedOncePerKey<K, V>(requests: seq<Request<K, V>>, i: nat)
    requires i < |requests|
    ensures exists first: nat :: first <= i && IsFirst(requests, first, requests[i].key)
    ensures ReplyTo(requests, i).inserted <==> IsFirst(requests, i, requests[i].key)
  {
    var first := FirstIndex(requests, requests[i].key, i);
    RepliesAreStable(requests, i, first);
  }

  lemma {:induction false} FirstIndex<K, V>(requests: seq<Request<K, V>>, key: K, i: nat) returns (first: nat)
    requires i < |requests| && requests[i].key == key
    ensures first <= i && IsFirst(requests, first, key)
  {
    if j :| 0 <= j < i && requests[j].key == key {
      first := FirstIndex(requests, key, j);
    } else {
      first := i;
    }
  }
}
