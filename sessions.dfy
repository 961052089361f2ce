/** The session registry's storage: an insertion-ordered Map from session id to record, and its snapshot form. */
module Sessions {
  import opened Js

  type SessionId = string

  /** The ids a sequence lists. */
  function Ids(s: seq<SessionId>): set<SessionId> {
    if s == [] then {} else Ids(s[..|s| - 1]) + {s[|s| - 1]}
  }

  /** The ids a sequence lists are exactly its elements. */
  lemma {:induction false} IdsAreElements(s: seq<SessionId>)
    ensures forall k :: k in Ids(s) <==> k in s
  {
    if s != [] {
      var n := |s| - 1;
      IdsAreElements(s[..n]);
      assert s == s[..n] + [s[n]];
    }
  }

  /** No id occurs twice: each one is new relative to the ids before it. */
  predicate Distinct(s: seq<SessionId>) {
    s == [] || (Distinct(s[..|s| - 1]) && s[|s| - 1] !in Ids(s[..|s| - 1]))
  }

  /** An id of a sequence of distinct ids does not occur before its position. */
  lemma {:induction false} DistinctFresh(s: seq<SessionId>, i: nat)
    requires Distinct(s) && i < |s|
    ensures s[i] !in Ids(s[..i])
  {
    var n := |s| - 1;
    if i < n {
      assert s[..n][..i] == s[..i];
      DistinctFresh(s[..n], i);
    }
  }

  /** In a sequence of distinct ids, no two positions hold the same id. */
  lemma DistinctPositions(s: seq<SessionId>)
    requires Distinct(s)
    ensures forall i, j :: 0 <= i < j < |s| ==> s[i] != s[j]
  {
    forall i, j | 0 <= i < j < |s| ensures s[i] != s[j] {
      DistinctFresh(s, j);
      IdsAreElements(s[..j]);
      assert s[i] == s[..j][i];
    }
  }

  /** Appending an id not yet listed keeps the ids distinct. */
  lemma DistinctAppend(s: seq<SessionId>, id: SessionId)
    requires Distinct(s) && id !in Ids(s)
    ensures Distinct(s + [id])
    ensures Ids(s + [id]) == Ids(s) + {id}
  {
    assert (s + [id])[..|s|] == s;
  }

  /** `order` lists the Map's keys once each, in insertion order. */
  predicate Ordered(order: seq<SessionId>, records: map<SessionId, Record>) {
    Distinct(order) && records.Keys == Ids(order)
  }

  /** `sessions.get(id)` for an id of the insertion order (an empty record for any other id). */
  function At(records: map<SessionId, Record>, id: SessionId): Record {
    if id in records then records[id] else map[]
  }

  /** `[...sessions.values()]`: the records in insertion order. */
  function Values(order: seq<SessionId>, records: map<SessionId, Record>): seq<Record> {
    seq(|order|, i requires 0 <= i < |order| => At(records, order[i]))
  }

  /** `Object.fromEntries(sessions)`: the registry as the snapshot file holds it, in insertion order. */
  function Entries(order: seq<SessionId>, records: map<SessionId, Record>): seq<(SessionId, Record)> {
    seq(|order|, i requires 0 <= i < |order| => (order[i], At(records, order[i])))
  }

  /** The keys of a snapshot, in file order. */
  function KeysOf(entries: seq<(SessionId, Record)>): seq<SessionId> {
    seq(|entries|, i requires 0 <= i < |entries| => entries[i].0)
  }

  /** The Map that `sessions.set(key, saved[key])` builds from a snapshot, entry by entry. */
  function MapOf(entries: seq<(SessionId, Record)>): (m: map<SessionId, Record>)
    ensures m.Keys == Ids(KeysOf(entries))
  {
    if entries == [] then map[]
    else
      var last := entries[|entries| - 1];
      assert KeysOf(entries) == KeysOf(entries[..|entries| - 1]) + [last.0];
      MapOf(entries[..|entries| - 1])[last.0 := last.1]
  }

  /** Reading one more entry of a snapshot with distinct keys adds a key not read before. */
  lemma LoadStep(entries: seq<(SessionId, Record)>, i: nat)
    requires Distinct(KeysOf(entries)) && i < |entries|
    ensures entries[i].0 !in Ids(KeysOf(entries[..i]))
    ensures KeysOf(entries[..i + 1]) == KeysOf(entries[..i]) + [entries[i].0]
    ensures MapOf(entries[..i + 1]) == MapOf(entries[..i])[entries[i].0 := entries[i].1]
  {
    assert KeysOf(entries[..i]) == KeysOf(entries)[..i];
    DistinctFresh(KeysOf(entries), i);
    assert entries[..i + 1][..i] == entries[..i];
  }

  /** Each key of a snapshot with distinct keys maps to the record stored beside it. */
  lemma {:induction false} MapOfAt(entries: seq<(SessionId, Record)>, i: nat)
    requires Distinct(KeysOf(entries))
    requires i < |entries|
    ensures entries[i].0 in MapOf(entries) && MapOf(entries)[entries[i].0] == entries[i].1
  {
    var n := |entries| - 1;
    if i < n {
      var prefix := entries[..n];
      assert KeysOf(prefix) == KeysOf(entries)[..n];
      assert entries[i].0 != entries[n].0 by {
        IdsAreElements(KeysOf(entries)[..n]);
        assert KeysOf(entries)[..n][i] == entries[i].0;
      }
      assert prefix[i] == entries[i];
      MapOfAt(prefix, i);
    }
  }

  /** Writing the registry out and reading it back in gives back the same keys, order and records. */
  lemma {:induction false} SnapshotRoundTrip(order: seq<SessionId>, records: map<SessionId, Record>)
    requires Ordered(order, records)
    ensures KeysOf(Entries(order, records)) == order
    ensures MapOf(Entries(order, records)) == records
  {
    var es := Entries(order, records);
    assert KeysOf(es) == order;
    IdsAreElements(order);
    forall k | k in records ensures MapOf(es)[k] == records[k] {
      var i :| 0 <= i < |order| && order[i] == k;
      MapOfAt(es, i);
    }
  }

  /** A sequence of distinct ids lists as many ids as it has elements. */
  lemma {:induction false} DistinctCard(s: seq<SessionId>)
    requires Distinct(s)
    ensures |Ids(s)| == |s|
  {
    if s != [] {
      DistinctCard(s[..|s| - 1]);
    }
  }

  /** The Map's size (`sessions.size`) is the length of its insertion order. */
  lemma SizeIsOrderLength(order: seq<SessionId>, records: map<SessionId, Record>)
    requires Ordered(order, records)
    ensures |records| == |order|
  {
    DistinctCard(order);
    assert |records| == |records.Keys|;
  }
}
