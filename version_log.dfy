// The version logs the newer Mongo stores keep beside their collections: each
// write is followed by an `IncrVersion` on the log of the ID it is kept for,
// naming the IDs it changed and how.
module VersionLog {
  /** One `IncrVersion` on a log: the IDs changed, and the state they were
      given. */
  datatype LogEntry<S> = LogEntry(ids: seq<string>, state: S)

  /** Each log's entries by the ID it is kept for. */
  type Logs<S> = map<string, seq<LogEntry<S>>>

  /** An ID's log; an ID never written has an empty one. */
  function Log<S>(logs: Logs<S>, id: string): seq<LogEntry<S>>
  {
    if id in logs then logs[id] else []
  }

  /** `IncrVersion` on one ID's log. */
  function Append<S>(logs: Logs<S>, id: string, e: LogEntry<S>): (r: Logs<S>)
    ensures Log(r, id) == Log(logs, id) + [e]
    ensures forall o :: o != id ==> Log(r, o) == Log(logs, o)
  {
    logs[id := Log(logs, id) + [e]]
  }

  /** The keys of some of the given documents. */
  function KeysOf<T>(docs: seq<T>, key: T -> string): set<string>
  {
    set i | 0 <= i < |docs| :: key(docs[i])
  }

  /** The `val` of each document whose `key` is `k`, in input order. */
  function Collect<T>(docs: seq<T>, key: T -> string, val: T -> string, k: string): seq<string>
  {
    if |docs| == 0 then []
    else
      var last := docs[|docs| - 1];
      Collect(docs[..|docs| - 1], key, val, k) + (if key(last) == k then [val(last)] else [])
  }

  lemma KeysOfSnoc<T>(docs: seq<T>, key: T -> string)
    requires |docs| > 0
    ensures KeysOf(docs, key) == KeysOf(docs[..|docs| - 1], key) + {key(docs[|docs| - 1])}
  {
    var init := docs[..|docs| - 1];
    forall o | o in KeysOf(docs, key)
      ensures o in KeysOf(init, key) + {key(docs[|docs| - 1])}
    {
      var i :| 0 <= i < |docs| && key(docs[i]) == o;
      if i < |docs| - 1 {
        assert init[i] == docs[i];
      }
    }
    forall o | o in KeysOf(init, key)
      ensures o in KeysOf(docs, key)
    {
      var i :| 0 <= i < |init| && key(init[i]) == o;
      assert docs[i] == init[i];
    }
  }

  lemma KeysOfOne<T>(d: T, key: T -> string)
    ensures KeysOf([d], key) == {key(d)}
  {
    assert [d][0] == d;
  }

  /** A key with no document collects nothing, and a key with one collects
      something. */
  lemma {:induction false} CollectEmpty<T>(docs: seq<T>, key: T -> string, val: T -> string, k: string)
    ensures k !in KeysOf(docs, key) <==> Collect(docs, key, val, k) == []
  {
    if |docs| > 0 {
      CollectEmpty(docs[..|docs| - 1], key, val, k);
      KeysOfSnoc(docs, key);
    }
  }

  /** Each document with key `k` contributes its `val`, and every collected
      value comes from such a document. */
  lemma {:induction false} CollectMembers<T>(docs: seq<T>, key: T -> string, val: T -> string, k: string)
    ensures forall i :: 0 <= i < |docs| && key(docs[i]) == k ==> val(docs[i]) in Collect(docs, key, val, k)
    ensures forall v :: v in Collect(docs, key, val, k) ==>
      exists i :: 0 <= i < |docs| && key(docs[i]) == k && val(docs[i]) == v
  {
    if |docs| > 0 {
      var init := docs[..|docs| - 1];
      CollectMembers(init, key, val, k);
      forall i | 0 <= i < |docs| && key(docs[i]) == k
        ensures val(docs[i]) in Collect(docs, key, val, k)
      {
        if i < |docs| - 1 {
          assert init[i] == docs[i];
        }
      }
      forall v | v in Collect(docs, key, val, k)
        ensures exists i :: 0 <= i < |docs| && key(docs[i]) == k && val(docs[i]) == v
      {
        if v in Collect(init, key, val, k) {
          var i :| 0 <= i < |init| && key(init[i]) == k && val(init[i]) == v;
          assert docs[i] == init[i];
        }
      }
    }
  }

  /** The grouping a store's `Create` does before logging: a map from each key
      among the documents to that key's values in input order, then one entry
      per key (map order in the source; each log gets one entry whatever the
      order). */
  method LogGrouped<T, S>(logs: Logs<S>, docs: seq<T>, key: T -> string, val: T -> string, state: S)
    returns (r: Logs<S>)
    ensures forall k ::
      (Log(r, k) == if k in KeysOf(docs, key) then Log(logs, k) + [LogEntry(Collect(docs, key, val, k), state)]
                    else Log(logs, k))
  {
    var mp: map<string, seq<string>> := map[];
    for i := 0 to |docs|
      invariant forall k :: k in mp <==> k in KeysOf(docs[..i], key)
      invariant forall k :: k in mp ==> mp[k] == Collect(docs[..i], key, val, k)
    {
      var d := docs[i];
      assert docs[..i + 1][..i] == docs[..i] && docs[..i + 1][i] == d;
      KeysOfSnoc(docs[..i + 1], key);
      if key(d) !in mp {
        CollectEmpty(docs[..i], key, val, key(d));
      }
      mp := mp[key(d) := (if key(d) in mp then mp[key(d)] else []) + [val(d)]];
    }
    assert docs[..|docs|] == docs;
    r := logs;
    var pending := mp.Keys;
    while pending != {}
      invariant pending <= mp.Keys
      invariant forall k ::
        (Log(r, k) == if k in mp && k !in pending then Log(logs, k) + [LogEntry(mp[k], state)] else Log(logs, k))
      decreases pending
    {
      var k :| k in pending;
      r := Append(r, k, LogEntry(mp[k], state));
      pending := pending - {k};
    }
  }
}
